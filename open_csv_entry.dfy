/**
 * One row of the station file (`OpenCSVEntry`): the unvalidated values bound from the
 * named CSV columns. The constructor checks nothing, so any value passes through.
 */
module CsvEntries {
  import opened Wrappers
  import opened Stations

  /** Fields in the order of the all-fields constructor; the getters are the field names. */
  datatype OpenCSVEntry = OpenCSVEntry(
    id: int,
    name: string,
    uri: string,
    playCount: int,
    bitrate: int,
    favourite: bool,
    genre: Option<string>,           // column "Genre" is optional
    lastPlayed: Option<Timestamp>)   // column "LastPlayed" is optional

  /** A CSV column: its header and whether a row must supply it. */
  datatype Column = Column(header: string, required: bool)

  /** The column bindings, in field declaration order. */
  const COLUMNS: seq<Column> := [
    Column("ID", true),
    Column("Names", true),
    Column("URI", true),
    Column("Genre", false),
    Column("PlayCount", true),
    Column("Bitrate", true),
    Column("Favourite", true),
    Column("LastPlayed", false)
  ]

  /** The headers a row must supply. */
  function RequiredHeaders(): (r: set<string>)
    ensures r == {"ID", "Names", "URI", "PlayCount", "Bitrate", "Favourite"}
  {
    var r := set i | 0 <= i < |COLUMNS| && COLUMNS[i].required :: COLUMNS[i].header;
    assert COLUMNS[0].header in r && COLUMNS[1].header in r && COLUMNS[2].header in r;
    assert COLUMNS[4].header in r && COLUMNS[5].header in r && COLUMNS[6].header in r;
    r
  }

  /** The headers a row may leave out: exactly those of the two `Option` fields. */
  function OptionalHeaders(): (r: set<string>)
    ensures r == {"Genre", "LastPlayed"}
    ensures r !! RequiredHeaders()
  {
    var r := set i | 0 <= i < |COLUMNS| && !COLUMNS[i].required :: COLUMNS[i].header;
    assert COLUMNS[3].header in r && COLUMNS[7].header in r;
    r
  }
}
