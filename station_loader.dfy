/**
 * The persistence mapping (`StationLoader`): stations to CSV rows and back.
 * Reading and writing the file is not modelled; a load receives the parsed rows
 * (or None when reading failed) and a store returns the rows it would write.
 */
module Loader {
  import opened Wrappers
  import opened Stations
  import opened CsvEntries

  /** `buildStation`: each entry field goes to the same-named station field; a missing genre becomes "". */
  function ToStation(e: OpenCSVEntry): (v: StationValue)
    ensures v.id == e.id && v.name == e.name && v.uri == e.uri
    ensures v.playCount == e.playCount && v.bitrate == e.bitrate && v.favourite == e.favourite
    ensures v.lastPlayed == e.lastPlayed
    ensures v.genre == (if e.genre.Some? then e.genre.value else "")
  {
    StationValue(e.id, e.name, e.uri, if e.genre.Some? then e.genre.value else "",
                 e.bitrate, e.playCount, e.lastPlayed, e.favourite)
  }

  /** `buildOpenCSVEntry`: the constructor takes (id, name, uri, playCount, bitrate, favourite, genre, lastPlayed). */
  function ToEntry(v: StationValue): (e: OpenCSVEntry)
    ensures e.id == v.id && e.name == v.name && e.uri == v.uri
    ensures e.playCount == v.playCount && e.bitrate == v.bitrate && e.favourite == v.favourite
    ensures e.genre == Some(v.genre) && e.lastPlayed == v.lastPlayed
  {
    OpenCSVEntry(v.id, v.name, v.uri, v.playCount, v.bitrate, v.favourite, Some(v.genre), v.lastPlayed)
  }

  /** A stored station is loaded back with equal value. */
  lemma StoreLoadRoundTrip(v: StationValue)
    ensures ToStation(ToEntry(v)) == v
  {
  }

  /** A row that has a genre is stored back unchanged; a row without one comes back with genre "". */
  lemma LoadStoreRoundTrip(e: OpenCSVEntry)
    ensures e.genre.Some? ==> ToEntry(ToStation(e)) == e
    ensures e.genre.None? ==> ToEntry(ToStation(e)) == e.(genre := Some(""))
  {
  }

  method BuildStation(entry: OpenCSVEntry) returns (s: RadioStation)
    ensures fresh(s) && s.Value() == ToStation(entry)
  {
    s := new RadioStation.Restore(ToStation(entry));
  }

  /**
   * `getStations`: one new station per row, in row order; a failed read
   * (`rows == None`) leaves the row list empty and so yields no stations.
   */
  method GetStations(rows: Option<seq<OpenCSVEntry>>) returns (stations: seq<RadioStation>)
    ensures rows.None? ==> stations == []
    ensures rows.Some? ==> |stations| == |rows.value|
    ensures rows.Some? ==> forall i :: 0 <= i < |stations| ==>
                             fresh(stations[i]) && stations[i].Value() == ToStation(rows.value[i])
  {
    var parsed: seq<OpenCSVEntry> := if rows.Some? then rows.value else [];
    stations := [];
    var i := 0;
    while i < |parsed|
      invariant 0 <= i <= |parsed| && |stations| == i
      invariant forall j :: 0 <= j < i ==> fresh(stations[j]) && stations[j].Value() == ToStation(parsed[j])
    {
      var s := BuildStation(parsed[i]);
      stations := stations + [s];
      i := i + 1;
    }
  }

  /** `storeStations`: one row per station, in list order. */
  method StoreStations(stations: seq<RadioStation>) returns (rows: seq<OpenCSVEntry>)
    ensures |rows| == |stations|
    ensures forall i :: 0 <= i < |rows| ==> rows[i] == ToEntry(stations[i].Value())
  {
    rows := [];
    var i := 0;
    while i < |stations|
      invariant 0 <= i <= |stations| && |rows| == i
      invariant forall j :: 0 <= j < i ==> rows[j] == ToEntry(stations[j].Value())
    {
      rows := rows + [ToEntry(stations[i].Value())];
      i := i + 1;
    }
  }

  /** The development station list: five new stations with ids 0 to 4. */
  method GetStationsForDevelopment() returns (stations: seq<RadioStation>)
    ensures |stations| == 5
    ensures forall i :: 0 <= i < 5 ==> fresh(stations[i]) && stations[i].Value() == NewStation(i, DEV_NAMES[i], DEV_URIS[i])
  {
    var x := 0;
    var s0 := new RadioStation(x, DEV_NAMES[0], DEV_URIS[0]); x := x + 1;
    var s1 := new RadioStation(x, DEV_NAMES[1], DEV_URIS[1]); x := x + 1;
    var s2 := new RadioStation(x, DEV_NAMES[2], DEV_URIS[2]); x := x + 1;
    var s3 := new RadioStation(x, DEV_NAMES[3], DEV_URIS[3]); x := x + 1;
    var s4 := new RadioStation(x, DEV_NAMES[4], DEV_URIS[4]);
    stations := [s0, s1, s2, s3, s4];
  }

  const DEV_NAMES: seq<string> := ["Clyde1", "Capital FM", "BBC Radio 1", "StartFM", "FreeDesktop"]
  const DEV_URIS: seq<string> := [
    "http://stream-al.planetradio.co.uk/clyde1.mp3",
    "http://media-ice.musicradio.com/Capital",
    "http://bbcmedia.ic.llnwd.net/stream/bbcmedia_radio1_mf_p",
    "http://eteris.startfm.lt/startfm.ogg",
    "https://www.freedesktop.org/software/gstreamer-sdk/data/media/sintel_trailer-480p.webm"
  ]
}
