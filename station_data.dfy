/**
 * `StationData`: the immutable row the station tables display, mirroring one station.
 * The id is kept as its decimal text and parsed back on demand.
 */
module Rows {
  import opened Wrappers
  import opened Decimal
  import opened Stations

  datatype StationData = StationData(
    id: string,
    name: string,
    uri: string,
    genre: string,
    playCount: int,
    favourite: bool,
    bitrate: int,
    /** The check box's observable copy of `favourite`. */
    favouriteProperty: bool)

  /** The constructor: the id is rendered in decimal, the check box starts as `favourite`. */
  function NewStationData(id: int, name: string, uri: string, genre: string, playCount: int, favourite: bool, bitrate: int): (d: StationData)
    ensures d.name == name && d.uri == uri && d.genre == genre
    ensures d.playCount == playCount && d.favourite == favourite && d.bitrate == bitrate
    ensures d.favouriteProperty == favourite
    ensures |d.id| > 0 && (d.id[0] == '-' <==> id < 0)
  {
    StationData(Render(id), name, uri, genre, playCount, favourite, bitrate, favourite)
  }

  /** `getIdAsInt`: `Integer.parseInt(id)`; a malformed id is a NumberFormatException, an illegal argument. */
  function GetIdAsInt(d: StationData): (r: Result<int>)
    ensures r.Success? ==> IsJavaInt(r.value)
  {
    match Parse(d.id)
    case Some(n) => Success(n)
    case None => Fail(IllegalArgument)
  }

  /** The id handed to the constructor comes back from `getIdAsInt`. */
  lemma IdRoundTrip(id: int, name: string, uri: string, genre: string, playCount: int, favourite: bool, bitrate: int)
    requires IsJavaInt(id)
    ensures GetIdAsInt(NewStationData(id, name, uri, genre, playCount, favourite, bitrate)) == Success(id)
  {
    ParseRender(id);
  }

  /** The row for a station: the seven displayed fields copied. */
  function ToRow(s: StationValue): (d: StationData)
    ensures d.name == s.name && d.uri == s.uri && d.genre == s.genre
    ensures d.playCount == s.playCount && d.favourite == s.favourite && d.bitrate == s.bitrate
    ensures d.favouriteProperty == s.favourite
  {
    NewStationData(s.id, s.name, s.uri, s.genre, s.playCount, s.favourite, s.bitrate)
  }

  /** The row keeps the station's id, so stations with different ids give rows with different ids. */
  lemma ToRowKeepsId(s: StationValue, t: StationValue)
    requires IsJavaInt(s.id) && IsJavaInt(t.id)
    ensures GetIdAsInt(ToRow(s)) == Success(s.id)
    ensures s.id != t.id ==> ToRow(s).id != ToRow(t).id
  {
    IdRoundTrip(s.id, s.name, s.uri, s.genre, s.playCount, s.favourite, s.bitrate);
    if ToRow(s).id == ToRow(t).id {
      RenderInjective(s.id, t.id);
    }
  }
}
