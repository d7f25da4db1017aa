/**
 * A catalog entry (`RadioStation`): id, name and URI are fixed at construction;
 * genre, bitrate, play count, last-played time and the favourite flag change in place.
 */
module Stations {
  import opened Wrappers

  /** A `LocalDateTime`, abstracted to an instant supplied by the caller. */
  datatype Timestamp = Timestamp(ticks: int)

  /** The value of every field of a station at one moment. */
  datatype StationValue = StationValue(
    id: int,
    name: string,
    uri: string,
    genre: string,
    bitrate: int,
    playCount: int,
    lastPlayed: Option<Timestamp>,
    favourite: bool)

  /** Bitrate of a stream whose bitrate is not known yet. */
  const UNKNOWN_BITRATE: int := -1

  /** The constructor's first assertion as written in the source: `id > 0`. */
  predicate ConstructorAssertionAsWritten(id: int) { id > 0 }

  /** The intended constraint on ids (the assertion's message speaks of negative ids): `id >= 0`. */
  predicate ValidId(id: int) { id >= 0 }

  /** The first id the catalog hands out, and the first id of the development stations, is 0. */
  const FIRST_ID: int := 0

  /** A station as the three-argument constructor creates it. */
  function NewStation(id: int, name: string, uri: string): StationValue {
    StationValue(id, name, uri, "", UNKNOWN_BITRATE, 0, None, false)
  }

  /** The effect of `setFavourite(b)`. */
  function Favourited(v: StationValue, b: bool): StationValue { v.(favourite := b) }

  /** The effect of `markPlayed()` at instant `now`. */
  function Played(v: StationValue, now: Timestamp): StationValue {
    v.(playCount := v.playCount + 1, lastPlayed := Some(now))
  }

  /** The effect of `setGenre(g)`. */
  function WithGenre(v: StationValue, g: string): StationValue { v.(genre := g) }

  /** The effect of `setBitrate(b)`. */
  function WithBitrate(v: StationValue, b: int): StationValue { v.(bitrate := b) }

  /** Setting the favourite flag twice to the same value is setting it once. */
  lemma FavouritedIdempotent(v: StationValue, b: bool)
    ensures Favourited(Favourited(v, b), b) == Favourited(v, b)
    ensures Favourited(v, b).favourite == b
  {
  }

  /** Marking a station played changes exactly its play count (by one) and its last-played time. */
  lemma PlayedChangesOnlyHistory(v: StationValue, now: Timestamp)
    ensures Played(v, now).playCount == v.playCount + 1
    ensures Played(v, now).lastPlayed == Some(now)
    ensures Played(v, now).(playCount := v.playCount, lastPlayed := v.lastPlayed) == v
  {
  }

  class RadioStation {
    const id: int
    const name: string
    const uri: string
    var genre: string
    var bitrate: int
    var playCount: int
    var lastPlayed: Option<Timestamp>
    var favourite: bool

    function Value(): StationValue
      reads this
    {
      StationValue(id, name, uri, genre, bitrate, playCount, lastPlayed, favourite)
    }

    /** A new station: never played, play count 0, bitrate unknown, not a favourite, no genre. */
    constructor (id: int, name: string, uri: string)
      requires ValidId(id)
      ensures Value() == NewStation(id, name, uri)
    {
      this.id := id;
      this.name := name;
      this.uri := uri;
      genre := "";
      bitrate := UNKNOWN_BITRATE;
      playCount := 0;
      lastPlayed := None;
      favourite := false;
    }

    /** The all-fields constructor the loader uses to rebuild a stored station; it checks nothing. */
    constructor Restore(v: StationValue)
      ensures Value() == v
    {
      id := v.id;
      name := v.name;
      uri := v.uri;
      genre := v.genre;
      bitrate := v.bitrate;
      playCount := v.playCount;
      lastPlayed := v.lastPlayed;
      favourite := v.favourite;
    }

    method SetFavourite(val: bool)
      modifies this
      ensures Value() == Favourited(old(Value()), val)
    {
      favourite := val;
    }

    /** `markPlayed()`, with the current time passed in. */
    method MarkPlayed(now: Timestamp)
      modifies this
      ensures Value() == Played(old(Value()), now)
    {
      lastPlayed := Some(now);
      playCount := playCount + 1;
    }

    method SetGenre(g: string)
      modifies this
      ensures Value() == WithGenre(old(Value()), g)
    {
      genre := g;
    }

    method SetBitrate(b: int)
      modifies this
      ensures Value() == WithBitrate(old(Value()), b)
    {
      bitrate := b;
    }
  }
}
