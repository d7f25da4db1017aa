/**
 * `NetRadioPlayer`: the playback session. It owns the backend and the catalog,
 * remembers the current station and the volume, and listens to the metadata: a genre
 * or bitrate change is copied into the catalog entry of the current station, but
 * only while that station's stream is the one playing.
 */
module Player {
  import opened Wrappers
  import opened Text
  import opened Decimal
  import opened Stations
  import opened CsvEntries
  import opened Catalog
  import opened Metadata
  import opened TagRouting
  import opened Backend

  /** The registration of the player's own metadata listener. */
  const TAG_LISTENER: ListenerId := 0

  /**
   * The listener's effect of one change on the entry `id`: a genre is stored as is; a
   * bitrate is stored when its text is a decimal int; every other change is ignored.
   */
  function PushTag(cat: map<int, StationValue>, id: int, e: PropertyChange): (r: map<int, StationValue>)
    ensures r.Keys == cat.Keys
    ensures forall k | k in cat && k != id :: r[k] == cat[k]
    ensures id in cat ==> SameButTags(cat[id], r[id])
    ensures id in cat && e.property == Genre ==> r[id].genre == e.newValue
    ensures id in cat && e.property == Bitrate && Parse(e.newValue).Some? ==> r[id].bitrate == Parse(e.newValue).value
    ensures e.property == Bitrate && Parse(e.newValue).None? ==> r == cat
    ensures e.property != Genre && e.property != Bitrate ==> r == cat
  {
    if id !in cat then cat
    else if e.property == Genre then cat[id := WithGenre(cat[id], e.newValue)]
    else if e.property == Bitrate then
      match Parse(e.newValue)
      case Some(b) => cat[id := WithBitrate(cat[id], b)]
      case None => cat
    else cat
  }

  /** The listener's effect of a sequence of changes, in delivery order. */
  function Push(cat: map<int, StationValue>, id: int, evs: seq<PropertyChange>): (r: map<int, StationValue>)
    ensures r.Keys == cat.Keys
    ensures id !in cat ==> r == cat
  {
    if evs == [] then cat
    else PushTag(Push(cat, id, evs[..|evs| - 1]), id, evs[|evs| - 1])
  }

  /** `v` differs from `w` at most in genre and bitrate. */
  predicate SameButTags(v: StationValue, w: StationValue) {
    v.(genre := w.genre, bitrate := w.bitrate) == w
  }

  /**
   * Tag changes reach only the current station's entry, and only its genre and
   * bitrate; no entry is added or removed.
   */
  lemma {:induction false} PushTouchesOnlyGenreAndBitrate(cat: map<int, StationValue>, id: int, evs: seq<PropertyChange>)
    ensures Push(cat, id, evs).Keys == cat.Keys
    ensures forall k | k in cat && k != id :: Push(cat, id, evs)[k] == cat[k]
    ensures id in cat ==> SameButTags(cat[id], Push(cat, id, evs)[id])
  {
    if evs != [] {
      PushTouchesOnlyGenreAndBitrate(cat, id, evs[..|evs| - 1]);
    }
  }

  /** Changes of properties other than genre and bitrate leave the catalog as it was. */
  lemma {:induction false} PushIgnoresOtherProperties(cat: map<int, StationValue>, id: int, evs: seq<PropertyChange>)
    requires forall e | e in evs :: e.property != Genre && e.property != Bitrate
    ensures Push(cat, id, evs) == cat
  {
    if evs != [] {
      assert evs[|evs| - 1] in evs;
      assert forall e | e in evs[..|evs| - 1] :: e in evs;
      PushIgnoresOtherProperties(cat, id, evs[..|evs| - 1]);
    }
  }

  /** The genre reported by the last genre change is the one stored. */
  lemma {:induction false} LastGenreWins(cat: map<int, StationValue>, id: int, evs: seq<PropertyChange>, i: int)
    requires id in cat && 0 <= i < |evs| && evs[i].property == Genre
    requires forall j | i < j < |evs| :: evs[j].property != Genre
    ensures id in Push(cat, id, evs) && Push(cat, id, evs)[id].genre == evs[i].newValue
  {
    PushTouchesOnlyGenreAndBitrate(cat, id, evs[..|evs| - 1]);
    if i < |evs| - 1 {
      LastGenreWins(cat, id, evs[..|evs| - 1], i);
    }
  }

  class NetRadioPlayer {
    const playback: StreamPlayerGStreamer
    const stations: StationManager
    var currentStation: RadioStation?
    var volume: int

    /**
     * The catalog is well formed, the volume is in range and agrees with the backend,
     * and a pipeline exists exactly when a station is current, playing its URI.
     */
    ghost predicate Valid()
      reads this, playback, stations
    {
      && playback.Valid() && stations.Valid()
      && InVolumeRange(volume) && playback.volume == volume
      && (currentStation != null <==> playback.pipeline.Some?)
      && (currentStation != null ==> playback.pipeline.value.uri == currentStation.uri)
    }

    /** The catalog's value. */
    ghost function Catalog(): map<int, StationValue>
      reads stations, stations.stations.Values
    {
      stations.Catalog()
    }

    /** Whether the current station is the one stored under its id. */
    predicate CurrentIsStored()
      reads this, stations
      requires currentStation != null
    {
      currentStation.id in stations.stations && stations.stations[currentStation.id] == currentStation
    }

    /** The listener's guard: a current station, its stream's metadata, and playback running. */
    predicate TagGuard()
      reads this, playback, playback.metadata
    {
      && currentStation != null
      && playback.metadata.streamUri == currentStation.uri
      && playback.IsPlaying() == Success(true)
    }

    /**
     * A player over the loaded stations: full volume, no current station, and the tag
     * listener registered on the metadata.
     */
    constructor (loaded: seq<RadioStation>)
      ensures Valid() && currentStation == null && volume == MAX_VOLUME
      ensures fresh(playback) && fresh(playback.metadata) && fresh(stations)
      ensures stations.stations == IdMap(loaded) && stations.currentId == FIRST_ID
      ensures playback.pipeline == None && playback.metadata.listeners == [TAG_LISTENER]
      ensures playback.metadata.Value() == EMPTY && playback.metadata.fired == []
    {
      var backend := new StreamPlayerGStreamer();
      var catalog := new StationManager(loaded);
      var volumeSet := backend.SetVolume(MAX_VOLUME);
      var added := backend.metadata.AddPropertyChangeListener(Some(TAG_LISTENER));
      playback := backend;
      stations := catalog;
      currentStation := null;
      volume := MAX_VOLUME;
    }

    /**
     * `setStation`: an unknown id is an illegal argument and changes nothing; otherwise
     * the backend switches to the station's URI and the station becomes current.
     */
    method SetStation(id: int) returns (r: Outcome)
      requires Valid()
      modifies this, playback
      ensures Valid() && volume == old(volume) && playback.volume == old(playback.volume)
      ensures id !in stations.stations ==>
                r == Err(IllegalArgument) && currentStation == old(currentStation) && playback.pipeline == old(playback.pipeline)
      ensures id in stations.stations ==>
                && r == Ok && currentStation == stations.stations[id]
                && playback.pipeline == Some(Pipeline(currentStation.uri, old(playback.pipeline).Some? && old(playback.pipeline).value.playing, volume))
    {
      var s := stations.GetStation(id);
      if s != null {
        playback.SetSource(s.uri);
        currentStation := s;
        r := Ok;
      } else {
        r := Err(IllegalArgument);
      }
    }

    /**
     * `play`: without a current station nothing happens; otherwise the backend plays
     * and the current station is marked played at `now`, exactly once.
     */
    method Play(now: Timestamp)
      requires Valid()
      modifies playback, currentStation
      ensures Valid() && currentStation == old(currentStation) && volume == old(volume)
      ensures old(currentStation) == null ==> playback.pipeline == old(playback.pipeline) && Catalog() == old(Catalog())
      ensures old(currentStation) != null ==>
                && playback.pipeline == Some(old(playback.pipeline).value.(playing := true))
                && currentStation.Value() == Played(old(currentStation.Value()), now)
                && Catalog() == if CurrentIsStored()
                                then old(Catalog())[currentStation.id := Played(old(Catalog())[currentStation.id], now)]
                                else old(Catalog())
    {
      if currentStation != null {
        var started := playback.Play();
        currentStation.MarkPlayed(now);
        if CurrentIsStored() {
          stations.OnlyOneStationChanged(currentStation.id);
        } else {
          stations.NoStationChanged();
        }
      }
    }

    /** `stop`: without a current station nothing happens; otherwise the backend stops. */
    method Stop()
      requires Valid()
      modifies playback
      ensures Valid() && volume == old(volume)
      ensures old(currentStation) == null ==> playback.pipeline == old(playback.pipeline)
      ensures old(currentStation) != null ==> playback.pipeline == Some(old(playback.pipeline).value.(playing := false))
    {
      if currentStation != null {
        var stopped := playback.Stop();
      }
    }

    /** `setVolume`: a level outside 0..100 is rejected and nothing changes; otherwise it is the new volume. */
    method SetVolume(level: int) returns (r: Outcome)
      requires Valid()
      modifies this, playback
      ensures Valid() && currentStation == old(currentStation)
      ensures !InVolumeRange(level) ==> r == Err(IllegalArgument) && volume == old(volume) && playback.pipeline == old(playback.pipeline)
      ensures InVolumeRange(level) ==> r == Ok && volume == level && GetVolume() == level
                                       && playback.pipeline.Some? == old(playback.pipeline).Some?
                                       && (playback.pipeline.Some? ==> playback.pipeline == Some(old(playback.pipeline).value.(volume := level)))
    {
      if level < MIN_VOLUME || level > MAX_VOLUME {
        return Err(IllegalArgument);
      }
      var volumeSet := playback.SetVolume(level);
      volume := level;
      r := Ok;
    }

    /** `getVolume`: always within 0..100. */
    function GetVolume(): (v: int)
      requires Valid()
      reads this, playback, stations
      ensures InVolumeRange(v) && v == playback.volume
    {
      volume
    }

    /** `isPlaying`: the backend's answer; it fails only before any station was set. */
    function IsPlaying(): (r: Result<bool>)
      requires Valid()
      reads this, playback, stations
      ensures r.Fail? <==> currentStation == null
      ensures r.Success? ==> r.value == playback.pipeline.value.playing
    {
      playback.IsPlaying()
    }

    /** `getStation`: the station stored under `id`, or null. */
    function GetStation(id: int): (s: RadioStation?)
      requires Valid()
      reads this, playback, stations
      ensures s != null <==> id in stations.stations
      ensures s != null ==> s == stations.stations[id]
    {
      stations.GetStation(id)
    }

    /** `getAllStations`. */
    method GetAllStations() returns (all: seq<RadioStation>)
      requires Valid()
      ensures ListsAll(stations.stations, all)
    {
      all := stations.GetAllStations();
    }

    /**
     * `addStation`: a null URI, then a null name, is rejected with nothing changed;
     * otherwise the catalog stores a new station under its counter, replacing any station
     * already there; the id is fresh when the counter was past every stored id.
     */
    method AddStation(name: Option<string>, uri: Option<string>) returns (r: Result<int>)
      requires Valid()
      modifies stations
      ensures Valid()
      ensures uri.None? ==> r == Fail(NullPointer)
      ensures uri.Some? && name.None? ==> r == Fail(NullPointer)
      ensures r.Fail? ==> stations.stations == old(stations.stations) && stations.currentId == old(stations.currentId)
      ensures uri.Some? && name.Some? ==>
                && r == Success(old(stations.currentId))
                && stations.currentId == old(stations.currentId) + 1
                && r.value in stations.stations
                && stations.stations == old(stations.stations)[r.value := stations.stations[r.value]]
                && (old(stations.CounterAhead()) ==> stations.CounterAhead() && r.value !in old(stations.stations))
                && Catalog() == old(Catalog())[r.value := NewStation(r.value, name.value, uri.value)]
    {
      if uri.None? || name.None? {
        return Fail(NullPointer);
      }
      var id := stations.AddStation(name.value, uri.value);
      r := Success(id);
    }

    /** `removeStation`: true exactly when the id was stored; the current station is kept even if removed. */
    method RemoveStation(id: int) returns (removed: bool)
      requires Valid()
      modifies stations
      ensures Valid() && currentStation == old(currentStation)
      ensures removed == (id in old(stations.stations))
      ensures stations.stations == old(stations.stations) - {id}
      ensures Catalog() == old(Catalog()) - {id}
    {
      removed := stations.RemoveStation(id);
    }

    /** `setStationFavouriteStatus`. */
    method SetStationFavouriteStatus(id: int, status: bool)
      requires Valid()
      modifies stations.stations.Values
      ensures Valid()
      ensures Catalog() == if id in old(Catalog())
                           then old(Catalog())[id := Favourited(old(Catalog())[id], status)]
                           else old(Catalog())
    {
      stations.SetFavourite(id, status);
    }

    /** `findStation`: a null term is rejected; otherwise the catalog's case-insensitive search. */
    method FindStation(searchTerm: Option<string>) returns (r: Result<seq<RadioStation>>)
      requires Valid()
      ensures searchTerm.None? <==> r == Fail(NullPointer)
      ensures searchTerm.Some? ==> r.Success? && SearchResult(stations.stations, r.value, ToLower(searchTerm.value))
    {
      if searchTerm.None? {
        return Fail(NullPointer);
      }
      var results := stations.FindStation(searchTerm.value);
      r := Success(results);
    }

    /**
     * The tag listener, for one delivered change: when the guard holds, a genre or
     * bitrate change is copied into the current station's catalog entry.
     */
    method OnPropertyChange(e: PropertyChange)
      requires Valid()
      modifies stations.stations.Values
      ensures Valid()
      ensures Catalog() == if TagGuard() then PushTag(old(Catalog()), currentStation.id, e) else old(Catalog())
    {
      if currentStation != null && playback.metadata.streamUri == currentStation.uri && playback.IsPlaying() == Success(true) {
        if e.property == Genre {
          stations.SetGenre(currentStation.id, e.newValue);
        } else if e.property == Bitrate {
          var b := Parse(e.newValue);
          if b.Some? {
            stations.SetBitrate(currentStation.id, b.value);
          }
        }
      }
    }

    /**
     * A tag message from the stream at `uri`: the metadata records the stream and
     * routes the tags, and each change it fires is delivered to the listener in order.
     */
    method ReceiveTags(uri: string, tagList: seq<Tag>)
      requires Valid()
      modifies playback.metadata, stations.stations.Values
      ensures Valid()
      ensures playback.metadata.streamUri == uri
      ensures playback.metadata.Value() == ApplyTags(old(playback.metadata.Value()), tagList)
      ensures playback.metadata.fired == old(playback.metadata.fired) + Events(old(playback.metadata.Value()), Updates(tagList))
      ensures Catalog() == if TagGuard()
                           then Push(old(Catalog()), currentStation.id, Events(old(playback.metadata.Value()), Updates(tagList)))
                           else old(Catalog())
    {
      var evs := RouteTags(uri, tagList);
      Deliver(evs);
    }

    /** The metadata's part of a tag message: the events it fires, in order. */
    method RouteTags(uri: string, tagList: seq<Tag>) returns (evs: seq<PropertyChange>)
      requires Valid()
      modifies playback.metadata
      ensures Valid()
      ensures playback.metadata.streamUri == uri
      ensures playback.metadata.Value() == ApplyTags(old(playback.metadata.Value()), tagList)
      ensures evs == Events(old(playback.metadata.Value()), Updates(tagList))
      ensures playback.metadata.fired == old(playback.metadata.fired) + evs
      ensures Catalog() == old(Catalog())
    {
      var md := playback.metadata;
      md.SetStreamUri(uri);
      var before := |md.fired|;
      TagRouting.UpdateTags(md, tagList);
      evs := md.fired[before..];
    }

    /** Delivers the changes `evs`, in order, to the tag listener. */
    method Deliver(evs: seq<PropertyChange>)
      requires Valid()
      modifies stations.stations.Values
      ensures Valid()
      ensures Catalog() == if TagGuard() then Push(old(Catalog()), currentStation.id, evs) else old(Catalog())
    {
      ghost var c0 := Catalog();
      var i := 0;
      while i < |evs|
        invariant 0 <= i <= |evs| && Valid()
        invariant Catalog() == if TagGuard() then Push(c0, currentStation.id, evs[..i]) else c0
      {
        OnPropertyChange(evs[i]);
        assert evs[..i + 1][..i] == evs[..i];
        i := i + 1;
      }
      assert evs[..i] == evs;
    }

    /** `shutdown`: stops playback, then yields the rows a final persist of the catalog writes. */
    method Shutdown() returns (rows: seq<OpenCSVEntry>)
      requires Valid()
      modifies playback
      ensures Valid()
      ensures old(currentStation) != null ==> playback.pipeline == Some(old(playback.pipeline).value.(playing := false))
      ensures |rows| == |stations.stations|
      ensures forall k | k in stations.stations :: Loader.ToEntry(stations.stations[k].Value()) in rows
    {
      Stop();
      rows := stations.Shutdown();
    }
  }
}
