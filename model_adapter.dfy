/**
 * `ModelAdapterImpl`: the façade the controllers share. It forwards to the player,
 * caches the last search, remembers the highlighted station, and after every
 * operation that takes effect notifies each subscribed handler of a `ModelEvent`.
 */
module Adapter {
  import opened Wrappers
  import opened Text
  import opened Stations
  import opened CsvEntries
  import opened Catalog
  import opened Backend
  import opened Player

  datatype ModelEvent =
    | PLAYBACK_STARTED
    | PLAYBACK_STOPPED
    | STATION_CHANGED
    | STATION_ADDED
    | STATION_REMOVED
    | STATION_EDITED
    | SEARCH_RESULTS_READY
    | TAG_UPDATE
    | VOLUME_CHANGED
    | SHUTDOWN
    | STATION_HIGHLIGHTED
    | NEXT_HIGHLIGHTED_STATION_REQUESTED
    | PREVIOUS_HIGHLIGHTED_STATION_REQUESTED

  /** A subscribed `ModelEventHandler`, by identity. */
  type HandlerId = nat

  /** One call `handler.handleEvent(event)`. */
  datatype Delivery = Delivery(handler: HandlerId, event: ModelEvent)

  /** The handlers a sequence of deliveries reached. */
  function Reached(batch: seq<Delivery>): set<HandlerId> {
    if batch == [] then {} else Reached(batch[..|batch| - 1]) + {batch[|batch| - 1].handler}
  }

  /** How many of the deliveries went to `h`. */
  function Count(batch: seq<Delivery>, h: HandlerId): nat {
    if batch == [] then 0
    else Count(batch[..|batch| - 1], h) + (if batch[|batch| - 1].handler == h then 1 else 0)
  }

  predicate NoRepeats(batch: seq<Delivery>) {
    forall i, j | 0 <= i < j < |batch| :: batch[i].handler != batch[j].handler
  }

  /** One notification: `e` to each of `handlers`, none twice, nobody else. */
  predicate Broadcast(batch: seq<Delivery>, handlers: set<HandlerId>, e: ModelEvent) {
    && Reached(batch) == handlers && NoRepeats(batch)
    && forall i | 0 <= i < |batch| :: batch[i].event == e
  }

  lemma {:induction false} ReachedHasWitness(batch: seq<Delivery>, h: HandlerId)
    requires h in Reached(batch)
    ensures exists i :: 0 <= i < |batch| && batch[i].handler == h
  {
    if batch[|batch| - 1].handler != h {
      ReachedHasWitness(batch[..|batch| - 1], h);
      var i :| 0 <= i < |batch| - 1 && batch[..|batch| - 1][i].handler == h;
      assert batch[i].handler == h;
    }
  }

  /** A notification reaches every subscribed handler exactly once and no other. */
  lemma {:induction false} BroadcastReachesEachOnce(batch: seq<Delivery>, handlers: set<HandlerId>, e: ModelEvent, h: HandlerId)
    requires Broadcast(batch, handlers, e)
    ensures Count(batch, h) == if h in handlers then 1 else 0
  {
    CountWithoutRepeats(batch, h);
  }

  lemma {:induction false} CountWithoutRepeats(batch: seq<Delivery>, h: HandlerId)
    requires NoRepeats(batch)
    ensures Count(batch, h) == if h in Reached(batch) then 1 else 0
  {
    if batch != [] {
      var front := batch[..|batch| - 1];
      assert NoRepeats(front) by {
        forall i, j | 0 <= i < j < |front| ensures front[i].handler != front[j].handler {
          assert front[i] == batch[i] && front[j] == batch[j];
        }
      }
      CountWithoutRepeats(front, h);
      if batch[|batch| - 1].handler == h && h in Reached(front) {
        ReachedHasWitness(front, h);
        assert false;
      }
    }
  }

  /** `searchResults.removeIf(station -> station.getStationID() == id)`, order kept. */
  function Prune(results: seq<RadioStation>, id: int): (kept: seq<RadioStation>)
    ensures |kept| <= |results|
  {
    if results == [] then []
    else if results[|results| - 1].id == id then Prune(results[..|results| - 1], id)
    else Prune(results[..|results| - 1], id) + [results[|results| - 1]]
  }

  /** Pruning keeps exactly the results whose id differs. */
  lemma {:induction false} PruneKeepsOthers(results: seq<RadioStation>, id: int)
    ensures forall s :: s in Prune(results, id) <==> s in results && s.id != id
  {
    if results != [] {
      PruneKeepsOthers(results[..|results| - 1], id);
      assert results == results[..|results| - 1] + [results[|results| - 1]];
    }
  }

  /**
   * Pruning keeps the order of the results: it works piece by piece, so the survivors of
   * a front part come before those of the rest.
   */
  lemma {:induction false} PruneDistributes(a: seq<RadioStation>, b: seq<RadioStation>, id: int)
    ensures Prune(a + b, id) == Prune(a, id) + Prune(b, id)
  {
    if b == [] {
      assert a + b == a;
    } else {
      var front := b[..|b| - 1];
      PruneDistributes(a, front, id);
      assert (a + b)[..|a + b| - 1] == a + front;
      assert (a + b)[|a + b| - 1] == b[|b| - 1];
    }
  }

  /** Pruning an id that no result carries changes nothing. */
  lemma {:induction false} PruneAbsentIsIdentity(results: seq<RadioStation>, id: int)
    requires forall i | 0 <= i < |results| :: results[i].id != id
    ensures Prune(results, id) == results
  {
    if results != [] {
      PruneAbsentIsIdentity(results[..|results| - 1], id);
      assert results == results[..|results| - 1] + [results[|results| - 1]];
    }
  }

  class ModelAdapterImpl {
    const model: NetRadioPlayer
    var eventHandlers: set<HandlerId>
    var searchResults: seq<RadioStation>
    var highlightedStation: RadioStation?
    /** Every event notified so far, in order. */
    var published: seq<ModelEvent>
    /** Every `handleEvent` call made so far, in order. */
    var deliveries: seq<Delivery>

    ghost predicate Valid()
      reads this, model, model.playback, model.stations
    {
      model.Valid()
    }

    /** The shared instance: a fresh player, no subscribers, no search, nothing highlighted. */
    constructor (loaded: seq<RadioStation>)
      ensures Valid() && fresh(model) && fresh(model.playback) && fresh(model.stations)
      ensures model.currentStation == null && model.stations.stations == IdMap(loaded)
      ensures eventHandlers == {} && searchResults == [] && highlightedStation == null
      ensures published == [] && deliveries == []
    {
      model := new NetRadioPlayer(loaded);
      eventHandlers := {};
      searchResults := [];
      highlightedStation := null;
      published := [];
      deliveries := [];
    }

    /** Calls `handleEvent(e)` once on each subscribed handler, in unspecified order. */
    method NotifySubscribers(e: ModelEvent)
      modifies this
      ensures eventHandlers == old(eventHandlers) && searchResults == old(searchResults)
      ensures highlightedStation == old(highlightedStation)
      ensures published == old(published) + [e]
      ensures |old(deliveries)| <= |deliveries| && deliveries[..|old(deliveries)|] == old(deliveries)
      ensures Broadcast(deliveries[|old(deliveries)|..], eventHandlers, e)
    {
      ghost var log0 := deliveries;
      ghost var batch: seq<Delivery> := [];
      var pending := eventHandlers;
      while pending != {}
        invariant pending <= eventHandlers
        invariant deliveries == log0 + batch
        invariant Reached(batch) == eventHandlers - pending && NoRepeats(batch)
        invariant forall i | 0 <= i < |batch| :: batch[i].event == e
        invariant eventHandlers == old(eventHandlers) && searchResults == old(searchResults)
        invariant highlightedStation == old(highlightedStation) && published == old(published)
        decreases pending
      {
        var h := PickKey(pending);
        forall i | 0 <= i < |batch| ensures batch[i].handler != h {
          ReachedHasWitnessAt(batch, i);
        }
        deliveries := deliveries + [Delivery(h, e)];
        ghost var extended := batch + [Delivery(h, e)];
        assert extended[..|batch|] == batch;
        batch := extended;
        pending := pending - {h};
      }
      published := published + [e];
      assert deliveries[|log0|..] == batch;
    }

    /** `subscribeToModelEvents`: a null handler is rejected; a set holds each handler once. */
    method Subscribe(handler: Option<HandlerId>) returns (r: Outcome)
      modifies this
      ensures handler.None? <==> r == Err(NullPointer)
      ensures eventHandlers == if handler.Some? then old(eventHandlers) + {handler.value} else old(eventHandlers)
      ensures searchResults == old(searchResults) && highlightedStation == old(highlightedStation)
      ensures published == old(published) && deliveries == old(deliveries)
    {
      if handler.None? {
        return Err(NullPointer);
      }
      eventHandlers := eventHandlers + {handler.value};
      r := Ok;
    }

    /** `unsubscribeFromModelEvents`. */
    method Unsubscribe(handler: HandlerId)
      modifies this
      ensures eventHandlers == old(eventHandlers) - {handler}
      ensures searchResults == old(searchResults) && highlightedStation == old(highlightedStation)
      ensures published == old(published) && deliveries == old(deliveries)
    {
      eventHandlers := eventHandlers - {handler};
    }

    /**
     * `setStation`: forwarded, and STATION_CHANGED notified, only when no station is
     * current or the current one has another id; an unknown id fails with no event.
     */
    method SetStation(id: int) returns (r: Outcome)
      requires Valid()
      modifies this, model, model.playback
      ensures Valid() && eventHandlers == old(eventHandlers) && searchResults == old(searchResults)
      ensures highlightedStation == old(highlightedStation) && model.volume == old(model.volume)
      ensures old(model.currentStation) != null && old(model.currentStation).id == id ==>
                r == Ok && model.currentStation == old(model.currentStation)
                && model.playback.pipeline == old(model.playback.pipeline)
                && published == old(published) && deliveries == old(deliveries)
      ensures (old(model.currentStation) == null || old(model.currentStation).id != id) ==>
                && (r == Ok <==> id in model.stations.stations)
                && (r == Ok ==> model.currentStation == model.stations.stations[id] && published == old(published) + [STATION_CHANGED])
                && (r == Ok ==> model.playback.pipeline ==
                                Some(Pipeline(model.currentStation.uri, old(model.playback.pipeline).Some? && old(model.playback.pipeline).value.playing, model.volume)))
                && (r != Ok ==> model.currentStation == old(model.currentStation) && published == old(published) && deliveries == old(deliveries))
                && (r != Ok ==> model.playback.pipeline == old(model.playback.pipeline))
    {
      var current := model.currentStation;
      if current == null || current.id != id {
        r := model.SetStation(id);
        if r == Ok {
          NotifySubscribers(STATION_CHANGED);
        }
      } else {
        r := Ok;
      }
    }

    /**
     * `play`: asks the player whether it is playing, which fails before any station is
     * set; when it is not playing, plays and notifies PLAYBACK_STARTED.
     */
    method Play(now: Timestamp) returns (r: Outcome)
      requires Valid()
      modifies this, model.playback, model.currentStation
      ensures Valid() && model.currentStation == old(model.currentStation)
      ensures eventHandlers == old(eventHandlers) && searchResults == old(searchResults) && highlightedStation == old(highlightedStation)
      ensures old(model.currentStation) == null ==>
                && r == Err(NullPointer) && published == old(published) && deliveries == old(deliveries)
                && model.playback.pipeline == old(model.playback.pipeline) && model.Catalog() == old(model.Catalog())
      ensures old(model.currentStation) != null && old(model.playback.pipeline).value.playing ==>
                && r == Ok && published == old(published) && deliveries == old(deliveries)
                && model.playback.pipeline == old(model.playback.pipeline)
                && model.currentStation.Value() == old(model.currentStation.Value()) && model.Catalog() == old(model.Catalog())
      ensures old(model.currentStation) != null && !old(model.playback.pipeline).value.playing ==>
                && r == Ok && published == old(published) + [PLAYBACK_STARTED]
                && model.playback.pipeline == Some(old(model.playback.pipeline).value.(playing := true))
                && model.currentStation.Value() == Played(old(model.currentStation.Value()), now)
                && model.Catalog() == if model.CurrentIsStored()
                                      then old(model.Catalog())[model.currentStation.id := Played(old(model.Catalog())[model.currentStation.id], now)]
                                      else old(model.Catalog())
    {
      var playing := model.IsPlaying();
      if playing.Fail? {
        return Err(playing.failure);
      }
      if !playing.value {
        model.Play(now);
        NotifySubscribers(PLAYBACK_STARTED);
      }
      r := Ok;
    }

    /** `stop`: like `play`, but stops and notifies PLAYBACK_STOPPED only when playing. */
    method Stop() returns (r: Outcome)
      requires Valid()
      modifies this, model.playback
      ensures Valid() && eventHandlers == old(eventHandlers) && searchResults == old(searchResults) && highlightedStation == old(highlightedStation)
      ensures old(model.currentStation) == null ==>
                r == Err(NullPointer) && published == old(published) && deliveries == old(deliveries)
                && model.playback.pipeline == old(model.playback.pipeline)
      ensures old(model.currentStation) != null && !old(model.playback.pipeline).value.playing ==>
                r == Ok && published == old(published) && deliveries == old(deliveries)
                && model.playback.pipeline == old(model.playback.pipeline)
      ensures old(model.currentStation) != null && old(model.playback.pipeline).value.playing ==>
                && r == Ok && published == old(published) + [PLAYBACK_STOPPED]
                && model.playback.pipeline == Some(old(model.playback.pipeline).value.(playing := false))
    {
      var playing := model.IsPlaying();
      if playing.Fail? {
        return Err(playing.failure);
      }
      if playing.value {
        model.Stop();
        NotifySubscribers(PLAYBACK_STOPPED);
      }
      r := Ok;
    }

    /** `setVolume`: VOLUME_CHANGED only after the player accepted the level. */
    method SetVolume(level: int) returns (r: Outcome)
      requires Valid()
      modifies this, model, model.playback
      ensures Valid() && eventHandlers == old(eventHandlers) && searchResults == old(searchResults)
      ensures highlightedStation == old(highlightedStation) && model.currentStation == old(model.currentStation)
      ensures !InVolumeRange(level) ==>
                && r == Err(IllegalArgument) && published == old(published) && deliveries == old(deliveries)
                && model.volume == old(model.volume) && model.playback.pipeline == old(model.playback.pipeline)
      ensures InVolumeRange(level) ==>
                && r == Ok && published == old(published) + [VOLUME_CHANGED] && model.GetVolume() == level
                && model.playback.pipeline.Some? == old(model.playback.pipeline).Some?
                && (old(model.playback.pipeline).Some? ==> model.playback.pipeline == Some(old(model.playback.pipeline).value.(volume := level)))
    {
      r := model.SetVolume(level);
      if r == Ok {
        NotifySubscribers(VOLUME_CHANGED);
      }
    }

    /** `addStation`: STATION_ADDED only after the player accepted both arguments. */
    method AddStation(name: Option<string>, uri: Option<string>) returns (r: Result<int>)
      requires Valid()
      modifies this, model.stations
      ensures Valid() && eventHandlers == old(eventHandlers) && searchResults == old(searchResults) && highlightedStation == old(highlightedStation)
      ensures (name.None? || uri.None?) ==>
                && r == Fail(NullPointer) && published == old(published) && deliveries == old(deliveries)
                && model.stations.stations == old(model.stations.stations)
      ensures name.Some? && uri.Some? ==>
                && r == Success(old(model.stations.currentId)) && published == old(published) + [STATION_ADDED]
                && r.value in model.stations.stations
                && model.stations.stations == old(model.stations.stations)[r.value := model.stations.stations[r.value]]
                && (old(model.stations.CounterAhead()) ==> model.stations.CounterAhead() && r.value !in old(model.stations.stations))
                && model.Catalog() == old(model.Catalog())[r.value := NewStation(r.value, name.value, uri.value)]
    {
      r := model.AddStation(name, uri);
      if r.Success? {
        NotifySubscribers(STATION_ADDED);
      }
    }

    /**
     * `removeStation`: when the id was stored, it is also pruned from the cached search
     * and STATION_REMOVED is notified; otherwise neither happens.
     */
    method RemoveStation(id: int) returns (removed: bool)
      requires Valid()
      modifies this, model.stations
      ensures Valid() && eventHandlers == old(eventHandlers)
      ensures highlightedStation == old(highlightedStation)
      ensures removed == (id in old(model.stations.stations))
      ensures model.stations.stations == old(model.stations.stations) - {id}
      ensures removed ==> searchResults == Prune(old(searchResults), id) && published == old(published) + [STATION_REMOVED]
      ensures !removed ==> searchResults == old(searchResults) && published == old(published) && deliveries == old(deliveries)
    {
      removed := model.RemoveStation(id);
      if removed {
        searchResults := Prune(searchResults, id);
        NotifySubscribers(STATION_REMOVED);
      }
    }

    /** `setStationFavouriteStatus`: always notifies STATION_EDITED. */
    method SetStationFavouriteStatus(id: int, status: bool)
      requires Valid()
      modifies this, model.stations.stations.Values
      ensures Valid() && eventHandlers == old(eventHandlers) && searchResults == old(searchResults) && highlightedStation == old(highlightedStation)
      ensures published == old(published) + [STATION_EDITED]
      ensures model.Catalog() == if id in old(model.Catalog())
                                 then old(model.Catalog())[id := Favourited(old(model.Catalog())[id], status)]
                                 else old(model.Catalog())
    {
      model.SetStationFavouriteStatus(id, status);
      NotifySubscribers(STATION_EDITED);
    }

    /**
     * `findStation`: the results replace the cached search and SEARCH_RESULTS_READY is
     * notified; a null term fails before either.
     */
    method FindStation(searchTerm: Option<string>) returns (r: Result<seq<RadioStation>>)
      requires Valid()
      modifies this
      ensures eventHandlers == old(eventHandlers) && highlightedStation == old(highlightedStation)
      ensures searchTerm.None? ==>
                r == Fail(NullPointer) && searchResults == old(searchResults) && published == old(published) && deliveries == old(deliveries)
      ensures searchTerm.Some? ==>
                && r == Success(searchResults) && GetSearchResults() == r.value
                && SearchResult(model.stations.stations, searchResults, ToLower(searchTerm.value))
                && published == old(published) + [SEARCH_RESULTS_READY]
    {
      r := model.FindStation(searchTerm);
      if r.Success? {
        searchResults := r.value;
        NotifySubscribers(SEARCH_RESULTS_READY);
      }
    }

    /** `getSearchResults`: the cached search. */
    function GetSearchResults(): (results: seq<RadioStation>)
      reads this
      ensures results == searchResults
    {
      searchResults
    }

    /** `setHighlightedStation`: the lookup, null for an unknown id; notifies STATION_HIGHLIGHTED. */
    method SetHighlightedStation(id: int)
      requires Valid()
      modifies this
      ensures eventHandlers == old(eventHandlers) && searchResults == old(searchResults)
      ensures (highlightedStation != null) == (id in model.stations.stations)
      ensures highlightedStation != null ==> highlightedStation == model.stations.stations[id]
      ensures published == old(published) + [STATION_HIGHLIGHTED]
    {
      highlightedStation := model.GetStation(id);
      NotifySubscribers(STATION_HIGHLIGHTED);
    }

    /** `clearHighlightedStation`: also notifies STATION_HIGHLIGHTED. */
    method ClearHighlightedStation()
      modifies this
      ensures highlightedStation == null
      ensures eventHandlers == old(eventHandlers) && searchResults == old(searchResults)
      ensures published == old(published) + [STATION_HIGHLIGHTED]
    {
      highlightedStation := null;
      NotifySubscribers(STATION_HIGHLIGHTED);
    }

    /** `requestNextHighlightedStation`: only an event; the state is the listeners'. */
    method RequestNextHighlightedStation()
      modifies this
      ensures highlightedStation == old(highlightedStation)
      ensures eventHandlers == old(eventHandlers) && searchResults == old(searchResults)
      ensures published == old(published) + [NEXT_HIGHLIGHTED_STATION_REQUESTED]
    {
      NotifySubscribers(NEXT_HIGHLIGHTED_STATION_REQUESTED);
    }

    /** `requestPreviousHighlightedStation`. */
    method RequestPreviousHighlightedStation()
      modifies this
      ensures highlightedStation == old(highlightedStation)
      ensures eventHandlers == old(eventHandlers) && searchResults == old(searchResults)
      ensures published == old(published) + [PREVIOUS_HIGHLIGHTED_STATION_REQUESTED]
    {
      NotifySubscribers(PREVIOUS_HIGHLIGHTED_STATION_REQUESTED);
    }

    /** `getHighlightedStation`. */
    function GetHighlightedStation(): (s: RadioStation?)
      reads this
      ensures s == highlightedStation
    {
      highlightedStation
    }

    /** `shutdown`: the player stops playback and stores the stations, then SHUTDOWN is notified. */
    method Shutdown() returns (rows: seq<OpenCSVEntry>)
      requires Valid()
      modifies this, model.playback
      ensures Valid() && published == old(published) + [SHUTDOWN]
      ensures eventHandlers == old(eventHandlers) && searchResults == old(searchResults) && highlightedStation == old(highlightedStation)
      ensures old(model.currentStation) != null ==> model.playback.pipeline == Some(old(model.playback.pipeline).value.(playing := false))
      ensures |rows| == |model.stations.stations|
      ensures forall k | k in model.stations.stations :: Loader.ToEntry(model.stations.stations[k].Value()) in rows
    {
      rows := model.Shutdown();
      NotifySubscribers(SHUTDOWN);
    }
  }

  lemma {:induction false} ReachedHasWitnessAt(batch: seq<Delivery>, i: int)
    requires 0 <= i < |batch|
    ensures batch[i].handler in Reached(batch)
  {
    if i < |batch| - 1 {
      ReachedHasWitnessAt(batch[..|batch| - 1], i);
    }
  }
}
