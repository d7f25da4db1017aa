/**
 * The station catalog (`StationManager`): stations keyed by id, an id counter that
 * starts at 0 and only increments, removal, field setters by id, and search.
 */
module Catalog {
  import opened Wrappers
  import opened Text
  import opened Stations
  import opened CsvEntries
  import Loader

  /** `mapIDToStation` as a value: stations are put in list order, so a later station replaces an earlier one with the same id. */
  function IdMap(list: seq<RadioStation>): (m: map<int, RadioStation>)
    ensures forall k | k in m :: m[k].id == k && m[k] in list
    ensures forall s | s in list :: s.id in m
  {
    if list == [] then map[]
    else IdMap(list[..|list| - 1])[list[|list| - 1].id := list[|list| - 1]]
  }

  /** The station stored under an id is the last one in the list carrying that id. */
  lemma {:induction false} IdMapKeepsLast(list: seq<RadioStation>, i: int)
    requires 0 <= i < |list|
    requires forall j | i < j < |list| :: list[j].id != list[i].id
    ensures IdMap(list)[list[i].id] == list[i]
  {
    if i < |list| - 1 {
      IdMapKeepsLast(list[..|list| - 1], i);
    }
  }

  /** Search over name or URI, after lower-casing both sides. */
  predicate Matches(s: RadioStation, lowerTerm: string) {
    Contains(ToLower(s.uri), lowerTerm) || Contains(ToLower(s.name), lowerTerm)
  }

  /** The empty search term matches every station. */
  lemma EmptyTermMatchesAll(s: RadioStation)
    ensures Matches(s, ToLower(""))
  {
    ContainsEmpty(ToLower(s.uri));
  }

  /**
   * Search ignores ASCII case: a station matches a term exactly when the term occurs in
   * its URI or its name, whatever the case of either.
   */
  lemma SearchIgnoresCase(s: RadioStation, t: string)
    ensures Matches(s, ToLower(t)) <==>
              (exists i :: OccursIgnoringCaseAt(s.uri, t, i)) || (exists i :: OccursIgnoringCaseAt(s.name, t, i))
  {
    ContainsIgnoringCase(s.uri, t);
    ContainsIgnoringCase(s.name, t);
  }

  /** `all` lists every station of `m` exactly once, and nothing else. */
  predicate ListsAll(m: map<int, RadioStation>, all: seq<RadioStation>) {
    && |all| == |m|
    && (forall k | k in m :: m[k] in all)
    && (forall i | 0 <= i < |all| :: all[i].id in m && m[all[i].id] == all[i])
    && (forall i, j | 0 <= i < j < |all| :: all[i].id != all[j].id)
  }

  /**
   * `results` holds exactly the stations of `m` that match `lowerTerm`, each once.
   */
  predicate SearchResult(m: map<int, RadioStation>, results: seq<RadioStation>, lowerTerm: string) {
    && (forall k | k in m :: m[k] in results <==> Matches(m[k], lowerTerm))
    && (forall i | 0 <= i < |results| :: results[i].id in m && m[results[i].id] == results[i] && Matches(results[i], lowerTerm))
    && (forall i, j | 0 <= i < j < |results| :: results[i].id != results[j].id)
  }

  /** One more than the largest id of `list`, and never below the first id. */
  function NextFreeId(list: seq<RadioStation>): (n: int)
    ensures n >= FIRST_ID
    ensures forall i | 0 <= i < |list| :: list[i].id < n
    ensures n == FIRST_ID || exists i | 0 <= i < |list| :: list[i].id == n - 1
  {
    if list == [] then FIRST_ID
    else
      var prev := NextFreeId(list[..|list| - 1]);
      if list[|list| - 1].id >= prev then list[|list| - 1].id + 1 else prev
  }

  /** Some element of a non-empty set: the next key of an iteration in unspecified order. */
  method PickKey<K>(keys: set<K>) returns (k: K)
    requires keys != {}
    ensures k in keys
  {
    if forall x :: x !in keys { assert false; }
    k :| k in keys;
  }

  class StationManager {
    var stations: map<int, RadioStation>
    var currentId: int

    /** Every station is stored under its own id, and the counter has only moved up from 0. */
    ghost predicate Valid()
      reads this
    {
      (forall k | k in stations :: stations[k].id == k) && currentId >= FIRST_ID
    }

    /** The catalog's value: each id with the current field values of its station. */
    ghost function Catalog(): map<int, StationValue>
      reads this, stations.Values
    {
      map k | k in stations :: stations[k].Value()
    }

    /** Every stored id is below the counter, so the next id handed out is unused. */
    predicate CounterAhead()
      reads this
    {
      forall k | k in stations :: k < currentId
    }

    /** Builds the catalog from the loaded stations; the counter starts at 0 whatever was loaded. */
    constructor (loaded: seq<RadioStation>)
      ensures Valid()
      ensures stations == IdMap(loaded) && currentId == FIRST_ID
    {
      var m := MapIdToStation(loaded);
      stations := m;
      currentId := FIRST_ID;
    }

    /**
     * The catalog with its counter seeded just above the largest loaded id, so that no
     * loaded station is ever replaced by a new one.
     */
    constructor Seeded(loaded: seq<RadioStation>)
      ensures Valid() && CounterAhead()
      ensures stations == IdMap(loaded) && currentId == NextFreeId(loaded)
    {
      var m := MapIdToStation(loaded);
      stations := m;
      currentId := NextFreeId(loaded);
    }

    static method MapIdToStation(list: seq<RadioStation>) returns (m: map<int, RadioStation>)
      ensures m == IdMap(list)
    {
      m := map[];
      var i := 0;
      while i < |list|
        invariant 0 <= i <= |list|
        invariant m == IdMap(list[..i])
      {
        assert list[..i + 1][..i] == list[..i];
        m := m[list[i].id := list[i]];
        i := i + 1;
      }
      assert list[..i] == list;
    }

    /** `getStation(id)`: the station stored under `id`, or null. */
    function GetStation(id: int): (s: RadioStation?)
      requires Valid()
      reads this
      ensures s != null <==> id in stations
      ensures s != null ==> s == stations[id] && s.id == id
    {
      if id in stations then stations[id] else null
    }

    /** `getAllStations()`: every stored station exactly once, in unspecified order. */
    method GetAllStations() returns (all: seq<RadioStation>)
      requires Valid()
      ensures ListsAll(stations, all)
    {
      all := [];
      var remaining := stations.Keys;
      while remaining != {}
        invariant remaining <= stations.Keys
        invariant |all| + |remaining| == |stations.Keys|
        invariant forall k | k in stations && k !in remaining :: stations[k] in all
        invariant forall i | 0 <= i < |all| :: all[i].id in stations && all[i].id !in remaining && stations[all[i].id] == all[i]
        invariant forall i, j | 0 <= i < j < |all| :: all[i].id != all[j].id
        decreases remaining
      {
        var k := PickKey(remaining);
        all := all + [stations[k]];
        remaining := remaining - {k};
      }
    }

    /**
     * `addStation`: stores a new station under the counter's value, returns that id and
     * increments the counter. The source only asserts that the id is unused: when it is
     * not, the `put` replaces the station stored under it. When every stored id is below
     * the counter, the new id was unused and stays below the counter.
     */
    method AddStation(name: string, uri: string) returns (id: int)
      requires Valid()
      modifies this
      ensures Valid()
      ensures id == old(currentId) && currentId == old(currentId) + 1
      ensures id in stations && fresh(stations[id])
      ensures stations == old(stations)[id := stations[id]]
      ensures Catalog() == old(Catalog())[id := NewStation(id, name, uri)]
      ensures old(CounterAhead()) ==> CounterAhead() && id !in old(stations)
    {
      var s := new RadioStation(currentId, name, uri);
      stations := stations[currentId := s];
      id := currentId;
      currentId := currentId + 1;
    }

    /** `removeStation`: true exactly when the id was present; the id is absent afterwards. */
    method RemoveStation(id: int) returns (removed: bool)
      requires Valid()
      modifies this
      ensures Valid()
      ensures removed == (id in old(stations))
      ensures stations == old(stations) - {id} && currentId == old(currentId)
      ensures Catalog() == old(Catalog()) - {id}
    {
      removed := id in stations;
      stations := stations - {id};
    }

    /** When only the station under `id` was modified, the catalog changed at most at `id`. */
    twostate lemma OnlyOneStationChanged(id: int)
      requires old(Valid()) && Valid() && stations == old(stations) && id in stations
      requires forall k | k in stations && k != id :: unchanged(stations[k])
      ensures Catalog() == old(Catalog())[id := stations[id].Value()]
    {
      forall k | k in stations
        ensures Catalog()[k] == old(Catalog())[id := stations[id].Value()][k]
      {
        if k != id {
          assert stations[k].Value() == old(stations[k].Value());
        }
      }
    }

    /** When no stored station was modified, the catalog is unchanged. */
    twostate lemma NoStationChanged()
      requires stations == old(stations)
      requires forall k | k in stations :: unchanged(stations[k])
      ensures Catalog() == old(Catalog())
    {
      forall k | k in stations
        ensures Catalog()[k] == old(Catalog())[k]
      {
        assert stations[k].Value() == old(stations[k].Value());
      }
    }

    /** `setFavourite`: a missing id changes nothing; otherwise only that station's flag changes. */
    method SetFavourite(id: int, status: bool)
      requires Valid()
      modifies stations.Values
      ensures Valid() && stations == old(stations) && currentId == old(currentId)
      ensures Catalog() == if id in old(Catalog())
                           then old(Catalog())[id := Favourited(old(Catalog())[id], status)]
                           else old(Catalog())
    {
      var s := GetStation(id);
      if s != null {
        s.SetFavourite(status);
        OnlyOneStationChanged(id);
      }
    }

    /** Per-id genre setter (declared by `MutableStation`, called by the player). */
    method SetGenre(id: int, genre: string)
      requires Valid()
      modifies stations.Values
      ensures Valid() && stations == old(stations) && currentId == old(currentId)
      ensures Catalog() == if id in old(Catalog())
                           then old(Catalog())[id := WithGenre(old(Catalog())[id], genre)]
                           else old(Catalog())
    {
      var s := GetStation(id);
      if s != null {
        s.SetGenre(genre);
        OnlyOneStationChanged(id);
      }
    }

    /** Per-id bitrate setter (declared by `MutableStation`, called by the player). */
    method SetBitrate(id: int, bitrate: int)
      requires Valid()
      modifies stations.Values
      ensures Valid() && stations == old(stations) && currentId == old(currentId)
      ensures Catalog() == if id in old(Catalog())
                           then old(Catalog())[id := WithBitrate(old(Catalog())[id], bitrate)]
                           else old(Catalog())
    {
      var s := GetStation(id);
      if s != null {
        s.SetBitrate(bitrate);
        OnlyOneStationChanged(id);
      }
    }

    /**
     * `findStation`: exactly the stations whose lower-cased URI or name contains the
     * lower-cased term, each once, in unspecified order.
     */
    method FindStation(searchTerm: string) returns (results: seq<RadioStation>)
      requires Valid()
      ensures SearchResult(stations, results, ToLower(searchTerm))
    {
      var term := ToLower(searchTerm);
      results := [];
      var remaining := stations.Keys;
      while remaining != {}
        invariant remaining <= stations.Keys
        invariant forall k | k in stations && k !in remaining :: Matches(stations[k], term) ==> stations[k] in results
        invariant forall i | 0 <= i < |results| :: results[i].id in stations && results[i].id !in remaining
                                                 && stations[results[i].id] == results[i] && Matches(results[i], term)
        invariant forall i, j | 0 <= i < j < |results| :: results[i].id != results[j].id
        decreases remaining
      {
        var k := PickKey(remaining);
        var s := stations[k];
        var found := false;
        if Contains(ToLower(s.uri), term) {
          found := true;
        }
        if Contains(ToLower(s.name), term) {
          found := true;
        }
        if found {
          results := results + [s];
        }
        remaining := remaining - {k};
      }
    }

    /** Final persist: the rows that storing every station would write, one per station. */
    method Shutdown() returns (rows: seq<OpenCSVEntry>)
      requires Valid()
      ensures |rows| == |stations|
      ensures forall k | k in stations :: Loader.ToEntry(stations[k].Value()) in rows
    {
      var all := GetAllStations();
      rows := Loader.StoreStations(all);
      forall k | k in stations
        ensures Loader.ToEntry(stations[k].Value()) in rows
      {
        var i :| 0 <= i < |all| && all[i] == stations[k];
        assert rows[i] == Loader.ToEntry(stations[k].Value());
      }
    }
  }

  /**
   * As written, the first station added to a fresh catalog gets id 0, which the station
   * constructor's `id > 0` assertion rejects; `id >= 0` accepts it.
   */
  method AssertionAsWrittenRejectsFirstId(name: string, uri: string) returns (id: int)
    ensures !ConstructorAssertionAsWritten(id) && ValidId(id)
  {
    var m := new StationManager([]);
    id := m.AddStation(name, uri);
  }

  /**
   * As written, the counter restarts at 0 on every launch: after reloading a saved
   * station with id 0, the first `addStation` replaces it.
   */
  method ReloadedFirstAddOverwrites(saved: RadioStation, name: string, uri: string) returns (m: StationManager, id: int)
    requires saved.id == FIRST_ID
    ensures id == saved.id && id in m.stations
    ensures forall k | k in m.stations :: m.stations[k] != saved
  {
    m := new StationManager([saved]);
    assert [saved][..0] == [];
    id := m.AddStation(name, uri);
  }

  /** With the counter seeded past the loaded ids, the first `addStation` keeps every loaded station. */
  method ReloadedFirstAddKeepsSaved(saved: seq<RadioStation>, name: string, uri: string) returns (m: StationManager, id: int)
    ensures id in m.stations && forall i | 0 <= i < |saved| :: id != saved[i].id && saved[i].id in m.stations
    ensures m.stations == IdMap(saved)[id := m.stations[id]]
  {
    m := new StationManager.Seeded(saved);
    id := m.AddStation(name, uri);
  }
}
