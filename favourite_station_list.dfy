/**
 * The favourites list: the stations marked favourite, in catalog order.
 * `FavouriteStationListController.getStationsToDisplay` and the station explorer's
 * `getFavouriteStations` run the same loop; both use `GetStationsToDisplay`.
 */
module FavouriteList {
  import opened Stations

  /** The favourite stations of `all`, in order. */
  function Favourites(all: seq<StationValue>): (favs: seq<StationValue>)
    ensures |favs| <= |all|
  {
    if all == [] then []
    else if all[|all| - 1].favourite then Favourites(all[..|all| - 1]) + [all[|all| - 1]]
    else Favourites(all[..|all| - 1])
  }

  /** `idx` lists, in increasing order, the positions of `all` that make up `favs`. */
  predicate Embeds(favs: seq<StationValue>, all: seq<StationValue>, idx: seq<int>) {
    && |idx| == |favs|
    && (forall k | 0 <= k < |idx| :: 0 <= idx[k] < |all| && all[idx[k]] == favs[k])
    && (forall k, l | 0 <= k < l < |idx| :: idx[k] < idx[l])
  }

  /** `favs` is `all` with some elements left out, order kept. */
  ghost predicate IsSubsequence(favs: seq<StationValue>, all: seq<StationValue>) {
    exists idx: seq<int> :: Embeds(favs, all, idx)
  }

  /** Exactly the favourites are kept: every one returned is a favourite of `all`, and every favourite of `all` is returned. */
  lemma {:induction false} FavouritesExactly(all: seq<StationValue>)
    ensures forall s :: s in Favourites(all) <==> s in all && s.favourite
  {
    if all != [] {
      FavouritesExactly(all[..|all| - 1]);
      assert all == all[..|all| - 1] + [all[|all| - 1]];
    }
  }

  /** Catalog order is preserved: the favourites are a subsequence of `all`. */
  lemma FavouritesKeepOrder(all: seq<StationValue>)
    ensures IsSubsequence(Favourites(all), all)
  {
    var idx := FavouritePositions(all);
  }

  /** The positions of the favourites, as a witness of the embedding. */
  lemma {:induction false} FavouritePositions(all: seq<StationValue>) returns (idx: seq<int>)
    ensures Embeds(Favourites(all), all, idx)
  {
    if all == [] {
      idx := [];
    } else {
      var front := all[..|all| - 1];
      var prev := FavouritePositions(front);
      if all[|all| - 1].favourite {
        idx := prev + [|all| - 1];
        ExtendEmbedding(Favourites(front), front, prev, all);
      } else {
        idx := prev;
        KeepEmbedding(Favourites(front), front, prev, all);
      }
    }
  }

  lemma ExtendEmbedding(favs: seq<StationValue>, front: seq<StationValue>, idx: seq<int>, all: seq<StationValue>)
    requires all != [] && front == all[..|all| - 1] && Embeds(favs, front, idx)
    ensures Embeds(favs + [all[|all| - 1]], all, idx + [|all| - 1])
  {
  }

  lemma KeepEmbedding(favs: seq<StationValue>, front: seq<StationValue>, idx: seq<int>, all: seq<StationValue>)
    requires all != [] && front == all[..|all| - 1] && Embeds(favs, front, idx)
    ensures Embeds(favs, all, idx)
  {
  }

  /** `getStationsToDisplay`: one pass over the catalog, appending each favourite. */
  method GetStationsToDisplay(all: seq<StationValue>) returns (favourites: seq<StationValue>)
    ensures favourites == Favourites(all)
  {
    favourites := [];
    var i := 0;
    while i < |all|
      invariant 0 <= i <= |all| && favourites == Favourites(all[..i])
    {
      assert all[..i + 1][..i] == all[..i];
      if all[i].favourite {
        favourites := favourites + [all[i]];
      }
      i := i + 1;
    }
    assert all[..i] == all;
  }
}
