/**
 * The station explorer: four tables of station rows (all stations, favourites, the ten
 * most played, the last search) in tabs, and the keyboard-driven highlight that moves
 * the selection of the shown table one row up or down.
 */
module Explorer {
  import opened Wrappers
  import opened Decimal
  import opened Stations
  import opened Rows
  import opened FavouriteList
  import opened Adapter

  /** Non-increasing play counts. */
  predicate SortedByPlays(s: seq<StationValue>) {
    forall i, j | 0 <= i < j < |s| :: s[i].playCount >= s[j].playCount
  }

  /** Inserts `x` after every station played at least as often: ties keep their order. */
  function Insert(x: StationValue, sorted: seq<StationValue>): (r: seq<StationValue>)
    ensures |r| == |sorted| + 1
  {
    if sorted == [] then [x]
    else if sorted[0].playCount >= x.playCount then [sorted[0]] + Insert(x, sorted[1..])
    else [x] + sorted
  }

  /** A stable sort by descending play count, as `sorted(comparingInt(getPlayCount).reversed())`. */
  function SortByPlays(s: seq<StationValue>): (r: seq<StationValue>)
    ensures |r| == |s|
  {
    if s == [] then [] else Insert(s[|s| - 1], SortByPlays(s[..|s| - 1]))
  }

  lemma {:induction false} InsertPermutes(x: StationValue, sorted: seq<StationValue>)
    ensures multiset(Insert(x, sorted)) == multiset(sorted) + multiset{x}
  {
    if sorted != [] && sorted[0].playCount >= x.playCount {
      InsertPermutes(x, sorted[1..]);
      assert sorted == [sorted[0]] + sorted[1..];
    }
  }

  lemma {:induction false} InsertKeepsSorted(x: StationValue, sorted: seq<StationValue>)
    requires SortedByPlays(sorted)
    ensures SortedByPlays(Insert(x, sorted))
  {
    if sorted == [] {
    } else if sorted[0].playCount >= x.playCount {
      var rest := Insert(x, sorted[1..]);
      InsertKeepsSorted(x, sorted[1..]);
      InsertPermutes(x, sorted[1..]);
      forall j | 0 <= j < |rest| ensures sorted[0].playCount >= rest[j].playCount {
        assert rest[j] in multiset(rest);
        assert rest[j] == x || rest[j] in sorted[1..];
      }
      PrependKeepsSorted(sorted[0], rest);
    } else {
      assert sorted == [sorted[0]] + sorted[1..];
      PrependKeepsSorted(x, sorted);
    }
  }

  lemma PrependKeepsSorted(a: StationValue, rest: seq<StationValue>)
    requires SortedByPlays(rest) && forall j | 0 <= j < |rest| :: a.playCount >= rest[j].playCount
    ensures SortedByPlays([a] + rest)
  {
    var s := [a] + rest;
    forall i, j | 0 <= i < j < |s| ensures s[i].playCount >= s[j].playCount {
      assert s[j] == rest[j - 1];
      if i > 0 {
        assert s[i] == rest[i - 1];
      }
    }
  }

  /** The sort is a permutation of its input, in non-increasing play count. */
  lemma {:induction false} SortByPlaysCorrect(s: seq<StationValue>)
    ensures SortedByPlays(SortByPlays(s)) && multiset(SortByPlays(s)) == multiset(s)
  {
    if s != [] {
      SortByPlaysCorrect(s[..|s| - 1]);
      InsertKeepsSorted(s[|s| - 1], SortByPlays(s[..|s| - 1]));
      InsertPermutes(s[|s| - 1], SortByPlays(s[..|s| - 1]));
      assert s == s[..|s| - 1] + [s[|s| - 1]];
    }
  }

  /** `getMostPlayedStations(topN)`: sort, then `limit(topN)`, which rejects a negative bound. */
  function MostPlayed(all: seq<StationValue>, topN: int): (r: Result<seq<StationValue>>)
    ensures r.Fail? <==> topN < 0
  {
    if topN < 0 then Fail(IllegalArgument)
    else
      var sorted := SortByPlays(all);
      Success(if topN < |sorted| then sorted[..topN] else sorted)
  }

  /**
   * The top `topN`: min(topN, |all|) catalog stations, most played first, and none of
   * the stations left out was played more often than any station kept.
   */
  lemma MostPlayedIsTop(all: seq<StationValue>, topN: int)
    requires topN >= 0
    ensures var top := MostPlayed(all, topN).value;
      && |top| == (if topN < |all| then topN else |all|)
      && SortedByPlays(top)
      && multiset(top) <= multiset(all)
      && (topN >= |all| ==> multiset(top) == multiset(all))
      && forall i, t | 0 <= i < |top| && t in multiset(all) - multiset(top) :: t.playCount <= top[i].playCount
  {
    var sorted := SortByPlays(all);
    SortByPlaysCorrect(all);
    assert |sorted| == |all| by {
      assert |multiset(sorted)| == |multiset(all)|;
    }
    var n := if topN < |sorted| then topN else |sorted|;
    PrefixIsTop(sorted, n);
  }

  /** In a sorted sequence, nothing after the first `n` was played more than anything before. */
  lemma PrefixIsTop(sorted: seq<StationValue>, n: int)
    requires SortedByPlays(sorted) && 0 <= n <= |sorted|
    ensures multiset(sorted[..n]) <= multiset(sorted)
    ensures forall i, t | 0 <= i < n && t in multiset(sorted) - multiset(sorted[..n]) :: t.playCount <= sorted[i].playCount
  {
    assert sorted == sorted[..n] + sorted[n..];
    assert multiset(sorted) == multiset(sorted[..n]) + multiset(sorted[n..]);
    forall i, t | 0 <= i < n && t in multiset(sorted) - multiset(sorted[..n]) ensures t.playCount <= sorted[i].playCount {
      assert t in multiset(sorted[n..]);
      var j :| 0 <= j < |sorted[n..]| && sorted[n..][j] == t;
      assert sorted[n + j] == t;
    }
  }

  /** The row for each station, in order. */
  function RowsOf(stations: seq<StationValue>): (rows: seq<StationData>)
    ensures |rows| == |stations|
  {
    seq(|stations|, i requires 0 <= i < |stations| => ToRow(stations[i]))
  }

  /** `stationToStationData`: one row per station, in order, with the station's fields. */
  method StationToStationData(stations: seq<StationValue>) returns (rows: seq<StationData>)
    ensures rows == RowsOf(stations)
    ensures forall i | 0 <= i < |rows| :: rows[i] == ToRow(stations[i])
  {
    rows := [];
    var i := 0;
    while i < |stations|
      invariant 0 <= i <= |stations| && |rows| == i
      invariant forall k | 0 <= k < i :: rows[k] == ToRow(stations[k])
    {
      rows := rows + [ToRow(stations[i])];
      i := i + 1;
    }
  }

  /** `getRowSelected`: the row when exactly one cell is selected, else -1. */
  function GetRowSelected(selectedCells: seq<int>): (row: int)
    ensures row == -1 || row in selectedCells
    ensures |selectedCells| == 1 ==> row == selectedCells[0]
    ensures selectedCells == [] ==> row == -1
  {
    if |selectedCells| == 1 then selectedCells[0] else -1
  }

  /** The row `highlightNextStation` moves to, if any: the next one; none from the last row. */
  function NextRow(row: int, size: nat): (next: Option<nat>)
    requires -1 <= row < size
    ensures next.Some? ==> next.value < size
    ensures next.None? <==> row == size - 1
  {
    if row < size - 1 then Some(row + 1) else None
  }

  /** The row `highlightPreviousStation` moves to: the one before, wrapping from the first (or none) to the last. */
  function PreviousRow(row: int, size: nat): (prev: int)
    requires -1 <= row < size
    ensures -1 <= prev < size
    ensures size > 0 ==> 0 <= prev
  {
    if row > 0 then row - 1 else size - 1
  }

  /** Moving down and then up returns to the row; so does moving up from any row but the first, then down. */
  lemma NextPreviousInverse(row: int, size: nat)
    requires -1 <= row < size
    ensures 0 <= row < size - 1 ==> PreviousRow(NextRow(row, size).value, size) == row
    ensures 0 < row ==> NextRow(PreviousRow(row, size), size) == Some(row)
  {
  }

  /** With no row selected, moving down starts at the first row and moving up at the last. */
  lemma NoSelectionStartsAtEnds(size: nat)
    requires size > 0
    ensures NextRow(-1, size) == Some(0)
    ensures PreviousRow(-1, size) == size - 1 && PreviousRow(0, size) == size - 1
  {
  }

  /** The size of the most-played table. */
  const MOST_PLAYED_SHOWN: int := 10

  datatype Tab = AllStationsTab | FavouriteStationsTab | MostPlayedStationsTab | SearchResultTab

  /** A table's items and the rows of its selected cells. */
  datatype Table = Table(items: seq<StationData>, selectedCells: seq<int>)

  predicate WellSelected(t: Table) {
    forall k | 0 <= k < |t.selectedCells| :: 0 <= t.selectedCells[k] < |t.items|
  }

  /** The tables after `updateAllTableValues`, for the catalog `all` and the cached search `results`. */
  function Refreshed(all: seq<StationValue>, results: seq<StationValue>): (tables: seq<Table>)
    ensures |tables| == 4
  {
    [Table(RowsOf(all), []), Table(RowsOf(Favourites(all)), []),
     Table(RowsOf(MostPlayed(all, MOST_PLAYED_SHOWN).value), []), Table(RowsOf(results), [])]
  }

  /** A table after a highlight request, and the id, if any, handed to `setHighlightedStation`. */
  datatype Step = Step(table: Table, highlight: Result<Option<int>>)

  /** A highlight moves only the selection, to a single row of the table. */
  predicate MovesSelection(t: Table, s: Step) {
    && s.table.items == t.items && WellSelected(s.table)
    && (s.table == t || |s.table.selectedCells| == 1)
  }

  /** `highlightNextStation` on the shown table. */
  function StepNext(t: Table): (s: Step)
    requires WellSelected(t)
    ensures MovesSelection(t, s)
  {
    match NextRow(GetRowSelected(t.selectedCells), |t.items|)
    case None => Step(t, Success(None))
    case Some(next) => Step(t.(selectedCells := [next]), Lift(GetIdAsInt(t.items[next])))
  }

  /** `highlightPreviousStation` on the shown table; an empty table has no item to highlight. */
  function StepPrevious(t: Table): (s: Step)
    requires WellSelected(t)
    ensures MovesSelection(t, s)
    ensures s.highlight == Fail(NullPointer) <==> t.items == []
  {
    var prev := PreviousRow(GetRowSelected(t.selectedCells), |t.items|);
    if prev < 0 then Step(t, Fail(NullPointer))
    else Step(t.(selectedCells := [prev]), Lift(GetIdAsInt(t.items[prev])))
  }

  /** Highlighting the next and then the previous station returns to the selected row, and vice versa. */
  lemma HighlightNextPreviousInverse(t: Table, row: int)
    requires WellSelected(t) && t.selectedCells == [row]
    ensures row < |t.items| - 1 ==> StepPrevious(StepNext(t).table).table == t
    ensures 0 < row ==> StepNext(StepPrevious(t).table).table == t
  {
    assert t.selectedCells[0] == row;
    NextPreviousInverse(row, |t.items|);
  }

  /**
   * On a table of station rows, the id a highlight hands to `setHighlightedStation` is
   * the id of the station on the newly selected row.
   */
  lemma HighlightYieldsStationId(stations: seq<StationValue>, cells: seq<int>)
    requires forall i | 0 <= i < |stations| :: IsJavaInt(stations[i].id)
    requires WellSelected(Table(RowsOf(stations), cells))
    ensures var s := StepNext(Table(RowsOf(stations), cells));
      s.highlight.Success? && (s.highlight.value.Some? ==> s.highlight.value.value == stations[s.table.selectedCells[0]].id)
    ensures var s := StepPrevious(Table(RowsOf(stations), cells));
      stations != [] ==> s.highlight.Success? && s.highlight.value == Some(stations[s.table.selectedCells[0]].id)
  {
    var row := GetRowSelected(cells);
    var next := NextRow(row, |stations|);
    if next.Some? {
      ToRowKeepsId(stations[next.value], stations[next.value]);
    }
    var prev := PreviousRow(row, |stations|);
    if prev >= 0 {
      ToRowKeepsId(stations[prev], stations[prev]);
    }
  }

  /** The most-played table never shows more than ten stations. */
  lemma MostPlayedTableCapped(all: seq<StationValue>, results: seq<StationValue>)
    ensures |Refreshed(all, results)[2].items| <= MOST_PLAYED_SHOWN
    ensures |Refreshed(all, results)[2].items| <= |all|
  {
    MostPlayedIsTop(all, MOST_PLAYED_SHOWN);
  }

  class StationExplorerController {
    var allStationsTable: Table
    var favouriteStationsTable: Table
    var mostPlayedStationsTable: Table
    var searchResultStationsTable: Table
    var selectedTab: Tab

    /** Every selected cell is a row of its table. */
    predicate Valid()
      reads this
    {
      && WellSelected(allStationsTable) && WellSelected(favouriteStationsTable)
      && WellSelected(mostPlayedStationsTable) && WellSelected(searchResultStationsTable)
    }

    /** The tables, in tab order. */
    function Tables(): seq<Table>
      reads this
    {
      [allStationsTable, favouriteStationsTable, mostPlayedStationsTable, searchResultStationsTable]
    }

    /** The table of the selected tab (`tabIdToTable`). */
    function Shown(): (t: Table)
      reads this
      ensures Valid() ==> WellSelected(t)
    {
      TableOn(selectedTab)
    }

    /** `initialize`: every table filled and nothing selected; the first tab is shown. */
    constructor (all: seq<StationValue>, results: seq<StationValue>)
      ensures Valid() && Tables() == Refreshed(all, results) && selectedTab == AllStationsTab
    {
      selectedTab := AllStationsTab;
      new;
      UpdateAllTableValues(all, results);
    }

    /** `updateAllTableValues`: the four tables refilled; replacing the items clears their selections. */
    method UpdateAllTableValues(all: seq<StationValue>, results: seq<StationValue>)
      modifies this
      ensures Valid() && Tables() == Refreshed(all, results) && selectedTab == old(selectedTab)
    {
      var rows := StationToStationData(all);
      allStationsTable := Table(rows, []);
      var favourites := GetStationsToDisplay(all);
      rows := StationToStationData(favourites);
      favouriteStationsTable := Table(rows, []);
      var mostPlayed := MostPlayed(all, MOST_PLAYED_SHOWN);
      rows := StationToStationData(mostPlayed.value);
      mostPlayedStationsTable := Table(rows, []);
      rows := StationToStationData(results);
      searchResultStationsTable := Table(rows, []);
    }

    /** Selects `row` in the shown table (`getSelectionModel().select(row)`). */
    method SelectShownRow(row: int)
      requires Valid() && 0 <= row < |Shown().items|
      modifies this
      ensures Valid() && selectedTab == old(selectedTab)
      ensures Shown() == old(Shown()).(selectedCells := [row])
      ensures forall t | t != selectedTab :: old(TableOn(t)) == TableOn(t)
    {
      match selectedTab
      case AllStationsTab => allStationsTable := allStationsTable.(selectedCells := [row]);
      case FavouriteStationsTab => favouriteStationsTable := favouriteStationsTable.(selectedCells := [row]);
      case MostPlayedStationsTab => mostPlayedStationsTable := mostPlayedStationsTable.(selectedCells := [row]);
      case SearchResultTab => searchResultStationsTable := searchResultStationsTable.(selectedCells := [row]);
    }

    /** The table on tab `t`. */
    function TableOn(t: Tab): Table
      reads this
    {
      match t
      case AllStationsTab => allStationsTable
      case FavouriteStationsTab => favouriteStationsTable
      case MostPlayedStationsTab => mostPlayedStationsTable
      case SearchResultTab => searchResultStationsTable
    }

    /**
     * `highlightNextStation`: unless the last row is selected, selects the next row (the
     * first when none is) and yields its id for `setHighlightedStation`.
     */
    method HighlightNextStation() returns (highlight: Result<Option<int>>)
      requires Valid()
      modifies this
      ensures Valid() && selectedTab == old(selectedTab)
      ensures forall t | t != selectedTab :: old(TableOn(t)) == TableOn(t)
      ensures Step(Shown(), highlight) == StepNext(old(Shown()))
    {
      var table := Shown();
      var row := GetRowSelected(table.selectedCells);
      if row < |table.items| - 1 {
        SelectShownRow(row + 1);
        highlight := Lift(GetIdAsInt(table.items[row + 1]));
      } else {
        highlight := Success(None);
      }
    }

    /**
     * `highlightPreviousStation`: selects the row before the selected one, or the last
     * row when the first or no row is selected, and yields its id; on an empty table
     * nothing is selected and `getSelectedItem()` is null.
     */
    method HighlightPreviousStation() returns (highlight: Result<Option<int>>)
      requires Valid()
      modifies this
      ensures Valid() && selectedTab == old(selectedTab)
      ensures forall t | t != selectedTab :: old(TableOn(t)) == TableOn(t)
      ensures Step(Shown(), highlight) == StepPrevious(old(Shown()))
    {
      var table := Shown();
      var row := GetRowSelected(table.selectedCells);
      var prev := if row > 0 then row - 1 else |table.items| - 1;
      if prev < 0 {
        highlight := Fail(NullPointer);
      } else {
        SelectShownRow(prev);
        highlight := Lift(GetIdAsInt(table.items[prev]));
      }
    }

    /**
     * `handleEvent`: the highlight requests move the selection; an added, removed or
     * edited station refreshes every table; every other event is ignored.
     */
    method HandleEvent(event: ModelEvent, all: seq<StationValue>, results: seq<StationValue>) returns (highlight: Result<Option<int>>)
      requires Valid()
      modifies this
      ensures Valid() && selectedTab == old(selectedTab)
      ensures event == NEXT_HIGHLIGHTED_STATION_REQUESTED ==> Step(Shown(), highlight) == StepNext(old(Shown()))
      ensures event == PREVIOUS_HIGHLIGHTED_STATION_REQUESTED ==> Step(Shown(), highlight) == StepPrevious(old(Shown()))
      ensures event in {STATION_ADDED, STATION_REMOVED, STATION_EDITED} ==> Tables() == Refreshed(all, results) && highlight == Success(None)
      ensures event !in {STATION_ADDED, STATION_REMOVED, STATION_EDITED, NEXT_HIGHLIGHTED_STATION_REQUESTED, PREVIOUS_HIGHLIGHTED_STATION_REQUESTED} ==>
                Tables() == old(Tables()) && highlight == Success(None)
    {
      match event
      case NEXT_HIGHLIGHTED_STATION_REQUESTED => highlight := HighlightNextStation();
      case PREVIOUS_HIGHLIGHTED_STATION_REQUESTED => highlight := HighlightPreviousStation();
      case STATION_ADDED => UpdateAllTableValues(all, results); highlight := Success(None);
      case STATION_REMOVED => UpdateAllTableValues(all, results); highlight := Success(None);
      case STATION_EDITED => UpdateAllTableValues(all, results); highlight := Success(None);
      case _ => highlight := Success(None);
    }

    /** `searchStations`: the search table shows `results`, nothing selected, and its tab is brought to the front. */
    method SearchStations(results: seq<StationValue>)
      requires Valid()
      modifies this
      ensures Valid() && selectedTab == SearchResultTab
      ensures searchResultStationsTable == Table(RowsOf(results), [])
      ensures allStationsTable == old(allStationsTable) && favouriteStationsTable == old(favouriteStationsTable)
      ensures mostPlayedStationsTable == old(mostPlayedStationsTable)
    {
      var rows := StationToStationData(results);
      searchResultStationsTable := Table(rows, []);
      selectedTab := SearchResultTab;
    }
  }

  /**
   * One event as the running program delivers it to the explorer: `handleEvent`, and
   * then, when a highlight request yields the id on the newly selected row, the
   * explorer's call back into the façade's `setHighlightedStation`.
   */
  method HandleEventThroughFacade(view: StationExplorerController, facade: ModelAdapterImpl, event: ModelEvent,
                                  all: seq<StationValue>, results: seq<StationValue>) returns (highlight: Result<Option<int>>)
    requires view.Valid() && facade.Valid()
    modifies view, facade
    ensures view.Valid() && facade.Valid()
    ensures event == NEXT_HIGHLIGHTED_STATION_REQUESTED ==> Step(view.Shown(), highlight) == StepNext(old(view.Shown()))
    ensures event == PREVIOUS_HIGHLIGHTED_STATION_REQUESTED ==> Step(view.Shown(), highlight) == StepPrevious(old(view.Shown()))
    ensures highlight.Success? && highlight.value.Some? ==>
              && (facade.highlightedStation != null <==> highlight.value.value in facade.model.stations.stations)
              && (facade.highlightedStation != null ==>
                    facade.highlightedStation == facade.model.stations.stations[highlight.value.value]
                    && facade.highlightedStation.id == highlight.value.value)
              && facade.published == old(facade.published) + [STATION_HIGHLIGHTED]
    ensures !(highlight.Success? && highlight.value.Some?) ==>
              facade.highlightedStation == old(facade.highlightedStation) && facade.published == old(facade.published)
  {
    highlight := view.HandleEvent(event, all, results);
    if highlight.Success? && highlight.value.Some? {
      facade.SetHighlightedStation(highlight.value.value);
    }
  }

  /** An id to highlight, or the parse failure. */
  function Lift(r: Result<int>): (h: Result<Option<int>>)
    ensures h.Success? <==> r.Success?
  {
    match r
    case Success(id) => Success(Some(id))
    case Fail(f) => Fail(f)
  }
}
