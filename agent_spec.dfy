/**
 * The per-row policy of `run_agent` (keyword_rank.py:97-125): what the two
 * output columns hold for one spreadsheet row, and which searches the row
 * makes, in order. The policy is stated for any pair of matcher calls and
 * instantiated with `get_places_rank` and `get_links_rank`.
 */
module AgentSpec {
  import opened Wrappers
  import opened Text
  import opened Url
  import opened Search
  import opened RankSpec
  import opened RankProperties

  /** Both matchers are called with their default `max_pages=5`. */
  const DefaultMaxPages: nat := 5

  /** A cell of the "Google Places Rank" or "Google Links Rank" column. */
  datatype Cell = Ranked(rank: Rank) | Skipped | Error

  /** The two columns a row is read from, already converted to text. */
  datatype Row = Row(keyword: string, targetPage: string)

  /** One call `google_search(keyword, start)`. */
  datatype Query = Query(keyword: string, start: nat)

  /** What one row contributes: its two cells and the searches it made. */
  datatype RowResult = RowResult(places: Cell, links: Cell, queries: seq<Query>)

  /** A matcher as `run_agent` calls it: keyword and target to the scan it performs. */
  type RankCall = (string, string) -> ScanResult

  /** `get_places_rank(keyword, target_page)`. */
  function PlacesCall(search: SearchFn): (call: RankCall) {
    (keyword, target) => PlacesScan(search, keyword, target, DefaultMaxPages)
  }

  /** `get_links_rank(keyword, target_page)`. */
  function LinksCall(search: SearchFn): (call: RankCall) {
    (keyword, target) => LinksScan(search, keyword, target, DefaultMaxPages)
  }

  /** The searches for `keyword` at the given offsets, in order. */
  function QueriesAt(keyword: string, offsets: seq<nat>): (qs: seq<Query>)
    ensures |qs| == |offsets|
    ensures forall i :: 0 <= i < |qs| ==> qs[i].keyword == keyword && qs[i].start == offsets[i]
  {
    seq(|offsets|, i requires 0 <= i < |offsets| => Query(keyword, offsets[i]))
  }

  /** The row is skipped: its keyword or its target is empty once stripped. */
  predicate IsBlank(row: Row) {
    Trim(row.keyword) == "" || Trim(row.targetPage) == ""
  }

  /**
   * One row: a blank row is Skipped in both columns with no search. Otherwise
   * the places matcher runs, then the links matcher, both on the stripped
   * keyword and target; the cells are filled only after both return, and a
   * raise in either makes both cells Error. The links matcher is not called
   * when the places matcher raises. So the two cells are Skipped exactly when
   * the row is blank, and Error together.
   */
  function RunRow(places: RankCall, links: RankCall, row: Row): (rr: RowResult)
    ensures rr.places.Skipped? <==> IsBlank(row)
    ensures rr.links.Skipped? <==> IsBlank(row)
    ensures rr.places.Error? <==> rr.links.Error?
  {
    if IsBlank(row) then RowResult(Skipped, Skipped, [])
    else
      var keyword := Trim(row.keyword);
      var target := Trim(row.targetPage);
      var p := places(keyword, target);
      var placesQueries := QueriesAt(keyword, Offsets(p.fetched));
      if p.outcome.Raised? then RowResult(Error, Error, placesQueries)
      else
        var l := links(keyword, target);
        var queries := placesQueries + QueriesAt(keyword, Offsets(l.fetched));
        if l.outcome.Raised? then RowResult(Error, Error, queries)
        else RowResult(Ranked(p.outcome.rank), Ranked(l.outcome.rank), queries)
  }

  /** The "Google Places Rank" column: one cell per row, in row order. */
  function PlacesColumn(places: RankCall, links: RankCall, rows: seq<Row>): (cells: seq<Cell>)
    ensures |cells| == |rows|
  {
    seq(|rows|, i requires 0 <= i < |rows| => RunRow(places, links, rows[i]).places)
  }

  /** The "Google Links Rank" column: one cell per row, in row order. */
  function LinksColumn(places: RankCall, links: RankCall, rows: seq<Row>): (cells: seq<Cell>)
    ensures |cells| == |rows|
  {
    seq(|rows|, i requires 0 <= i < |rows| => RunRow(places, links, rows[i]).links)
  }

  /** The searches of rows 0 .. |rows|-1, row after row. */
  function AllQueries(places: RankCall, links: RankCall, rows: seq<Row>): (queries: seq<Query>)
    decreases |rows|
  {
    if rows == [] then []
    else RunRow(places, links, rows[0]).queries + AllQueries(places, links, rows[1..])
  }

  // ---------------------------------------------------------------------
  // Properties of one row

  /**
   * A cell is Error exactly when the row is not blank and one of the two
   * matchers raises.
   */
  lemma ErrorIff(places: RankCall, links: RankCall, row: Row)
    ensures RunRow(places, links, row).places == Error <==>
      !IsBlank(row) &&
      (places(Trim(row.keyword), Trim(row.targetPage)).outcome.Raised? ||
       links(Trim(row.keyword), Trim(row.targetPage)).outcome.Raised?)
  {
  }

  /**
   * Otherwise each cell holds the rank its matcher returned.
   */
  lemma RankedCells(places: RankCall, links: RankCall, row: Row)
    requires !IsBlank(row)
    requires places(Trim(row.keyword), Trim(row.targetPage)).outcome.Returned?
    requires links(Trim(row.keyword), Trim(row.targetPage)).outcome.Returned?
    ensures RunRow(places, links, row).places == Ranked(places(Trim(row.keyword), Trim(row.targetPage)).outcome.rank)
    ensures RunRow(places, links, row).links == Ranked(links(Trim(row.keyword), Trim(row.targetPage)).outcome.rank)
  {
  }

  /**
   * A places rank already computed is discarded when the links matcher then
   * raises: both cells are Error.
   */
  lemma LinksRaiseDiscardsPlacesRank(places: RankCall, links: RankCall, row: Row, rank: Rank)
    requires !IsBlank(row)
    requires places(Trim(row.keyword), Trim(row.targetPage)).outcome == Returned(rank)
    requires links(Trim(row.keyword), Trim(row.targetPage)).outcome.Raised?
    ensures RunRow(places, links, row).places == Error && RunRow(places, links, row).links == Error
  {
  }

  /**
   * A cell is Skipped exactly when the keyword or the target consists of
   * whitespace only (or is empty), and then both are and no search is made.
   */
  lemma SkippedIffBlank(places: RankCall, links: RankCall, row: Row)
    ensures RunRow(places, links, row).places == Skipped <==>
      (forall i :: 0 <= i < |row.keyword| ==> IsSpace(row.keyword[i])) ||
      (forall i :: 0 <= i < |row.targetPage| ==> IsSpace(row.targetPage[i]))
    ensures RunRow(places, links, row).places == Skipped <==> RunRow(places, links, row).links == Skipped
    ensures RunRow(places, links, row).places == Skipped ==> RunRow(places, links, row).queries == []
  {
    var k := Trim(row.keyword);
    var t := Trim(row.targetPage);
  }

  /** A row's searches: the places matcher's, then (when it returned) the links matcher's. */
  lemma RowQueries(places: RankCall, links: RankCall, row: Row)
    requires !IsBlank(row)
    ensures var keyword := Trim(row.keyword);
      var p := places(keyword, Trim(row.targetPage));
      var l := links(keyword, Trim(row.targetPage));
      RunRow(places, links, row).queries
        == QueriesAt(keyword, Offsets(p.fetched)) + (if p.outcome.Raised? then [] else QueriesAt(keyword, Offsets(l.fetched)))
  {
  }

  /** Every search is for `keyword` at an offset that is a multiple of ten below `10 * n`. */
  lemma {:induction false} QueriesAtOffsets(keyword: string, n: nat)
    ensures var qs := QueriesAt(keyword, Offsets(n));
      |qs| == n &&
      forall i :: 0 <= i < |qs| ==> qs[i].keyword == keyword && qs[i].start % 10 == 0 && qs[i].start < 10 * n
  {
    var qs := QueriesAt(keyword, Offsets(n));
    forall i | 0 <= i < |qs|
      ensures qs[i].keyword == keyword && qs[i].start % 10 == 0 && qs[i].start < 10 * n
    {
      assert qs[i].start == 10 * i;
    }
  }

  /** The matchers request between one and `DefaultMaxPages` pages, the links matcher possibly none. */
  ghost predicate FetchBounds(places: RankCall, links: RankCall) {
    (forall keyword, target :: 1 <= places(keyword, target).fetched <= DefaultMaxPages) &&
    (forall keyword, target :: links(keyword, target).fetched <= DefaultMaxPages)
  }

  /** The two real matchers keep within those bounds. */
  lemma CallsFetchBounds(search: SearchFn)
    ensures FetchBounds(PlacesCall(search), LinksCall(search))
  {
    forall keyword, target
      ensures 1 <= PlacesCall(search)(keyword, target).fetched <= DefaultMaxPages
    {
      PlacesFetched(search, keyword, target, DefaultMaxPages);
    }
    forall keyword, target
      ensures LinksCall(search)(keyword, target).fetched <= DefaultMaxPages
    {
      LinksFetched(search, keyword, target, DefaultMaxPages);
    }
  }

  /**
   * A row that is not blank makes at least one search (the places matcher's
   * first page) and at most `DefaultMaxPages` per matcher; every search is
   * for the stripped keyword at an offset that is a multiple of ten below
   * `10 * DefaultMaxPages`.
   */
  lemma {:induction false} RowQueriesBounds(places: RankCall, links: RankCall, row: Row)
    requires FetchBounds(places, links)
    ensures var qs := RunRow(places, links, row).queries;
      !IsBlank(row) ==> 1 <= |qs| <= 2 * DefaultMaxPages
    ensures var qs := RunRow(places, links, row).queries;
      forall i :: 0 <= i < |qs| ==>
        qs[i].keyword == Trim(row.keyword) && qs[i].start % 10 == 0 && qs[i].start < 10 * DefaultMaxPages
  {
    if !IsBlank(row) {
      var keyword := Trim(row.keyword);
      var target := Trim(row.targetPage);
      var p := places(keyword, target);
      var l := links(keyword, target);
      RowQueries(places, links, row);
      QueriesAtOffsets(keyword, p.fetched);
      QueriesAtOffsets(keyword, l.fetched);
    }
  }

  /**
   * The bounds for the real matchers: a non-blank row makes between 1 and
   * 10 searches, each for the stripped keyword at offset 0, 10, 20, 30 or 40.
   */
  lemma MatcherRowQueriesBounds(search: SearchFn, row: Row)
    ensures var qs := RunRow(PlacesCall(search), LinksCall(search), row).queries;
      !IsBlank(row) ==> 1 <= |qs| <= 2 * DefaultMaxPages
    ensures var qs := RunRow(PlacesCall(search), LinksCall(search), row).queries;
      forall i :: 0 <= i < |qs| ==>
        qs[i].keyword == Trim(row.keyword) && qs[i].start % 10 == 0 && qs[i].start < 10 * DefaultMaxPages
  {
    CallsFetchBounds(search);
    RowQueriesBounds(PlacesCall(search), LinksCall(search), row);
  }

  /** When the places matcher raises, the links matcher makes no search. */
  lemma PlacesRaiseStopsRow(places: RankCall, links: RankCall, row: Row)
    requires !IsBlank(row)
    requires places(Trim(row.keyword), Trim(row.targetPage)).outcome.Raised?
    ensures |RunRow(places, links, row).queries| == places(Trim(row.keyword), Trim(row.targetPage)).fetched
  {
  }

  // ---------------------------------------------------------------------
  // Properties of the whole run

  /** The searches of a run are those of its rows, concatenated in row order. */
  lemma {:induction false} AllQueriesAppend(places: RankCall, links: RankCall, rows: seq<Row>, more: seq<Row>)
    ensures AllQueries(places, links, rows + more) == AllQueries(places, links, rows) + AllQueries(places, links, more)
    decreases |rows|
  {
    if rows == [] {
      assert rows + more == more;
    } else {
      assert (rows + more)[0] == rows[0];
      assert (rows + more)[1..] == rows[1..] + more;
      AllQueriesAppend(places, links, rows[1..], more);
    }
  }

  /** One more row adds its cells at the end of both columns and its searches at the end of the run's. */
  lemma {:induction false} RunStep(places: RankCall, links: RankCall, rows: seq<Row>, row: Row)
    ensures PlacesColumn(places, links, rows + [row])
         == PlacesColumn(places, links, rows) + [RunRow(places, links, row).places]
    ensures LinksColumn(places, links, rows + [row])
         == LinksColumn(places, links, rows) + [RunRow(places, links, row).links]
    ensures AllQueries(places, links, rows + [row])
         == AllQueries(places, links, rows) + RunRow(places, links, row).queries
  {
    AllQueriesAppend(places, links, rows, [row]);
    assert [row][1..] == [];
  }

  /** Blank rows add no search to a run. */
  lemma {:induction false} BlankRowsSearchNothing(places: RankCall, links: RankCall, rows: seq<Row>)
    requires forall i :: 0 <= i < |rows| ==> IsBlank(rows[i])
    ensures AllQueries(places, links, rows) == []
    decreases |rows|
  {
    if rows != [] {
      BlankRowsSearchNothing(places, links, rows[1..]);
    }
  }
}
