/**
 * The imperative core of keyword_rank.py. The two rank matchers are written
 * as the loops they are: a page loop that requests offsets 0, 10, 20, ...
 * and an entry loop that bumps one counter, shared by all pages, and stops at
 * the first entry containing the target. The row loop of `run_agent` fills
 * the two output columns. Each method is proved to compute what its
 * specification function describes, and to issue exactly the requests that
 * specification makes.
 */
module KeywordRank {
  import opened Wrappers
  import opened Text
  import opened Url
  import opened Search
  import opened RankSpec
  import opened RankFacts
  import opened AgentSpec

  /** The request offsets of pages 0 .. page, one more than `Offsets(page)`. */
  lemma {:induction false} OffsetsStep(page: nat)
    ensures Offsets(page + 1) == Offsets(page) + [10 * page]
  {
    assert Offsets(page + 1)[page] == 10 * page;
    assert forall i :: 0 <= i < page ==> Offsets(page + 1)[i] == Offsets(page)[i];
  }

  /** The organic matcher's page `page` holds the links of the response at offset `10 * page`. */
  lemma LinksPageAt(search: SearchFn, keyword: string, page: nat)
    ensures search(keyword, 10 * page).None? ==> LinksPages(search, keyword)(page).None?
    ensures search(keyword, 10 * page).Some? ==>
      LinksPages(search, keyword)(page) == Some(Links(OrganicResultsOf(search(keyword, 10 * page).value)))
  {
  }

  /** The places matcher's page `page` holds the normalised websites of the response at offset `10 * page`. */
  lemma PlacesPageAt(search: SearchFn, keyword: string, page: nat)
    ensures search(keyword, 10 * page).None? ==> PlacesPages(search, keyword)(page).None?
    ensures search(keyword, 10 * page).Some? ==>
      PlacesPages(search, keyword)(page) == Some(Websites(LocalResultsOf(search(keyword, 10 * page).value)))
  {
  }

  /**
   * The entry loop of `get_links_rank` (lines 42-47) over one page: the
   * counter goes up once per result, up to and including the first whose link
   * contains the domain, and `found` says whether there was one.
   */
  method ScanOrganicResults(organicResults: seq<OrganicResult>, domain: string, counter: nat)
    returns (found: bool, rankCounter: nat)
    ensures var k := FirstMatch(ContainsDomain(domain), Links(organicResults));
      found == (k < |organicResults|) &&
      rankCounter == counter + (if found then k + 1 else |organicResults|)
  {
    ghost var links := Links(organicResults);
    ghost var isMatch := ContainsDomain(domain);
    rankCounter := counter;
    for i := 0 to |organicResults|
      invariant rankCounter == counter + i
      invariant forall j :: 0 <= j < i ==> !isMatch(links[j])
    {
      rankCounter := rankCounter + 1;
      var link := LinkOf(organicResults[i]);
      if domain != "" && IsSubstring(domain, link) {
        FirstMatchIsFirst(isMatch, links, i);
        return true, rankCounter;
      }
    }
    FirstMatchOfNone(isMatch, links);
    return false, rankCounter;
  }

  /**
   * The entry loop of `get_places_rank` (lines 71-77) over one page: each
   * website is normalised like the target before the containment test.
   */
  method ScanLocalResults(localResults: seq<LocalResult>, domain: string, counter: nat)
    returns (found: bool, rankCounter: nat)
    ensures var k := FirstMatch(ContainsDomain(domain), Websites(localResults));
      found == (k < |localResults|) &&
      rankCounter == counter + (if found then k + 1 else |localResults|)
  {
    ghost var websites := Websites(localResults);
    ghost var isMatch := ContainsDomain(domain);
    rankCounter := counter;
    for i := 0 to |localResults|
      invariant rankCounter == counter + i
      invariant forall j :: 0 <= j < i ==> !isMatch(websites[j])
    {
      rankCounter := rankCounter + 1;
      var website := WebsiteOf(localResults[i]);
      website := PlacesKey(website);
      if domain != "" && IsSubstring(domain, website) {
        FirstMatchIsFirst(isMatch, websites, i);
        return true, rankCounter;
      }
    }
    FirstMatchOfNone(isMatch, websites);
    return false, rankCounter;
  }

  /**
   * One pass of the page loop of `get_links_rank` (lines 38-49): request the
   * page at offset `start`, which is `10 * page`, and scan its organic
   * results. The result is None when the loop goes on to the next page with
   * counter `rankCounter`, and otherwise the value the matcher returns or
   * raises with.
   */
  method LinksPage(search: SearchFn, keyword: string, domain: string, page: nat, maxPages: nat, counter: nat)
    returns (start: nat, done: Option<Outcome>, rankCounter: nat)
    requires page < maxPages
    ensures start == 10 * page
    ensures var rest := ScanFrom(LinksPages(search, keyword), ContainsDomain(domain), page, maxPages, counter);
      match done
      case None => rest == ScanFrom(LinksPages(search, keyword), ContainsDomain(domain), page + 1, maxPages, rankCounter)
      case Some(outcome) => rest == ScanResult(outcome, page + 1)
  {
    ghost var pages := LinksPages(search, keyword);
    ghost var isMatch := ContainsDomain(domain);
    start := page * 10;
    var results := search(keyword, start);
    LinksPageAt(search, keyword, page);
    if results.None? {
      ScanFromRaises(pages, isMatch, page, maxPages, counter);
      return start, Some(Raised), counter;
    }
    var organicResults := OrganicResultsOf(results.value);
    ScanFromStep(pages, isMatch, page, maxPages, counter);
    var found;
    found, rankCounter := ScanOrganicResults(organicResults, domain, counter);
    if found {
      return start, Some(Returned(Found(rankCounter))), rankCounter;
    }
    return start, None, rankCounter;
  }

  /**
   * The page loop of `get_links_rank` (lines 35-51) for a computed domain:
   * pages 0 .. maxPages-1 in order, one counter across them.
   */
  method RankLinksByDomain(search: SearchFn, keyword: string, domain: string, maxPages: nat)
    returns (outcome: Outcome, requested: seq<nat>)
    ensures outcome == Scan(LinksPages(search, keyword), ContainsDomain(domain), maxPages).outcome
    ensures requested == Offsets(Scan(LinksPages(search, keyword), ContainsDomain(domain), maxPages).fetched)
  {
    ghost var pages := LinksPages(search, keyword);
    ghost var isMatch := ContainsDomain(domain);
    var rankCounter := 0;
    requested := [];
    for page := 0 to maxPages
      invariant requested == Offsets(page)
      invariant ScanFrom(pages, isMatch, page, maxPages, rankCounter) == Scan(pages, isMatch, maxPages)
    {
      var start, done;
      start, done, rankCounter := LinksPage(search, keyword, domain, page, maxPages, rankCounter);
      OffsetsStep(page);
      requested := requested + [start];
      if done.Some? {
        return done.value, requested;
      }
    }
    return Returned(NotFound), requested;
  }

  /**
   * `get_links_rank(keyword, target_url, max_pages)`: the outcome, and the
   * offsets of the searches it made, in order.
   */
  method GetLinksRank(search: SearchFn, keyword: string, targetUrl: string, maxPages: nat)
    returns (outcome: Outcome, requested: seq<nat>)
    ensures outcome == LinksScan(search, keyword, targetUrl, maxPages).outcome
    ensures requested == Offsets(LinksScan(search, keyword, targetUrl, maxPages).fetched)
  {
    var netloc := Netloc(targetUrl);
    if netloc.None? {
      // urlparse raises before any search is made
      return Raised, [];
    }
    var domain := ReplaceAll(netloc.value, "www.");
    outcome, requested := RankLinksByDomain(search, keyword, domain, maxPages);
  }

  /**
   * One pass of the page loop of `get_places_rank` (lines 64-79); a page
   * without local results is skipped.
   */
  method PlacesPage(search: SearchFn, keyword: string, domain: string, page: nat, maxPages: nat, counter: nat)
    returns (start: nat, done: Option<Outcome>, rankCounter: nat)
    requires page < maxPages
    ensures start == 10 * page
    ensures var rest := ScanFrom(PlacesPages(search, keyword), ContainsDomain(domain), page, maxPages, counter);
      match done
      case None => rest == ScanFrom(PlacesPages(search, keyword), ContainsDomain(domain), page + 1, maxPages, rankCounter)
      case Some(outcome) => rest == ScanResult(outcome, page + 1)
  {
    ghost var pages := PlacesPages(search, keyword);
    ghost var isMatch := ContainsDomain(domain);
    start := page * 10;
    var results := search(keyword, start);
    PlacesPageAt(search, keyword, page);
    if results.None? {
      ScanFromRaises(pages, isMatch, page, maxPages, counter);
      return start, Some(Raised), counter;
    }
    var localResults := LocalResultsOf(results.value);
    ScanFromStep(pages, isMatch, page, maxPages, counter);
    if |localResults| == 0 {
      return start, None, counter;
    }
    var found;
    found, rankCounter := ScanLocalResults(localResults, domain, counter);
    if found {
      return start, Some(Returned(Found(rankCounter))), rankCounter;
    }
    return start, None, rankCounter;
  }

  /**
   * The page loop of `get_places_rank` (lines 61-81) for a computed key.
   */
  method RankPlacesByKey(search: SearchFn, keyword: string, domain: string, maxPages: nat)
    returns (outcome: Outcome, requested: seq<nat>)
    ensures outcome == Scan(PlacesPages(search, keyword), ContainsDomain(domain), maxPages).outcome
    ensures requested == Offsets(Scan(PlacesPages(search, keyword), ContainsDomain(domain), maxPages).fetched)
  {
    ghost var pages := PlacesPages(search, keyword);
    ghost var isMatch := ContainsDomain(domain);
    var rankCounter := 0;
    requested := [];
    for page := 0 to maxPages
      invariant requested == Offsets(page)
      invariant ScanFrom(pages, isMatch, page, maxPages, rankCounter) == Scan(pages, isMatch, maxPages)
    {
      var start, done;
      start, done, rankCounter := PlacesPage(search, keyword, domain, page, maxPages, rankCounter);
      OffsetsStep(page);
      requested := requested + [start];
      if done.Some? {
        return done.value, requested;
      }
    }
    return Returned(NotFound), requested;
  }

  /**
   * `get_places_rank(keyword, target_url, max_pages)`: the outcome, and the
   * offsets of the searches it made, in order.
   */
  method GetPlacesRank(search: SearchFn, keyword: string, targetUrl: string, maxPages: nat)
    returns (outcome: Outcome, requested: seq<nat>)
    ensures outcome == PlacesScan(search, keyword, targetUrl, maxPages).outcome
    ensures requested == Offsets(PlacesScan(search, keyword, targetUrl, maxPages).fetched)
  {
    var domain := PlacesKey(targetUrl);
    outcome, requested := RankPlacesByKey(search, keyword, domain, maxPages);
  }

  /**
   * One pass of the row loop of `run_agent` (lines 100-125): strip both
   * fields, skip a blank row, otherwise call the places matcher, then the
   * links matcher, and fill both cells only when both return.
   */
  method CheckRow(search: SearchFn, row: Row) returns (placesCell: Cell, linksCell: Cell, queries: seq<Query>)
    ensures RowResult(placesCell, linksCell, queries) == RunRow(PlacesCall(search), LinksCall(search), row)
  {
    var keyword := Trim(row.keyword);
    var targetPage := Trim(row.targetPage);
    if keyword == [] || targetPage == [] {
      return Skipped, Skipped, [];
    }
    var placesOutcome, placesRequested := GetPlacesRank(search, keyword, targetPage, DefaultMaxPages);
    queries := QueriesAt(keyword, placesRequested);
    if placesOutcome.Raised? {
      return Error, Error, queries;
    }
    var linksOutcome, linksRequested := GetLinksRank(search, keyword, targetPage, DefaultMaxPages);
    queries := queries + QueriesAt(keyword, linksRequested);
    if linksOutcome.Raised? {
      return Error, Error, queries;
    }
    return Ranked(placesOutcome.rank), Ranked(linksOutcome.rank), queries;
  }

  /**
   * The row loop of `run_agent`: one cell per row in each column, in row
   * order, and the searches of all rows, row after row.
   */
  method RunAgent(search: SearchFn, rows: seq<Row>)
    returns (placesRanks: seq<Cell>, linksRanks: seq<Cell>, queries: seq<Query>)
    ensures placesRanks == PlacesColumn(PlacesCall(search), LinksCall(search), rows)
    ensures linksRanks == LinksColumn(PlacesCall(search), LinksCall(search), rows)
    ensures queries == AllQueries(PlacesCall(search), LinksCall(search), rows)
  {
    ghost var places := PlacesCall(search);
    ghost var links := LinksCall(search);
    placesRanks, linksRanks, queries := [], [], [];
    for i := 0 to |rows|
      invariant placesRanks == PlacesColumn(places, links, rows[..i])
      invariant linksRanks == LinksColumn(places, links, rows[..i])
      invariant queries == AllQueries(places, links, rows[..i])
    {
      var placesCell, linksCell, rowQueries := CheckRow(search, rows[i]);
      ghost var result := RunRow(places, links, rows[i]);
      assert placesCell == result.places && linksCell == result.links && rowQueries == result.queries;
      RunStep(places, links, rows[..i], rows[i]);
      assert rows[..i + 1] == rows[..i] + [rows[i]];
      placesRanks := placesRanks + [placesCell];
      linksRanks := linksRanks + [linksCell];
      queries := queries + rowQueries;
    }
    assert rows[..|rows|] == rows;
  }
}
