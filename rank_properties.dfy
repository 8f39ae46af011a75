/**
 * The scan properties of RankFacts stated for the two matchers of
 * keyword_rank.py: which entry a returned rank designates, how many pages
 * each matcher requests, what an empty target does, and how the places
 * matcher treats pages without local results.
 */
module RankProperties {
  import opened Wrappers
  import opened Text
  import opened Url
  import opened Search
  import opened RankSpec
  import opened RankFacts
  import UrlFacts

  /**
   * The organic matcher raises before any request exactly when urlparse
   * raises on the target; otherwise it requests at most `maxPages` pages,
   * and at least one when `maxPages` is positive.
   */
  lemma {:induction false} LinksFetched(search: SearchFn, keyword: string, targetUrl: string, maxPages: nat)
    ensures var s := LinksScan(search, keyword, targetUrl, maxPages);
      (s.outcome.Raised? && s.fetched == 0) <==> LinksDomain(targetUrl).None?
    ensures LinksScan(search, keyword, targetUrl, maxPages).fetched <= maxPages
    ensures maxPages > 0 && LinksDomain(targetUrl).Some? ==>
      LinksScan(search, keyword, targetUrl, maxPages).fetched >= 1
  {
    if LinksDomain(targetUrl).Some? {
      var domain := LinksDomain(targetUrl).value;
      FetchedBounds(LinksPages(search, keyword), ContainsDomain(domain), maxPages);
      if maxPages == 0 {
        assert ScanFrom(LinksPages(search, keyword), ContainsDomain(domain), 0, maxPages, 0).outcome.Returned?;
      }
    }
  }

  /** The places matcher requests at most `maxPages` pages, and at least one when `maxPages` is positive. */
  lemma {:induction false} PlacesFetched(search: SearchFn, keyword: string, targetUrl: string, maxPages: nat)
    ensures PlacesScan(search, keyword, targetUrl, maxPages).fetched <= maxPages
    ensures maxPages > 0 ==> PlacesScan(search, keyword, targetUrl, maxPages).fetched >= 1
  {
    FetchedBounds(PlacesPages(search, keyword), ContainsDomain(PlacesKey(targetUrl)), maxPages);
  }

  /**
   * A rank r returned by the organic matcher for domain `domain` (the
   * target's network location without "www.") is the 1-based position, in
   * the links of all pages requested, of the first link containing the
   * domain; it lies on the last page requested, so no search follows the
   * match.
   */
  lemma {:induction false} LinksFoundIsFirstContaining(search: SearchFn, keyword: string, domain: string,
                                                       maxPages: nat, r: nat)
    requires Scan(LinksPages(search, keyword), ContainsDomain(domain), maxPages).outcome == Returned(Found(r))
    ensures var pages := LinksPages(search, keyword);
      var fetched := Scan(pages, ContainsDomain(domain), maxPages).fetched;
      var all := Scanned(pages, fetched);
      1 <= fetched <= maxPages &&
      |Scanned(pages, fetched - 1)| < r <= |all| &&
      Contains(domain, all[r - 1]) &&
      forall j :: 0 <= j < r - 1 ==> !Contains(domain, all[j])
  {
    var pages := LinksPages(search, keyword);
    var isMatch := ContainsDomain(domain);
    ScanExplained(pages, isMatch, maxPages);
    FoundRankBounds(pages, isMatch, maxPages);
  }

  /**
   * A rank r returned by the places matcher for key `key` (the normalised
   * target) is the 1-based position, in the normalised websites of all pages
   * requested, of the first one containing the key; it lies on the last page
   * requested.
   */
  lemma {:induction false} PlacesFoundIsFirstContaining(search: SearchFn, keyword: string, key: string,
                                                        maxPages: nat, r: nat)
    requires Scan(PlacesPages(search, keyword), ContainsDomain(key), maxPages).outcome == Returned(Found(r))
    ensures var pages := PlacesPages(search, keyword);
      var fetched := Scan(pages, ContainsDomain(key), maxPages).fetched;
      var all := Scanned(pages, fetched);
      1 <= fetched <= maxPages &&
      |Scanned(pages, fetched - 1)| < r <= |all| &&
      Contains(key, all[r - 1]) &&
      forall j :: 0 <= j < r - 1 ==> !Contains(key, all[j])
  {
    var pages := PlacesPages(search, keyword);
    var isMatch := ContainsDomain(key);
    ScanExplained(pages, isMatch, maxPages);
    FoundRankBounds(pages, isMatch, maxPages);
  }

  /**
   * The organic matcher returns NotFound exactly when urlparse accepts the
   * target, all `maxPages` requests return and no link of theirs contains the
   * domain; it has then made all `maxPages` requests.
   */
  lemma {:induction false} LinksNotFoundIff(search: SearchFn, keyword: string, targetUrl: string, maxPages: nat)
    ensures var s := LinksScan(search, keyword, targetUrl, maxPages);
      s.outcome == Returned(NotFound) <==>
        LinksDomain(targetUrl).Some? &&
        AllFetched(LinksPages(search, keyword), maxPages) &&
        forall j :: 0 <= j < |Scanned(LinksPages(search, keyword), maxPages)| ==>
          !Contains(LinksDomain(targetUrl).value, Scanned(LinksPages(search, keyword), maxPages)[j])
    ensures var s := LinksScan(search, keyword, targetUrl, maxPages);
      s.outcome == Returned(NotFound) ==> s.fetched == maxPages
  {
    if LinksDomain(targetUrl).Some? {
      NotFoundIff(LinksPages(search, keyword), ContainsDomain(LinksDomain(targetUrl).value), maxPages);
    }
  }

  /**
   * The places matcher returns NotFound exactly when all `maxPages` requests
   * return and no normalised website of theirs contains the normalised
   * target; it has then made all `maxPages` requests.
   */
  lemma {:induction false} PlacesNotFoundIff(search: SearchFn, keyword: string, targetUrl: string, maxPages: nat)
    ensures var s := PlacesScan(search, keyword, targetUrl, maxPages);
      s.outcome == Returned(NotFound) <==>
        AllFetched(PlacesPages(search, keyword), maxPages) &&
        forall j :: 0 <= j < |Scanned(PlacesPages(search, keyword), maxPages)| ==>
          !Contains(PlacesKey(targetUrl), Scanned(PlacesPages(search, keyword), maxPages)[j])
    ensures var s := PlacesScan(search, keyword, targetUrl, maxPages);
      s.outcome == Returned(NotFound) ==> s.fetched == maxPages
  {
    NotFoundIff(PlacesPages(search, keyword), ContainsDomain(PlacesKey(targetUrl)), maxPages);
  }

  /**
   * An empty domain matches nothing: the organic matcher never returns a
   * rank for a target whose network location is empty or only "www.", and
   * when every request returns it reads all pages and returns NotFound.
   */
  lemma {:induction false} LinksEmptyDomainNeverFound(search: SearchFn, keyword: string, targetUrl: string, maxPages: nat)
    requires LinksDomain(targetUrl) == Some("")
    ensures !LinksScan(search, keyword, targetUrl, maxPages).outcome.Returned?
         || LinksScan(search, keyword, targetUrl, maxPages).outcome.rank == NotFound
    ensures AllFetched(LinksPages(search, keyword), maxPages) ==>
      LinksScan(search, keyword, targetUrl, maxPages) == ScanResult(Returned(NotFound), maxPages)
  {
    NeverMatchingNeverFound(LinksPages(search, keyword), ContainsDomain(""), maxPages);
  }

  /** The same for a places target that normalises to the empty text. */
  lemma {:induction false} PlacesEmptyKeyNeverFound(search: SearchFn, keyword: string, targetUrl: string, maxPages: nat)
    requires PlacesKey(targetUrl) == ""
    ensures !PlacesScan(search, keyword, targetUrl, maxPages).outcome.Returned?
         || PlacesScan(search, keyword, targetUrl, maxPages).outcome.rank == NotFound
    ensures AllFetched(PlacesPages(search, keyword), maxPages) ==>
      PlacesScan(search, keyword, targetUrl, maxPages) == ScanResult(Returned(NotFound), maxPages)
  {
    NeverMatchingNeverFound(PlacesPages(search, keyword), ContainsDomain(""), maxPages);
  }

  /**
   * A target that, as urlsplit cleans it, has neither a scheme nor a leading
   * "//" (such as "www.example.com" or "example.com/a:b") has an empty domain
   * for the organic matcher, which therefore never finds it.
   */
  lemma SchemelessTargetNeverFound(search: SearchFn, keyword: string, targetUrl: string, maxPages: nat)
    requires var u := RemoveUnsafe(StripLeadingControls(targetUrl));
      !HasScheme(u) && !(|u| >= 2 && u[..2] == "//")
    ensures !LinksScan(search, keyword, targetUrl, maxPages).outcome.Returned?
         || LinksScan(search, keyword, targetUrl, maxPages).outcome.rank == NotFound
  {
    UrlFacts.SchemelessUrlHasEmptyNetloc(targetUrl);
    LinksEmptyDomainNeverFound(search, keyword, targetUrl, maxPages);
  }

  /**
   * A page whose response has no local results is skipped by the places
   * matcher: the scan goes on to the next page with the counter unchanged,
   * and the page adds nothing to the concatenation ranks are counted in.
   */
  lemma {:induction false} PlacesEmptyPageSkipped(search: SearchFn, keyword: string, key: string,
                                                  page: nat, maxPages: nat, counter: nat)
    requires page < maxPages
    requires search(keyword, 10 * page).Some? && LocalResultsOf(search(keyword, 10 * page).value) == []
    ensures var pages := PlacesPages(search, keyword);
      ScanFrom(pages, ContainsDomain(key), page, maxPages, counter)
        == ScanFrom(pages, ContainsDomain(key), page + 1, maxPages, counter)
    ensures Scanned(PlacesPages(search, keyword), page + 1) == Scanned(PlacesPages(search, keyword), page)
  {
    var pages := PlacesPages(search, keyword);
    assert Websites([]) == [];
    assert pages(page) == Some([]);
    EmptyPageAddsNothing(pages, ContainsDomain(key), page, maxPages, counter);
  }
}
