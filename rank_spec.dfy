/**
 * What the two rank matchers of keyword_rank.py compute. Both scan up to
 * `maxPages` result pages in order with one counter that runs across pages,
 * and stop at the first entry that contains the target; they differ only in
 * which list of a page they read and how they normalise. The scan is stated
 * once, over a page source and a match test, and instantiated per matcher.
 */
module RankSpec {
  import opened Wrappers
  import opened Text
  import opened Url
  import opened Search

  /** A matcher's return value: a 1-based position, or "Not Found". */
  datatype Rank = Found(position: nat) | NotFound

  /** A matcher call either returns a rank or raises. */
  datatype Outcome = Returned(rank: Rank) | Raised

  /** The outcome of a scan and how many pages it requested. */
  datatype ScanResult = ScanResult(outcome: Outcome, fetched: nat)

  /** Page `i`'s entries (links or websites) in order, or None when the request for it raises. */
  type Pages<E> = nat -> Option<seq<E>>

  /** The test an entry passes when it is the one looked for. */
  type Matcher<!E> = E -> bool

  /** The index of the first entry that matches, or |entries| when none does. */
  function FirstMatch<E>(isMatch: Matcher<E>, entries: seq<E>): (k: nat)
    decreases |entries|
  {
    if entries == [] then 0
    else if isMatch(entries[0]) then 0
    else 1 + FirstMatch(isMatch, entries[1..])
  }

  /**
   * The scan from page `page` on, with `counter` entries already counted:
   * a failed request raises, a page with a match returns the match's global
   * position, and after page `maxPages - 1` the scan returns NotFound. Within
   * the budget it requests page `page` and never a page beyond the budget.
   */
  function ScanFrom<E>(pages: Pages<E>, isMatch: Matcher<E>, page: nat, maxPages: nat, counter: nat): (s: ScanResult)
    ensures page < maxPages ==> page < s.fetched <= maxPages
    decreases maxPages - page
  {
    if page >= maxPages then ScanResult(Returned(NotFound), page)
    else match pages(page)
      case None => ScanResult(Raised, page + 1)
      case Some(entries) =>
        var k := FirstMatch(isMatch, entries);
        if k < |entries| then ScanResult(Returned(Found(counter + k + 1)), page + 1)
        else ScanFrom(pages, isMatch, page + 1, maxPages, counter + |entries|)
  }

  /** The scan from the first page with nothing counted: it requests at most `maxPages` pages, at least one when `maxPages` > 0. */
  function Scan<E>(pages: Pages<E>, isMatch: Matcher<E>, maxPages: nat): (s: ScanResult)
    ensures s.fetched <= maxPages
    ensures maxPages > 0 ==> s.fetched >= 1
  {
    ScanFrom(pages, isMatch, 0, maxPages, 0)
  }

  /** The offsets of the first `n` page requests: 0, 10, 20, ... (ten results a page). */
  function Offsets(n: nat): (offsets: seq<nat>) {
    seq(n, i => 10 * i)
  }

  // ---------------------------------------------------------------------
  // The two matchers as instances of the scan

  /** The response to the request for page `page`, made at offset `10 * page`. */
  function PageAt(search: SearchFn, keyword: string, page: nat): (response: Option<Response>) {
    search(keyword, 10 * page)
  }

  /** The organic matcher's pages: each response's links. */
  function LinksPages(search: SearchFn, keyword: string): (pages: Pages<string>) {
    (page: nat) => match PageAt(search, keyword, page)
            case None => None
            case Some(r) => Some(Links(OrganicResultsOf(r)))
  }

  /** The places matcher's pages: each response's websites, normalised like the target. */
  function PlacesPages(search: SearchFn, keyword: string): (pages: Pages<string>) {
    (page: nat) => match PageAt(search, keyword, page)
            case None => None
            case Some(r) => Some(Websites(LocalResultsOf(r)))
  }

  /** The websites of local results, each normalised by `PlacesKey`, in order. */
  function Websites(results: seq<LocalResult>): (websites: seq<string>)
    ensures |websites| == |results|
    ensures forall i :: 0 <= i < |results| ==> websites[i] == PlacesKey(WebsiteOf(results[i]))
  {
    seq(|results|, i requires 0 <= i < |results| => PlacesKey(WebsiteOf(results[i])))
  }

  /** Both matchers' test `domain and domain in entry`: an empty domain matches nothing. */
  predicate Contains(domain: string, entry: string) {
    domain != "" && IsSubstring(domain, entry)
  }

  /** The test as a scan's match test. */
  function ContainsDomain(domain: string): (isMatch: Matcher<string>) {
    entry => Contains(domain, entry)
  }

  /** keyword_rank.py:33-51: the organic scan; it raises before any request when urlparse does. */
  function LinksScan(search: SearchFn, keyword: string, targetUrl: string, maxPages: nat): (s: ScanResult)
    ensures LinksDomain(targetUrl).None? ==> s == ScanResult(Raised, 0)
    ensures s.fetched <= maxPages
  {
    match LinksDomain(targetUrl)
    case None => ScanResult(Raised, 0)
    case Some(domain) => Scan(LinksPages(search, keyword), ContainsDomain(domain), maxPages)
  }

  /** keyword_rank.py:59-81: the places scan. */
  function PlacesScan(search: SearchFn, keyword: string, targetUrl: string, maxPages: nat): (s: ScanResult)
    ensures s.fetched <= maxPages
    ensures maxPages > 0 ==> s.fetched >= 1
  {
    Scan(PlacesPages(search, keyword), ContainsDomain(PlacesKey(targetUrl)), maxPages)
  }

  // ---------------------------------------------------------------------
  // The reference view: the pages concatenated

  /** The entries of page `page`, none for a failed request. */
  function EntriesOf<E>(pages: Pages<E>, page: nat): (entries: seq<E>) {
    match pages(page)
    case None => []
    case Some(entries) => entries
  }

  /** The entries of pages 0 .. n-1 concatenated in order. */
  function Scanned<E>(pages: Pages<E>, n: nat): (entries: seq<E>) {
    if n == 0 then [] else Scanned(pages, n - 1) + EntriesOf(pages, n - 1)
  }

  /** The requests for pages 0 .. n-1 all return. */
  ghost predicate AllFetched<E>(pages: Pages<E>, n: nat) {
    forall i: nat :: i < n ==> pages(i).Some?
  }

  /** Entry `m` of `entries` is the first that matches. */
  ghost predicate IsFirstMatch<E>(isMatch: Matcher<E>, entries: seq<E>, m: nat) {
    m < |entries| && isMatch(entries[m]) && forall j :: 0 <= j < m ==> !isMatch(entries[j])
  }

  ghost predicate NoMatch<E>(isMatch: Matcher<E>, entries: seq<E>) {
    forall j :: 0 <= j < |entries| ==> !isMatch(entries[j])
  }

  /**
   * What a scan result means: NotFound after every page was fetched with no
   * match; Raised at the first failed request, with no match before it;
   * Found(r) when entry r of the pages fetched is the first that matches and
   * lies on the last page fetched.
   */
  ghost predicate Explains<E>(pages: Pages<E>, isMatch: Matcher<E>, maxPages: nat, s: ScanResult) {
    s.fetched <= maxPages &&
    match s.outcome
    case Returned(NotFound) =>
      s.fetched == maxPages && AllFetched(pages, maxPages) && NoMatch(isMatch, Scanned(pages, maxPages))
    case Raised =>
      1 <= s.fetched && AllFetched(pages, s.fetched - 1) && pages(s.fetched - 1).None? &&
      NoMatch(isMatch, Scanned(pages, s.fetched - 1))
    case Returned(Found(r)) =>
      1 <= s.fetched && AllFetched(pages, s.fetched) &&
      |Scanned(pages, s.fetched - 1)| < r &&
      IsFirstMatch(isMatch, Scanned(pages, s.fetched), r - 1)
  }
}
