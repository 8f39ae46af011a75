/**
 * The search provider as the matchers see it. `google_search(keyword, start)`
 * is an HTTP call; here it is a function from keyword and result offset to the
 * decoded JSON response, or None when the call raises (a transport error, a
 * non-2xx status or a body that is not JSON).
 */
module Search {
  import opened Wrappers

  /** One element of `organic_results`; `link` is None when the key is absent. */
  datatype OrganicResult = OrganicResult(link: Option<string>)

  /** One element of `local_results`; `website` is None when the key is absent. */
  datatype LocalResult = LocalResult(website: Option<string>)

  /** The parts of a response the matchers read; an absent key is None. */
  datatype Response = Response(
    organicResults: Option<seq<OrganicResult>>,
    localResults: Option<seq<LocalResult>>)

  /** `google_search(keyword, start=start)`: the response, or None when the call raises. */
  type SearchFn = (string, nat) -> Option<Response>

  /** `results.get("organic_results", [])`. */
  function OrganicResultsOf(r: Response): (results: seq<OrganicResult>)
    ensures r.organicResults.Some? ==> results == r.organicResults.value
    ensures r.organicResults.None? ==> results == []
  {
    r.organicResults.GetOr([])
  }

  /** `results.get("local_results", [])`. */
  function LocalResultsOf(r: Response): (results: seq<LocalResult>)
    ensures r.localResults.Some? ==> results == r.localResults.value
    ensures r.localResults.None? ==> results == []
  {
    r.localResults.GetOr([])
  }

  /** `result.get("link", "")`. */
  function LinkOf(e: OrganicResult): (link: string)
    ensures e.link.Some? ==> link == e.link.value
    ensures e.link.None? ==> link == ""
  {
    e.link.GetOr("")
  }

  /** `place.get("website", "")`. */
  function WebsiteOf(e: LocalResult): (website: string)
    ensures e.website.Some? ==> website == e.website.value
    ensures e.website.None? ==> website == ""
  {
    e.website.GetOr("")
  }

  /** The links of organic results, in order. */
  function Links(results: seq<OrganicResult>): (links: seq<string>)
    ensures |links| == |results|
    ensures forall i :: 0 <= i < |results| ==> links[i] == LinkOf(results[i])
  {
    seq(|results|, i requires 0 <= i < |results| => LinkOf(results[i]))
  }
}
