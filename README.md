# keyword_rank in Dafny

A model of the rank-checking core of `keyword_rank.py`, the SEO agent that
reads keyword/target-page rows from a spreadsheet and, for each row, looks up
where the target appears in Google results fetched from a search API.

- `get_links_rank(keyword, target_url, max_pages=5)`, the organic matcher.
  It takes the target's network location (`urlparse(...).netloc`) and deletes
  every "www." from it. It then requests result pages at offsets 0, 10, 20, ...
  and counts organic results across pages with a single counter. It returns
  the counter value of the first result whose `link` contains the domain, or
  "Not Found" after `max_pages` pages.
- `get_places_rank(keyword, target_url, max_pages=5)`, the places matcher.
  It normalises the target by deleting "https://", then "http://", then
  "www.". It normalises each local result's `website` the same way before
  the containment test. A page without local results is skipped and adds
  nothing to the counter.
- The row loop of `run_agent`. Each row's keyword and target are stripped.
  A blank row gets "Skipped" in both columns. Otherwise the places matcher
  runs, then the links matcher. Both cells are filled only after both return,
  and if either raises, both cells are "Error".

## Files and modules

- `wrappers.dfy` (`Wrappers`): the optional value used for absent JSON keys
  (`dict.get(key, default)`) and for search calls that raise.
- `text.dfy` (`Text`): Python's `in` on strings (`IsSubstring`) and
  `str.replace(p, "")` (`ReplaceAll`, a single left-to-right pass). It also
  has `str.strip()` (`Trim`), which strips every character `str.isspace()`
  accepts.
- `url.dfy` (`Url`, `UrlFacts`): `urlparse(url).netloc` following CPython's
  `urlsplit`.
  - Leading C0 controls and spaces are stripped.
  - Tab, CR and LF are deleted.
  - A leading `scheme:` is split off.
  - The network location is the text after `//` up to the first `/`, `?` or
    `#`; without `//` it is empty.
  - A network location with an unbalanced `[` or `]` raises ValueError,
    modelled as None.
  - The module also holds both normalisations (`LinksDomain`, `PlacesKey`)
    and facts about them.
- `search.dfy` (`Search`): the search API as a function
  `SearchFn = (keyword, start) -> Option<Response>`, where None means the
  call raised. It also gives the response fields each matcher reads.
- `rank_spec.dfy` (`RankSpec`): what a matcher computes.
  - `Scan` reads pages 0 .. maxPages-1 in order. A failed request raises, a
    page with a matching entry returns that entry's global 1-based position,
    and the last page without a match returns NotFound.
  - The scan is written once, generic over the entry type, and instantiated
    as `LinksScan` and `PlacesScan`.
  - `Scanned` and `Explains` give an independent, concatenation-based reading
    of the same result.
- `rank_facts.dfy` (`RankFacts`): properties of the generic scan.
- `rank_properties.dfy` (`RankProperties`): the same properties stated for
  the two matchers.
- `agent_spec.dfy` (`AgentSpec`): the per-row policy (`RunRow`) and the
  columns and searches of a whole run.
  - The policy is stated for any pair of matcher calls (`RankCall`).
  - `PlacesCall` and `LinksCall` are the real matchers with `max_pages=5`.
- `keyword_rank.dfy` (`KeywordRank`): the source's loops as methods.
  - Each matcher is split into four methods:
    1. `GetLinksRank` / `GetPlacesRank` compute the domain or key.
    2. `RankLinksByDomain` / `RankPlacesByKey` run the page loop.
    3. `LinksPage` / `PlacesPage` handle one pass of that loop.
    4. `ScanOrganicResults` / `ScanLocalResults` run the entry loop.
  - The loops, the early returns, the shared counter and the `continue` on
    an empty places page are kept.
  - `LinksPage` / `PlacesPage` return the offset they pass to the search
    (`10 * page`), and the page loops return the list of those offsets, so
    the "no request after a match" and "exactly `max_pages` requests"
    properties are about the code.
  - `CheckRow` and `RunAgent` are the row loop of `run_agent`. It appends to
    the two columns and records every `(keyword, start)` search.

The search API is an input to the model: `SearchFn` maps a keyword and
offset to a response or a failure. I/O, sleeping and printing are not
modelled.

Points about the code worth knowing:

- The organic matcher deletes every "www." in the network location, wherever
  it occurs. Because the deletion is a single left-to-right pass,
  "wwwww.w." becomes "www." (`Text.ReplaceAllIsSinglePass`).
- The places matcher deletes every occurrence of "https://", "http://" and
  "www.", anywhere in the text, path included.
- A skipped row reaches `continue` before `time.sleep(5)`, so the
  inter-row delay does not follow a skipped row. The delay itself is left
  out.
- A target that has neither a scheme nor a leading "//" once urlsplit has
  cleaned it has an empty network location. Examples are "www.example.com",
  "example.com/a:b" and "/page". The organic matcher therefore never finds
  it (`RankProperties.SchemelessTargetNeverFound`). For urlsplit, a scheme
  is text before the first ':' that starts with an ASCII letter and holds
  only scheme characters (`Url.HasScheme`). So "example.com:8080" is read
  as scheme "example.com" and also has an empty network location.

## Model

| member | source | states |
|---|---|---|
| KeywordRank.ScanOrganicResults | keyword_rank.py:42-47 | the counter rises by one per organic result up to and including the first whose link contains the domain; `found` holds exactly when such a result exists; without one the counter rises by the number of results |
| KeywordRank.ScanLocalResults | keyword_rank.py:71-77 | the same for local results, each website normalised like the target before the test |
| KeywordRank.LinksPage | keyword_rank.py:38-49 | one page of the organic matcher, searched at offset `10 * page`: a failed search raises; a match returns its global position; otherwise the scan goes on at the next page with the advanced counter, as `ScanFrom` says |
| KeywordRank.PlacesPage | keyword_rank.py:64-79 | one page of the places matcher, searched at offset `10 * page`, including the skip of a page without local results |
| KeywordRank.RankLinksByDomain | keyword_rank.py:35-51 | the page loop returns the outcome of the organic scan and requests exactly offsets 0, 10, ..., 10·(k−1) for the k pages that scan fetches |
| KeywordRank.RankPlacesByKey | keyword_rank.py:61-81 | the same for the places scan |
| KeywordRank.GetLinksRank | keyword_rank.py:33-51 | `get_links_rank`: outcome and requests are those of `LinksScan`, which raises before any request when urlparse raises |
| KeywordRank.GetPlacesRank | keyword_rank.py:59-81 | `get_places_rank`: outcome and requests are those of `PlacesScan` |
| KeywordRank.OffsetsStep | keyword_rank.py:37-38 | page `page` is requested at offset `10 * page`, after the offsets of the pages before it |
| KeywordRank.CheckRow | keyword_rank.py:100-125 | one row's cells and searches are those `RunRow` gives for the real matchers |
| KeywordRank.RunAgent | keyword_rank.py:97-125 | the two columns hold one cell per input row, in row order, each the row's `RunRow` cell; the searches are all rows' searches, row after row |
| RankSpec.ScanFrom | keyword_rank.py:37-51 | the scan from a page within the budget requests that page and no page beyond the budget |
| RankSpec.Scan | keyword_rank.py:37-51 | a whole scan requests at most `maxPages` pages, and at least one when `maxPages` > 0 |
| RankSpec.LinksScan | keyword_rank.py:33-51 | the organic scan raises before any request when urlparse raises, and requests at most `maxPages` pages |
| RankSpec.PlacesScan | keyword_rank.py:59-81 | the places scan requests between 1 and `maxPages` pages when `maxPages` > 0, never more |
| RankSpec.Websites | keyword_rank.py:71-74 | one normalised website per local result, in order, each the result's `website` (or "") put through the places normalisation |
| Search.OrganicResultsOf | keyword_rank.py:40 | `results.get("organic_results", [])`: the field's list when present, the empty list otherwise |
| Search.LocalResultsOf | keyword_rank.py:66 | `results.get("local_results", [])`: the field's list when present, the empty list otherwise |
| Search.LinkOf | keyword_rank.py:44 | `result.get("link", "")`: the link when present, "" otherwise |
| Search.WebsiteOf | keyword_rank.py:73 | `place.get("website", "")`: the website when present, "" otherwise |
| Search.Links | keyword_rank.py:42-44 | one link per organic result, in order |
| RankFacts.FirstMatchSpec | keyword_rank.py:42-47 | `FirstMatch` is the index of the first matching entry (none before it matches), or the length when none matches |
| RankFacts.ScanExplained | keyword_rank.py:37-51 | every scan result is explained by the concatenated pages: NotFound after all pages returned with no match; Raised at the first failed request with no match before it; Found(r) with entry r the first match, on the last page fetched |
| RankFacts.FoundIsFirstMatch | keyword_rank.py:35-47 | when the fetched pages' concatenation holds a match, the rank is one plus the index of the first one; the counter runs across page boundaries |
| RankFacts.NotFoundIff | keyword_rank.py:46-51 | NotFound exactly when all `maxPages` requests return and no entry matches; it then has fetched all `maxPages` pages |
| RankFacts.RaisedIff | keyword_rank.py:37-39 | the scan raises exactly when some request within the budget fails while the pages before it return with no match |
| RankFacts.FoundRankBounds | keyword_rank.py:42-47 | a returned rank r satisfies 1 ≤ r ≤ the number of entries fetched; entry r matches and no earlier one does |
| RankFacts.FetchedBounds | keyword_rank.py:37-39 | a scan requests at most `maxPages` pages, and at least one when `maxPages` > 0 |
| RankFacts.EmptyPageAddsNothing | keyword_rank.py:68-69 | a page with no entries leaves the counter and the concatenation unchanged |
| RankFacts.NeverMatchingNeverFound | keyword_rank.py:46-51 | a match test nothing passes never yields Found, and with all requests returning the scan is NotFound after `maxPages` pages |
| RankFacts.FirstMatchUnique | keyword_rank.py:42-47 | there is only one first match |
| RankProperties.LinksFetched | keyword_rank.py:33-39 | the organic matcher raises with no request exactly when urlparse raises; otherwise it requests at most `maxPages` pages, at least one when `maxPages` > 0 |
| RankProperties.PlacesFetched | keyword_rank.py:63-65 | the places matcher requests between 1 and `maxPages` pages when `maxPages` > 0 |
| RankProperties.LinksFoundIsFirstContaining | keyword_rank.py:42-47 | an organic rank r is the position of the first link containing the domain among all links fetched, and it lies on the last page fetched |
| RankProperties.PlacesFoundIsFirstContaining | keyword_rank.py:71-77 | a places rank r is the position of the first normalised website containing the key, and it lies on the last page fetched |
| RankProperties.LinksNotFoundIff | keyword_rank.py:37-51 | organic NotFound exactly when urlparse succeeds, all pages return and no link contains the domain; then all `maxPages` pages were fetched |
| RankProperties.PlacesNotFoundIff | keyword_rank.py:63-81 | places NotFound exactly when all pages return and no normalised website contains the key; then all `maxPages` pages were fetched |
| RankProperties.LinksEmptyDomainNeverFound | keyword_rank.py:46 | an empty domain never yields a rank; with all requests returning the result is NotFound after `maxPages` pages |
| RankProperties.PlacesEmptyKeyNeverFound | keyword_rank.py:76 | the same for a target that normalises to the empty text |
| RankProperties.SchemelessTargetNeverFound | keyword_rank.py:34 | a target that, after urlsplit strips leading controls and deletes tabs and line breaks, has neither a scheme nor a leading "//" never gets an organic rank |
| RankProperties.PlacesEmptyPageSkipped | keyword_rank.py:66-69 | a response without local results moves the places scan to the next page with the counter unchanged and adds nothing to the concatenation |
| AgentSpec.RunRow | keyword_rank.py:100-123 | one row's cells and searches: both cells are Skipped exactly when the row is blank, and Error together or not at all |
| AgentSpec.ErrorIff | keyword_rank.py:113-123 | a cell is Error exactly when the row is not blank and either matcher raises |
| AgentSpec.RankedCells | keyword_rank.py:114-118 | when both matchers return, each cell holds its matcher's rank |
| AgentSpec.LinksRaiseDiscardsPlacesRank | keyword_rank.py:114-118 | a places rank already computed is discarded when the links matcher raises |
| AgentSpec.SkippedIffBlank | keyword_rank.py:101-108 | a cell is Skipped exactly when the keyword or the target is all whitespace; then both cells are Skipped and no search is made |
| AgentSpec.RowQueries | keyword_rank.py:113-115 | a row's searches are the places matcher's, then the links matcher's only when the places matcher returned |
| AgentSpec.QueriesAtOffsets | keyword_rank.py:37-39 | the searches of a k-page scan are k searches for the keyword at multiples of ten below 10·k |
| AgentSpec.CallsFetchBounds | keyword_rank.py:114-115 | with `max_pages=5` the places matcher requests 1 to 5 pages and the links matcher at most 5 |
| AgentSpec.RowQueriesBounds | keyword_rank.py:113-115 | for any matchers within those bounds, a non-blank row makes between 1 and 10 searches, all for the stripped keyword at offsets 0, 10, ..., 40 |
| AgentSpec.MatcherRowQueriesBounds | keyword_rank.py:113-115 | the same for the real matchers: a non-blank row makes between 1 and 10 searches, all for the stripped keyword at offsets 0, 10, ..., 40 |
| AgentSpec.PlacesRaiseStopsRow | keyword_rank.py:114-115 | when the places matcher raises, the links matcher makes no search |
| AgentSpec.PlacesColumn | keyword_rank.py:97-118 | the places column has exactly one cell per row |
| AgentSpec.LinksColumn | keyword_rank.py:97-118 | the links column has exactly one cell per row |
| AgentSpec.RunStep | keyword_rank.py:100-123 | one more row adds its cells at the end of both columns and its searches at the end of the run's |
| AgentSpec.AllQueriesAppend | keyword_rank.py:100-115 | the searches of a run are those of its rows, in row order, for any split of the rows |
| AgentSpec.BlankRowsSearchNothing | keyword_rank.py:105-108 | blank rows make no search |
| Text.IsSubstring | keyword_rank.py:46 | `p in s` holds only for a `p` no longer than `s`, and always for the empty `p` (hence the `domain and` guard) |
| Text.IsSubstringIff | keyword_rank.py:46 | the recursive substring test agrees with "occurs at some position" |
| Text.ReplaceAll | keyword_rank.py:34 | `replace(p, "")` never lengthens the text |
| Text.ReplaceAllShortens | keyword_rank.py:60 | when `p` occurs, at least one occurrence is deleted: the text loses at least as many characters as `p` has |
| Text.ReplaceAllUndoesJoin | keyword_rank.py:34 | `replace(p, "")` deletes every occurrence, not only a leading one: text joined with `p` between chunks loses every separator |
| Text.ReplaceAllIsSinglePass | keyword_rank.py:34 | the deletion is a single pass: "wwwww.w." becomes "www." |
| Text.ReplaceAllIdentity | keyword_rank.py:60 | deleting a pattern that does not occur changes nothing |
| Text.ReplaceAllDeletesFirst | keyword_rank.py:74 | the first occurrence the pass meets is deleted and the pass continues after it |
| Text.Trim | keyword_rank.py:101-102 | `strip()` leaves no whitespace at either end, and the result is empty exactly when the text is all whitespace |
| Text.TrimIsInfix | keyword_rank.py:101-102 | `strip()` returns a slice `s[i..j]` of the text, with only whitespace before `i` and from `j` on; with Trim's contract this fixes the result |
| Url.Netloc | keyword_rank.py:34 | `urlparse(url).netloc`, when urlparse returns, holds no '/', '?' or '#' and has '[' exactly when it has ']' |
| Url.NetlocAfterScheme | keyword_rank.py:34 | without a leading "//" the network location is empty; after "//" it is the text up to the first '/', '?' or '#' or the end; in the model, urlsplit raises (None) only on text with '[' or ']' |
| Url.RemoveUnsafe | keyword_rank.py:34 | urlsplit's deletion of tab, CR and LF leaves none of them and changes nothing in text without them |
| Url.RemoveUnsafeChar | keyword_rank.py:34 | a tab, CR or LF is deleted; any other character is kept |
| Url.RemoveUnsafeAppend | keyword_rank.py:34 | the deletion distributes over concatenation, so the kept characters stay in order |
| Url.LinksDomain | keyword_rank.py:34 | the organic domain is None exactly when urlparse raises; otherwise it is no longer than the network location, and equal to it when that holds no "www." |
| Url.PlacesKey | keyword_rank.py:60 | the places normalisation never lengthens the text and leaves text holding none of "https://", "http://", "www." unchanged |
| UrlFacts.NetlocOfAbsoluteUrl | keyword_rank.py:34 | for "scheme://host" followed by a path, query or fragment, the network location is the host |
| UrlFacts.SchemelessUrlHasEmptyNetloc | keyword_rank.py:34 | a target that, after urlsplit strips leading controls and deletes tabs and line breaks, has neither a scheme nor a leading "//" has an empty network location and domain |
| UrlFacts.SchemelessCleanUrlHasEmptyNetloc | keyword_rank.py:34 | the same for a target urlsplit does not clean (a visible first character, no tab, CR or LF) stated on the target itself |
| UrlFacts.NoSchemeBeforeColon | keyword_rank.py:34 | a character that cannot be in a scheme before the first ':' (as in "example.com/a:b") means urlsplit finds no scheme |
| UrlFacts.DropLeadingWww | keyword_rank.py:34 | a leading "www." is deleted, and nothing else, when the rest holds no "www." |
| UrlFacts.PlacesKeyKeepsPath | keyword_rank.py:60 | for a rest holding none of "https://", "http://" and "www.", the places normalisation of "https://www." + rest and of "www." + rest is rest, path included |
| UrlFacts.NormalisationAsymmetry | keyword_rank.py:60 | "https://www.example.com/page" gives "example.com" for the organic matcher and "example.com/page" for the places matcher |

## Left out

- `google_search` (keyword_rank.py:16-29): the HTTP request, status check
  and JSON decoding are left out. The search is the input function
  `SearchFn`, and a None answer stands for any exception the call raises.
  The model treats the search as deterministic: the same keyword and offset
  give the same response within a run. Both matchers of a row search the
  same keyword at the same offsets, so the model cannot express a search
  that fails for one matcher and then succeeds for the other at the same
  offset (a transient failure); `CheckRow` and `RunAgent` do not cover that
  case. The row policy in `AgentSpec` is stated for any pair of matcher
  calls (`RankCall`) and does cover it.
- Response values other than an absent key, a list of result objects and a
  string are not modelled. The model reads a results field as absent
  (defaulting to `[]`) or a list, and a `link` or `website` as absent
  (defaulting to `""`) or a string. On other values the code behaves as
  follows, and none of this is modelled:
  - `organic_results` that is `null` makes the `for` at line 42 raise; an
    empty string or empty object iterates nothing; a non-empty string or
    object iterates elements without `.get`, which raises at line 44.
  - `local_results` that is `null` or any other falsy value is skipped by
    `if not local_results: continue` (lines 68-69), like an absent key; a
    non-empty string or object raises at line 73.
  - A `link` that is `null` makes `domain in link` raise, but only when the
    domain is non-empty, since `domain and` short-circuits (line 46).
  - A `website` that is `null` makes `.replace` raise at line 74 whatever
    the key.
- urlparse details beyond the network location are left out:
  - the validation of bracketed IPv6 hosts and ports;
  - the NFKC check on network locations with non-ASCII characters.
- API-key loading with dotenv and the startup ValueError (keyword_rank.py:9-13).
- Spreadsheet I/O is left out: reading the sheet, stripping column names,
  checking the required columns, and writing the output
  (keyword_rank.py:86-95, 127-132).
  - Rows are modelled as pairs of text, so `str()` of an empty cell
    (pandas NaN, which becomes "nan") is not modelled.
- `time.sleep` (keyword_rank.py:49, 79, 125) and `print`
  (keyword_rank.py:110, 121, 132) have no functional content.
