/** Properties of the paginated scan, proved for every search provider and page budget. */
module RankFacts {
  import opened Wrappers
  import opened Search
  import opened RankSpec

  /** Scanning more pages only extends the concatenation. */
  lemma {:induction false} ScannedGrows<E>(pages: Pages<E>, m: nat, n: nat)
    requires m <= n
    ensures Scanned(pages, m) <= Scanned(pages, n)
    decreases n - m
  {
    if m < n {
      ScannedGrows(pages, m, n - 1);
    }
  }

  /** `FirstMatch` is the index of the first match, or the length when there is none. */
  lemma {:induction false} FirstMatchSpec<E>(isMatch: Matcher<E>, entries: seq<E>)
    ensures FirstMatch(isMatch, entries) <= |entries|
    ensures forall j :: 0 <= j < FirstMatch(isMatch, entries) ==> !isMatch(entries[j])
    ensures FirstMatch(isMatch, entries) < |entries| ==> isMatch(entries[FirstMatch(isMatch, entries)])
    decreases |entries|
  {
    if entries != [] && !isMatch(entries[0]) {
      FirstMatchSpec(isMatch, entries[1..]);
    }
  }

  /** `FirstMatch` finds the first match. */
  lemma {:induction false} FirstMatchIsFirst<E>(isMatch: Matcher<E>, entries: seq<E>, k: nat)
    requires IsFirstMatch(isMatch, entries, k)
    ensures FirstMatch(isMatch, entries) == k
  {
    FirstMatchSpec(isMatch, entries);
  }

  /** `FirstMatch` reports no match on entries none of which matches. */
  lemma {:induction false} FirstMatchOfNone<E>(isMatch: Matcher<E>, entries: seq<E>)
    requires NoMatch(isMatch, entries)
    ensures FirstMatch(isMatch, entries) == |entries|
  {
    FirstMatchSpec(isMatch, entries);
  }

  /** A page that returns appends its entries to the concatenation. */
  lemma {:induction false} ScannedStep<E>(pages: Pages<E>, page: nat)
    requires pages(page).Some?
    ensures Scanned(pages, page + 1) == Scanned(pages, page) + pages(page).value
  {
  }

  lemma {:induction false} ScannedLengthStep<E>(pages: Pages<E>, page: nat)
    requires pages(page).Some?
    ensures |Scanned(pages, page + 1)| == |Scanned(pages, page)| + |pages(page).value|
  {
  }

  lemma {:induction false} NoMatchAppend<E>(isMatch: Matcher<E>, a: seq<E>, b: seq<E>)
    requires NoMatch(isMatch, a) && NoMatch(isMatch, b)
    ensures NoMatch(isMatch, a + b)
  {
    forall j | 0 <= j < |a + b| ensures !isMatch((a + b)[j]) {
      if j < |a| {
        assert (a + b)[j] == a[j];
      } else {
        assert (a + b)[j] == b[j - |a|];
      }
    }
  }

  /** A sequence has at most one first match. */
  lemma {:induction false} FirstMatchUnique<E>(isMatch: Matcher<E>, entries: seq<E>, m: nat, m': nat)
    requires IsFirstMatch(isMatch, entries, m) && IsFirstMatch(isMatch, entries, m')
    ensures m == m'
  {
  }

  /** Behind entries that do not match, the first match of `b` is the first match of `a + b`. */
  lemma {:induction false} FirstMatchAfter<E>(isMatch: Matcher<E>, a: seq<E>, b: seq<E>, k: nat)
    requires NoMatch(isMatch, a) && IsFirstMatch(isMatch, b, k)
    ensures IsFirstMatch(isMatch, a + b, |a| + k)
  {
    assert (a + b)[|a| + k] == b[k];
    forall j | 0 <= j < |a| + k ensures !isMatch((a + b)[j]) {
      if j < |a| {
        assert (a + b)[j] == a[j];
      } else {
        assert (a + b)[j] == b[j - |a|];
      }
    }
  }

  /** One step of the scan over a page that returns. */
  lemma {:induction false} ScanFromStep<E>(pages: Pages<E>, isMatch: Matcher<E>, page: nat, maxPages: nat, counter: nat)
    requires page < maxPages && pages(page).Some?
    ensures var entries := pages(page).value;
      var k := FirstMatch(isMatch, entries);
      ScanFrom(pages, isMatch, page, maxPages, counter)
        == if k < |entries| then ScanResult(Returned(Found(counter + k + 1)), page + 1)
           else ScanFrom(pages, isMatch, page + 1, maxPages, counter + |entries|)
  {
  }

  /** A page whose request raises ends the scan there. */
  lemma {:induction false} ScanFromRaises<E>(pages: Pages<E>, isMatch: Matcher<E>, page: nat, maxPages: nat, counter: nat)
    requires page < maxPages && pages(page).None?
    ensures ScanFrom(pages, isMatch, page, maxPages, counter) == ScanResult(Raised, page + 1)
  {
  }

  lemma {:induction false} AllFetchedStep<E>(pages: Pages<E>, page: nat)
    requires AllFetched(pages, page) && pages(page).Some?
    ensures AllFetched(pages, page + 1)
  {
  }

  /** Behind pages without a match, the first match on the next page is the first overall. */
  lemma {:induction false} FirstMatchOnPage<E>(pages: Pages<E>, isMatch: Matcher<E>, page: nat, k: nat)
    requires pages(page).Some? && NoMatch(isMatch, Scanned(pages, page))
    requires IsFirstMatch(isMatch, pages(page).value, k)
    ensures IsFirstMatch(isMatch, Scanned(pages, page + 1), |Scanned(pages, page)| + k)
  {
    ScannedStep(pages, page);
    FirstMatchAfter(isMatch, Scanned(pages, page), pages(page).value, k);
  }

  /** A page without a match extends a concatenation without one. */
  lemma {:induction false} NoMatchThroughPage<E>(pages: Pages<E>, isMatch: Matcher<E>, page: nat)
    requires pages(page).Some? && NoMatch(isMatch, Scanned(pages, page))
    requires NoMatch(isMatch, pages(page).value)
    ensures NoMatch(isMatch, Scanned(pages, page + 1))
  {
    ScannedStep(pages, page);
    NoMatchAppend(isMatch, Scanned(pages, page), pages(page).value);
  }

  /** A scan that stops with a first match on the last page fetched is explained by it. */
  lemma {:induction false} ExplainsFound<E>(pages: Pages<E>, isMatch: Matcher<E>, maxPages: nat, fetched: nat, r: nat)
    requires 1 <= fetched <= maxPages && AllFetched(pages, fetched)
    requires |Scanned(pages, fetched - 1)| < r
    requires IsFirstMatch(isMatch, Scanned(pages, fetched), r - 1)
    ensures Explains(pages, isMatch, maxPages, ScanResult(Returned(Found(r)), fetched))
  {
  }

  /** A match on a page after pages without one is explained by that page. */
  lemma {:induction false} ExplainsMatchOnPage<E>(pages: Pages<E>, isMatch: Matcher<E>, maxPages: nat, page: nat, k: nat)
    requires page < maxPages && pages(page).Some?
    requires AllFetched(pages, page) && NoMatch(isMatch, Scanned(pages, page))
    requires IsFirstMatch(isMatch, pages(page).value, k)
    ensures Explains(pages, isMatch, maxPages,
                     ScanResult(Returned(Found(|Scanned(pages, page)| + k + 1)), page + 1))
  {
    var fetched := page + 1;
    assert fetched - 1 == page;
    AllFetchedStep(pages, page);
    FirstMatchOnPage(pages, isMatch, page, k);
    ExplainsFound(pages, isMatch, maxPages, fetched, |Scanned(pages, page)| + k + 1);
  }

  /** A scan that fetched every page without a match returns NotFound. */
  lemma ExplainsNotFound<E>(pages: Pages<E>, isMatch: Matcher<E>, maxPages: nat)
    requires AllFetched(pages, maxPages) && NoMatch(isMatch, Scanned(pages, maxPages))
    ensures Explains(pages, isMatch, maxPages, ScanResult(Returned(NotFound), maxPages))
  {
  }

  /** A scan raises at the first failed request when nothing matched before it. */
  lemma ExplainsRaised<E>(pages: Pages<E>, isMatch: Matcher<E>, maxPages: nat, page: nat)
    requires page < maxPages && pages(page).None?
    requires AllFetched(pages, page) && NoMatch(isMatch, Scanned(pages, page))
    ensures Explains(pages, isMatch, maxPages, ScanResult(Raised, page + 1))
  {
    assert page + 1 - 1 == page;
  }

  /** The scan from any page on which the pages before were fetched without a match. */
  lemma {:induction false} ScanFromExplained<E>(pages: Pages<E>, isMatch: Matcher<E>,
                                             page: nat, maxPages: nat, counter: nat)
    requires page <= maxPages
    requires counter == |Scanned(pages, page)|
    requires AllFetched(pages, page)
    requires NoMatch(isMatch, Scanned(pages, page))
    ensures Explains(pages, isMatch, maxPages,
                     ScanFrom(pages, isMatch, page, maxPages, counter))
    decreases maxPages - page
  {
    if page == maxPages {
      assert ScanFrom(pages, isMatch, page, maxPages, counter) == ScanResult(Returned(NotFound), maxPages);
      ExplainsNotFound(pages, isMatch, maxPages);
    } else if pages(page).None? {
      ScanFromRaises(pages, isMatch, page, maxPages, counter);
      ExplainsRaised(pages, isMatch, maxPages, page);
    } else if FirstMatch(isMatch, pages(page).value) < |pages(page).value| {
      ExplainsScanMatch(pages, isMatch, page, maxPages, counter);
    } else {
      PassPage(pages, isMatch, page, maxPages, counter);
      ScanFromExplained(pages, isMatch, page + 1, maxPages, counter + |pages(page).value|);
    }
  }

  /** The step of ScanFromExplained on a page with a match. */
  lemma ExplainsScanMatch<E>(pages: Pages<E>, isMatch: Matcher<E>, page: nat, maxPages: nat, counter: nat)
    requires page < maxPages && pages(page).Some?
    requires FirstMatch(isMatch, pages(page).value) < |pages(page).value|
    requires counter == |Scanned(pages, page)|
    requires AllFetched(pages, page) && NoMatch(isMatch, Scanned(pages, page))
    ensures Explains(pages, isMatch, maxPages, ScanFrom(pages, isMatch, page, maxPages, counter))
  {
    var entries := pages(page).value;
    var k := FirstMatch(isMatch, entries);
    FirstMatchSpec(isMatch, entries);
    ScanFromStep(pages, isMatch, page, maxPages, counter);
    ExplainsMatchOnPage(pages, isMatch, maxPages, page, k);
  }

  /** The step of ScanFromExplained on a fetched page without a match: the scan goes on with the next page. */
  lemma PassPage<E>(pages: Pages<E>, isMatch: Matcher<E>, page: nat, maxPages: nat, counter: nat)
    requires page < maxPages && pages(page).Some?
    requires FirstMatch(isMatch, pages(page).value) >= |pages(page).value|
    requires counter == |Scanned(pages, page)|
    requires AllFetched(pages, page) && NoMatch(isMatch, Scanned(pages, page))
    ensures ScanFrom(pages, isMatch, page, maxPages, counter)
         == ScanFrom(pages, isMatch, page + 1, maxPages, counter + |pages(page).value|)
    ensures counter + |pages(page).value| == |Scanned(pages, page + 1)|
    ensures AllFetched(pages, page + 1) && NoMatch(isMatch, Scanned(pages, page + 1))
  {
    FirstMatchSpec(isMatch, pages(page).value);
    ScanFromStep(pages, isMatch, page, maxPages, counter);
    AllFetchedStep(pages, page);
    NoMatchThroughPage(pages, isMatch, page);
    ScannedLengthStep(pages, page);
  }

  /** Every scan result is explained by the pages the provider returns. */
  lemma {:induction false} ScanExplained<E>(pages: Pages<E>, isMatch: Matcher<E>, maxPages: nat)
    ensures Explains(pages, isMatch, maxPages, Scan(pages, isMatch, maxPages))
  {
    ScanFromExplained(pages, isMatch, 0, maxPages, 0);
  }

  /**
   * NotFound exactly when all `maxPages` requests return and no entry of the
   * concatenated pages matches; it then has requested all `maxPages` pages.
   */
  lemma {:induction false} NotFoundIff<E>(pages: Pages<E>, isMatch: Matcher<E>, maxPages: nat)
    ensures var s := Scan(pages, isMatch, maxPages);
      s.outcome == Returned(NotFound) <==>
        AllFetched(pages, maxPages) &&
        NoMatch(isMatch, Scanned(pages, maxPages))
    ensures var s := Scan(pages, isMatch, maxPages);
      s.outcome == Returned(NotFound) ==> s.fetched == maxPages
  {
    var s := Scan(pages, isMatch, maxPages);
    ScanExplained(pages, isMatch, maxPages);
    ScannedGrows(pages, s.fetched, maxPages);
  }

  /** The first match of an extension is the first match of a prefix that has one. */
  lemma {:induction false} FirstMatchOfPrefix<E>(isMatch: Matcher<E>, a: seq<E>, b: seq<E>, r: nat)
    requires a <= b && IsFirstMatch(isMatch, a, r)
    ensures IsFirstMatch(isMatch, b, r)
  {
    assert b[r] == a[r];
    forall j | 0 <= j < r ensures !isMatch(b[j]) {
      assert b[j] == a[j];
    }
  }

  lemma {:induction false} NoMatchNoFirstMatch<E>(isMatch: Matcher<E>, entries: seq<E>, m: nat)
    requires NoMatch(isMatch, entries)
    ensures !IsFirstMatch(isMatch, entries, m)
  {
    if m < |entries| {
      assert !isMatch(entries[m]);
    }
  }

  /** The first match overall lies on the first page, after pages without one, that has a match. */
  lemma {:induction false} FirstMatchFromPage<E>(pages: Pages<E>, isMatch: Matcher<E>,
                                                 page: nat, n: nat, k: nat, m: nat)
    requires page < n && pages(page).Some? && NoMatch(isMatch, Scanned(pages, page))
    requires IsFirstMatch(isMatch, pages(page).value, k)
    requires IsFirstMatch(isMatch, Scanned(pages, n), m)
    ensures m == |Scanned(pages, page)| + k
  {
    ScannedGrows(pages, page + 1, n);
    FirstMatchOnPage(pages, isMatch, page, k);
    FirstMatchOfPrefix(isMatch, Scanned(pages, page + 1), Scanned(pages, n), |Scanned(pages, page)| + k);
    FirstMatchUnique(isMatch, Scanned(pages, n), |Scanned(pages, page)| + k, m);
  }

  /** From a page before the first match on, the scan finds that match. */
  lemma {:induction false} ScanFromFindsFirst<E>(pages: Pages<E>, isMatch: Matcher<E>,
                                              page: nat, maxPages: nat, counter: nat, n: nat, m: nat)
    requires page <= n <= maxPages && AllFetched(pages, n)
    requires counter == |Scanned(pages, page)|
    requires NoMatch(isMatch, Scanned(pages, page))
    requires IsFirstMatch(isMatch, Scanned(pages, n), m)
    ensures ScanFrom(pages, isMatch, page, maxPages, counter).outcome == Returned(Found(m + 1))
    decreases n - page
  {
    NoMatchNoFirstMatch(isMatch, Scanned(pages, page), m);
    if page < n {
      var entries := pages(page).value;
      var k := FirstMatch(isMatch, entries);
      FirstMatchSpec(isMatch, entries);
      ScanFromStep(pages, isMatch, page, maxPages, counter);
      if k < |entries| {
        FirstMatchFromPage(pages, isMatch, page, n, k, m);
      } else {
        NoMatchThroughPage(pages, isMatch, page);
        ScannedLengthStep(pages, page);
        ScanFromFindsFirst(pages, isMatch, page + 1, maxPages, counter + |entries|, n, m);
      }
    } else {
      assert false;
    }
  }

  /**
   * A scan over pages 0 .. n-1, all returned, whose concatenation holds a
   * matching entry finds the first one: its 1-based position in the
   * concatenation, counted across page boundaries.
   */
  lemma {:induction false} FoundIsFirstMatch<E>(pages: Pages<E>, isMatch: Matcher<E>,
                          maxPages: nat, n: nat)
    requires n <= maxPages && AllFetched(pages, n)
    requires FirstMatch(isMatch, Scanned(pages, n)) < |Scanned(pages, n)|
    ensures Scan(pages, isMatch, maxPages).outcome
         == Returned(Found(FirstMatch(isMatch, Scanned(pages, n)) + 1))
  {
    FirstMatchSpec(isMatch, Scanned(pages, n));
    ScanFromFindsFirst(pages, isMatch, 0, maxPages, 0, n, FirstMatch(isMatch, Scanned(pages, n)));
  }

  /**
   * Raised exactly when some request before the budget runs out fails while
   * the pages before it return without a match.
   */
  lemma {:induction false} RaisedIff<E>(pages: Pages<E>, isMatch: Matcher<E>, maxPages: nat)
    ensures Scan(pages, isMatch, maxPages).outcome == Raised <==>
      exists f: nat :: f < maxPages && pages(f).None? && AllFetched(pages, f) &&
        NoMatch(isMatch, Scanned(pages, f))
  {
    var s := Scan(pages, isMatch, maxPages);
    ScanExplained(pages, isMatch, maxPages);
    if s.outcome == Raised {
      assert pages(s.fetched - 1).None?;
    }
    if exists f: nat :: f < maxPages && pages(f).None? && AllFetched(pages, f) &&
        NoMatch(isMatch, Scanned(pages, f)) {
      var f: nat :| f < maxPages && pages(f).None? && AllFetched(pages, f) &&
        NoMatch(isMatch, Scanned(pages, f));
      if s.fetched <= f {
        ScannedGrows(pages, s.fetched, f);
      }
    }
  }

  /**
   * A returned rank r lies between 1 and the number of entries scanned, entry
   * r matches and no earlier one does.
   */
  lemma {:induction false} FoundRankBounds<E>(pages: Pages<E>, isMatch: Matcher<E>, maxPages: nat)
    ensures var s := Scan(pages, isMatch, maxPages);
      s.outcome.Returned? && s.outcome.rank.Found? ==>
        var all := Scanned(pages, s.fetched);
        var r := s.outcome.rank.position;
        1 <= r <= |all| && isMatch(all[r - 1]) &&
        forall j :: 0 <= j < r - 1 ==> !isMatch(all[j])
  {
    ScanExplained(pages, isMatch, maxPages);
  }

  /** A scan requests at most `maxPages` pages, and at least one when it may request any. */
  lemma {:induction false} FetchedBounds<E>(pages: Pages<E>, isMatch: Matcher<E>, maxPages: nat)
    ensures Scan(pages, isMatch, maxPages).fetched <= maxPages
    ensures maxPages > 0 ==> Scan(pages, isMatch, maxPages).fetched >= 1
  {
    ScanExplained(pages, isMatch, maxPages);
  }

  /** A page that returns no entries hands the counter on unchanged. */
  lemma {:induction false} EmptyPageAddsNothing<E>(pages: Pages<E>, isMatch: Matcher<E>,
                                                   page: nat, maxPages: nat, counter: nat)
    requires page < maxPages && pages(page) == Some([])
    ensures ScanFrom(pages, isMatch, page, maxPages, counter)
         == ScanFrom(pages, isMatch, page + 1, maxPages, counter)
    ensures Scanned(pages, page + 1) == Scanned(pages, page)
  {
    ScanFromStep(pages, isMatch, page, maxPages, counter);
    ScannedStep(pages, page);
  }

  lemma {:induction false} NothingPassesNoFirstMatch<E>(isMatch: Matcher<E>, entries: seq<E>)
    requires forall c :: !isMatch(c)
    ensures forall m: nat :: !IsFirstMatch(isMatch, entries, m)
  {
    forall m: nat ensures !IsFirstMatch(isMatch, entries, m) {
      if m < |entries| {
        assert !isMatch(entries[m]);
      }
    }
  }

  /**
   * A match test that nothing passes (the matchers' test for an empty
   * target) never yields Found, and when every request returns the scan
   * reads all `maxPages` pages before NotFound.
   */
  lemma {:induction false} NeverMatchingNeverFound<E>(pages: Pages<E>, isMatch: Matcher<E>, maxPages: nat)
    requires forall c :: !isMatch(c)
    ensures !Scan(pages, isMatch, maxPages).outcome.Returned?
         || Scan(pages, isMatch, maxPages).outcome.rank == NotFound
    ensures AllFetched(pages, maxPages) ==>
      Scan(pages, isMatch, maxPages) == ScanResult(Returned(NotFound), maxPages)
  {
    ScanExplained(pages, isMatch, maxPages);
    NotFoundIff(pages, isMatch, maxPages);
    NothingPassesNoFirstMatch(isMatch, Scanned(pages, Scan(pages, isMatch, maxPages).fetched));
  }
}
