/**
 * The Python string operations the rank matchers rely on: the `in` test,
 * `str.replace(old, "")` and `str.strip()`.
 */
module Text {

  /**
   * Python's `p in s`: `p` occurs in `s` as a contiguous slice. Only a pattern
   * no longer than `s` occurs in it, and the empty pattern occurs in every
   * string, which is why both matchers guard the test with `domain and`.
   */
  predicate IsSubstring(p: string, s: string)
    ensures IsSubstring(p, s) ==> |p| <= |s|
    ensures p == [] ==> IsSubstring(p, s)
    decreases |s|
  {
    p <= s || (s != [] && IsSubstring(p, s[1..]))
  }

  /** `p` occurs in `s` starting at index `i`. */
  ghost predicate OccursAt(p: string, s: string, i: int) {
    0 <= i && i + |p| <= |s| && s[i..i + |p|] == p
  }

  /** The recursive test agrees with the positional definition of "occurs in". */
  lemma IsSubstringIff(p: string, s: string)
    ensures IsSubstring(p, s) <==> exists i :: OccursAt(p, s, i)
  {
    if IsSubstring(p, s) {
      var i := OccurrenceOf(p, s);
    }
    if exists i :: OccursAt(p, s, i) {
      var i :| OccursAt(p, s, i);
      OccurrenceIsSubstring(p, s, i);
    }
  }

  /** Where the recursive test finds `p`. */
  lemma {:induction false} OccurrenceOf(p: string, s: string) returns (i: nat)
    requires IsSubstring(p, s)
    ensures OccursAt(p, s, i)
    decreases |s|
  {
    if p <= s {
      i := 0;
    } else {
      var j := OccurrenceOf(p, s[1..]);
      i := j + 1;
      assert s[i..i + |p|] == s[1..][j..j + |p|];
    }
  }

  /** An occurrence at any position is found by the recursive test. */
  lemma {:induction false} OccurrenceIsSubstring(p: string, s: string, i: nat)
    requires OccursAt(p, s, i)
    ensures IsSubstring(p, s)
    decreases i
  {
    if i > 0 {
      assert s[1..][i - 1..i - 1 + |p|] == s[i..i + |p|];
      OccurrenceIsSubstring(p, s[1..], i - 1);
    }
  }

  /** An occurrence survives appending text after it. */
  lemma {:induction false} IsSubstringAppend(p: string, s: string, t: string)
    requires IsSubstring(p, s)
    ensures IsSubstring(p, s + t)
    decreases |s|
  {
    if p <= s {
      assert (s + t)[..|p|] == s[..|p|];
    } else {
      IsSubstringAppend(p, s[1..], t);
      assert (s + t)[1..] == s[1..] + t;
    }
  }

  /** A non-empty pattern whose first character never appears in `s` does not occur in `s`. */
  lemma {:induction false} NotSubstringWithoutFirstChar(p: string, s: string)
    requires p != [] && p[0] !in s
    ensures !IsSubstring(p, s)
    decreases |s|
  {
    if s != [] {
      assert s[0] != p[0];
      NotSubstringWithoutFirstChar(p, s[1..]);
    }
  }

  /** Text whose characters cannot start `p`, put in front, creates no occurrence. */
  lemma {:induction false} NotSubstringPrepend(p: string, a: string, b: string)
    requires p != [] && p[0] !in a && !IsSubstring(p, b)
    ensures !IsSubstring(p, a + b)
    decreases |a|
  {
    if a == [] {
      assert a + b == b;
    } else {
      assert (a + b)[0] != p[0];
      assert !(p <= a + b);
      NotSubstringPrepend(p, a[1..], b);
      assert (a + b)[1..] == a[1..] + b;
    }
  }

  /**
   * Python's `s.replace(p, "")` for a non-empty `p`: one left-to-right pass that
   * deletes every non-overlapping occurrence of `p` it meets.
   */
  function ReplaceAll(s: string, p: string): (r: string)
    requires p != []
    ensures |r| <= |s|
    decreases |s|
  {
    if |s| < |p| then s
    else if s[..|p|] == p then ReplaceAll(s[|p|..], p)
    else [s[0]] + ReplaceAll(s[1..], p)
  }

  /** Removing a pattern that does not occur changes nothing. */
  lemma {:induction false} ReplaceAllIdentity(s: string, p: string)
    requires p != []
    ensures !IsSubstring(p, s) ==> ReplaceAll(s, p) == s
    decreases |s|
  {
    if !IsSubstring(p, s) && |s| >= |p| {
      assert s[..|p|] != p;
      ReplaceAllIdentity(s[1..], p);
      assert [s[0]] + s[1..] == s;
    }
  }

  /** A pattern that occurs is deleted at least once: the text gets shorter by at least |p|. */
  lemma {:induction false} ReplaceAllShortens(s: string, p: string)
    requires p != [] && IsSubstring(p, s)
    ensures |ReplaceAll(s, p)| <= |s| - |p|
    decreases |s|
  {
    if s[..|p|] != p {
      ReplaceAllShortens(s[1..], p);
    }
  }

  /**
   * An occurrence of `p` preceded by text `a` in which the pass finds no earlier
   * occurrence (not even one running into `p` itself) is deleted, and the pass
   * carries on after it.
   */
  lemma {:induction false} ReplaceAllDeletesFirst(a: string, b: string, p: string)
    requires p != [] && !IsSubstring(p, a + p[..|p| - 1])
    ensures ReplaceAll(a + p + b, p) == a + ReplaceAll(b, p)
    decreases |a|
  {
    var s := a + p + b;
    if a == [] {
      assert s[..|p|] == p && s[|p|..] == b;
    } else {
      NoOccurrenceBefore(a, b, p);
      ReplaceAllKeepsFirst(s, p);
      assert s[1..] == a[1..] + p + b;
      ReplaceAllDeletesFirst(a[1..], b, p);
      assert ReplaceAll(s, p) == [a[0]] + (a[1..] + ReplaceAll(b, p));
      assert [a[0]] + a[1..] == a;
    }
  }

  /** One step of the pass when no occurrence starts at the front. */
  lemma ReplaceAllKeepsFirst(s: string, p: string)
    requires p != [] && |s| >= |p| && s[..|p|] != p
    ensures ReplaceAll(s, p) == [s[0]] + ReplaceAll(s[1..], p)
  {
  }

  /** The step of ReplaceAllDeletesFirst: the pass finds no occurrence at the start of `a`. */
  lemma NoOccurrenceBefore(a: string, b: string, p: string)
    requires a != [] && p != [] && !IsSubstring(p, a + p[..|p| - 1])
    ensures |a + p + b| >= |p| && (a + p + b)[..|p|] != p
    ensures !IsSubstring(p, a[1..] + p[..|p| - 1])
  {
    var s := a + p + b;
    var q := a + p[..|p| - 1];
    assert s[..|p|] == q[..|p|];
    assert !(p <= q);
    assert q[1..] == a[1..] + p[..|p| - 1];
  }

  /** `chunks[0] + sep + chunks[1] + ... + sep + chunks[n-1]`, Python's `sep.join(chunks)`. */
  function JoinWith(chunks: seq<string>, sep: string): (joined: string)
    decreases |chunks|
  {
    if chunks == [] then ""
    else if |chunks| == 1 then chunks[0]
    else chunks[0] + sep + JoinWith(chunks[1..], sep)
  }

  /** The chunks concatenated with nothing between them. */
  function Concat(chunks: seq<string>): (joined: string)
    decreases |chunks|
  {
    if chunks == [] then "" else chunks[0] + Concat(chunks[1..])
  }

  /**
   * Every occurrence is deleted, not only a leading one: text built by putting
   * `p` between chunks loses every one of those separators, provided no chunk
   * starts an occurrence of its own (alone or running into the next `p`).
   */
  lemma {:induction false} ReplaceAllUndoesJoin(chunks: seq<string>, p: string)
    requires p != []
    requires forall i :: 0 <= i < |chunks| ==> !IsSubstring(p, chunks[i] + p[..|p| - 1])
    ensures ReplaceAll(JoinWith(chunks, p), p) == Concat(chunks)
    decreases |chunks|
  {
    if chunks == [] {
    } else if |chunks| == 1 {
      if IsSubstring(p, chunks[0]) {
        IsSubstringAppend(p, chunks[0], p[..|p| - 1]);
      }
      ReplaceAllIdentity(chunks[0], p);
      assert Concat(chunks) == chunks[0] + Concat([]);
    } else {
      ReplaceAllDeletesFirst(chunks[0], JoinWith(chunks[1..], p), p);
      ReplaceAllUndoesJoin(chunks[1..], p);
    }
  }

  /**
   * The pass is single: deleting "www." from "wwwww.w." joins the text around
   * the deleted occurrence into a new "www." that stays in the result.
   */
  lemma ReplaceAllIsSinglePass()
    ensures ReplaceAll("wwwww.w.", "www.") == "www."
    ensures IsSubstring("www.", ReplaceAll("wwwww.w.", "www."))
  {
    var s := "wwwww.w.";
    assert s[..4][3] != "www."[3];
    assert s[1..][..4][3] != "www."[3];
    assert s[2..][..4] == "www.";
    assert s[2..][4..] == "w.";
    assert ReplaceAll("w.", "www.") == "w.";
    assert ReplaceAll(s[2..], "www.") == "w.";
    assert ReplaceAll(s[1..], "www.") == "ww.";
  }

  /** Python's `str.isspace()` for one character. */
  predicate IsSpace(c: char) {
    ('\t' <= c <= '\r') || ('\U{1C}' <= c <= ' ') || c == '\U{85}' || c == '\U{A0}'
    || c == '\U{1680}' || ('\U{2000}' <= c <= '\U{200A}') || c == '\U{2028}' || c == '\U{2029}'
    || c == '\U{202F}' || c == '\U{205F}' || c == '\U{3000}'
  }

  /** `s.lstrip()`: `s` without its leading whitespace. */
  function TrimStart(s: string): (r: string)
    ensures r == [] || !IsSpace(r[0])
    decreases |s|
  {
    if s != [] && IsSpace(s[0]) then TrimStart(s[1..]) else s
  }

  /** `s.rstrip()`: `s` without its trailing whitespace. */
  function TrimEnd(s: string): (r: string)
    ensures r == [] || !IsSpace(r[|r| - 1])
    decreases |s|
  {
    if s != [] && IsSpace(s[|s| - 1]) then TrimEnd(s[..|s| - 1]) else s
  }

  /**
   * `s.strip()`: `s` without leading and trailing whitespace; it is empty
   * exactly when `s` is all whitespace.
   */
  function Trim(s: string): (r: string)
    ensures r == [] || (!IsSpace(r[0]) && !IsSpace(r[|r| - 1]))
    ensures r == [] <==> forall i :: 0 <= i < |s| ==> IsSpace(s[i])
  {
    TrimStartEmptyIff(s);
    var t := TrimStart(s);
    if t == [] then TrimEnd(t) else TrimEndKeepsFirst(t); TrimEnd(t)
  }

  /**
   * `strip()` removes whitespace at the two ends and nothing else: the result
   * is the slice s[i..j], everything before i and from j on is whitespace, and
   * (by Trim's contract) the slice neither starts nor ends with whitespace.
   */
  lemma TrimIsInfix(s: string) returns (i: nat, j: nat)
    ensures i <= j <= |s| && Trim(s) == s[i..j]
    ensures forall k :: 0 <= k < i ==> IsSpace(s[k])
    ensures forall k :: j <= k < |s| ==> IsSpace(s[k])
  {
    i := TrimStartIsSuffix(s);
    var t := s[i..];
    var n := TrimEndIsPrefix(t);
    j := i + n;
    assert t[..n] == s[i..j];
    forall k | j <= k < |s| ensures IsSpace(s[k]) {
      assert s[k] == t[k - i];
    }
  }

  /** `lstrip()` drops a prefix made of whitespace. */
  lemma {:induction false} TrimStartIsSuffix(s: string) returns (i: nat)
    ensures i <= |s| && TrimStart(s) == s[i..]
    ensures forall k :: 0 <= k < i ==> IsSpace(s[k])
    decreases |s|
  {
    if s != [] && IsSpace(s[0]) {
      var i' := TrimStartIsSuffix(s[1..]);
      i := i' + 1;
      assert s[1..][i'..] == s[i..];
      forall k | 1 <= k < i ensures IsSpace(s[k]) {
        assert s[k] == s[1..][k - 1];
      }
    } else {
      i := 0;
    }
  }

  /** `rstrip()` drops a suffix made of whitespace. */
  lemma {:induction false} TrimEndIsPrefix(t: string) returns (j: nat)
    ensures j <= |t| && TrimEnd(t) == t[..j]
    ensures forall k :: j <= k < |t| ==> IsSpace(t[k])
    decreases |t|
  {
    if t != [] && IsSpace(t[|t| - 1]) {
      var u := t[..|t| - 1];
      j := TrimEndIsPrefix(u);
      assert u[..j] == t[..j];
      forall k | j <= k < |t| ensures IsSpace(t[k]) {
        if k < |t| - 1 {
          assert t[k] == u[k];
        }
      }
    } else {
      j := |t|;
    }
  }

  lemma {:induction false} TrimStartEmptyIff(s: string)
    ensures TrimStart(s) == [] <==> forall i :: 0 <= i < |s| ==> IsSpace(s[i])
    decreases |s|
  {
    if s != [] && IsSpace(s[0]) {
      TrimStartEmptyIff(s[1..]);
      assert forall i :: 1 <= i < |s| ==> s[i] == s[1..][i - 1];
    }
  }

  lemma {:induction false} TrimEndKeepsFirst(t: string)
    requires t != [] && !IsSpace(t[0])
    ensures TrimEnd(t) != [] && TrimEnd(t)[0] == t[0]
    decreases |t|
  {
    if |t| > 1 && IsSpace(t[|t| - 1]) {
      TrimEndKeepsFirst(t[..|t| - 1]);
    }
  }
}
