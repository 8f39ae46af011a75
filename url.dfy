/**
 * The two ways keyword_rank.py turns a URL into the text it looks for:
 * the organic matcher takes the URL's network location (`urlparse(url).netloc`)
 * and deletes "www."; the places matcher deletes "https://", "http://" and
 * "www." from the whole text, path included.
 */
module Url {
  import opened Wrappers
  import opened Text

  /** urlsplit first strips leading C0 control characters and spaces. */
  predicate IsC0ControlOrSpace(c: char) {
    c <= ' '
  }

  /** `url.lstrip(C0 controls and space)`. */
  function StripLeadingControls(s: string): (r: string)
    ensures r == [] || !IsC0ControlOrSpace(r[0])
    decreases |s|
  {
    if s != [] && IsC0ControlOrSpace(s[0]) then StripLeadingControls(s[1..]) else s
  }

  /** Tab, carriage return and line feed are deleted from anywhere in the URL. */
  predicate IsUnsafeUrlChar(c: char) {
    c == '\t' || c == '\r' || c == '\n'
  }

  /** `s` holds none of the characters urlsplit deletes. */
  predicate IsSafe(s: string) {
    '\t' !in s && '\r' !in s && '\n' !in s
  }

  /** The URL with every tab, carriage return and line feed deleted. */
  function RemoveUnsafe(s: string): (r: string)
    ensures IsSafe(r)
    ensures IsSafe(s) ==> r == s
    decreases |s|
  {
    if s == [] then []
    else if IsUnsafeUrlChar(s[0]) then RemoveUnsafe(s[1..])
    else [s[0]] + RemoveUnsafe(s[1..])
  }

  /** The deletion works character by character: an unsafe one goes, any other stays. */
  lemma RemoveUnsafeChar(c: char)
    ensures RemoveUnsafe([c]) == if IsUnsafeUrlChar(c) then [] else [c]
  {
    assert [c][1..] == [];
  }

  /** ... and it keeps the order of what stays: it distributes over concatenation. */
  lemma {:induction false} RemoveUnsafeAppend(a: string, b: string)
    ensures RemoveUnsafe(a + b) == RemoveUnsafe(a) + RemoveUnsafe(b)
    decreases |a|
  {
    if a != [] {
      assert (a + b)[0] == a[0];
      assert (a + b)[1..] == a[1..] + b;
      RemoveUnsafeAppend(a[1..], b);
    } else {
      assert a + b == b;
    }
  }

  predicate IsAsciiLetter(c: char) {
    'a' <= c <= 'z' || 'A' <= c <= 'Z'
  }

  /** Letters, digits, '+', '-' and '.', the characters a scheme may hold. */
  predicate IsSchemeChar(c: char) {
    IsAsciiLetter(c) || '0' <= c <= '9' || c == '+' || c == '-' || c == '.'
  }

  /** Index of the first character of `s` in `cs`, or |s| when there is none (Python's `find`, with |s| for -1). */
  function IndexOfAny(s: string, cs: set<char>): (i: nat)
    ensures i <= |s|
    ensures i < |s| ==> s[i] in cs
    ensures forall j :: 0 <= j < i ==> s[j] !in cs
    decreases |s|
  {
    if s == [] then 0
    else if s[0] in cs then 0
    else 1 + IndexOfAny(s[1..], cs)
  }

  /**
   * urlsplit's test for a scheme: `u` has a ':' after at least one character,
   * starts with an ASCII letter and holds only scheme characters before its
   * first ':'.
   */
  predicate HasScheme(u: string) {
    var i := IndexOfAny(u, {':'});
    0 < i < |u| && IsAsciiLetter(u[0]) && forall k | 0 <= k < i :: IsSchemeChar(u[k])
  }

  /** What follows "scheme:" when `u` has a scheme; `u` itself otherwise. */
  function StripScheme(u: string): (r: string)
  {
    if HasScheme(u) then u[IndexOfAny(u, {':'}) + 1..] else u
  }

  /** The characters that end a network location. */
  const NetlocDelimiters: set<char> := {'/', '?', '#'}

  /**
   * `urlparse(url).netloc`: urlsplit strips leading controls and spaces,
   * deletes tabs and line breaks and removes a leading "scheme:"; what is left
   * yields the network location.
   */
  function Netloc(url: string): (r: Option<string>)
    ensures r.Some? ==> forall i :: 0 <= i < |r.value| ==> r.value[i] !in NetlocDelimiters
    ensures r.Some? ==> ('[' in r.value <==> ']' in r.value)
  {
    NetlocAfterScheme(StripScheme(RemoveUnsafe(StripLeadingControls(url))))
  }

  /**
   * A "//" introduces the network location, which runs to the first '/', '?'
   * or '#'; without "//" it is empty. A network location with '[' but no ']',
   * or the reverse, makes urlsplit raise ValueError, modelled as None.
   */
  function NetlocAfterScheme(u: string): (r: Option<string>)
    ensures !(|u| >= 2 && u[..2] == "//") ==> r == Some("")
    ensures |u| >= 2 && u[..2] == "//" && r.Some? ==>
      r.value <= u[2..] && (2 + |r.value| == |u| || u[2 + |r.value|] in NetlocDelimiters)
    ensures r.Some? ==> forall i :: 0 <= i < |r.value| ==> r.value[i] !in NetlocDelimiters
    ensures r.Some? ==> ('[' in r.value <==> ']' in r.value)
    ensures r.None? ==> ('[' in u || ']' in u)
  {
    if |u| >= 2 && u[..2] == "//" then
      var rest := u[2..];
      var host := rest[..IndexOfAny(rest, NetlocDelimiters)];
      if ('[' in host) != (']' in host) then None else Some(host)
    else Some("")
  }

  /** keyword_rank.py:34: the organic matcher's domain, None when urlparse raises. */
  function LinksDomain(url: string): (r: Option<string>)
    ensures r.None? <==> Netloc(url).None?
    ensures r.Some? ==> |r.value| <= |Netloc(url).value|
    ensures r.Some? && !IsSubstring("www.", Netloc(url).value) ==> r.value == Netloc(url).value
  {
    match Netloc(url)
    case None => None
    case Some(n) => ReplaceAllIdentity(n, "www."); Some(ReplaceAll(n, "www."))
  }

  /** keyword_rank.py:60 and 74: the places matcher's normalisation, applied to the target and to each website. */
  function PlacesKey(s: string): (r: string)
    ensures |r| <= |s|
    ensures !IsSubstring("https://", s) && !IsSubstring("http://", s) && !IsSubstring("www.", s) ==> r == s
  {
    ReplaceAllIdentity(s, "https://");
    ReplaceAllIdentity(ReplaceAll(s, "https://"), "http://");
    ReplaceAllIdentity(ReplaceAll(ReplaceAll(s, "https://"), "http://"), "www.");
    ReplaceAll(ReplaceAll(ReplaceAll(s, "https://"), "http://"), "www.")
  }
}

/** Properties of the two normalisations. */
module UrlFacts {
  import opened Wrappers
  import opened Text
  import opened Url

  /** The first character of `s` in `cs` is at `k`. */
  lemma IndexOfAnyAt(s: string, cs: set<char>, k: nat)
    requires k < |s| && s[k] in cs
    requires forall j :: 0 <= j < k ==> s[j] !in cs
    ensures IndexOfAny(s, cs) == k
  {
  }

  lemma StripSchemeOfAbsoluteUrl(scheme: string, rest: string)
    requires scheme != [] && IsAsciiLetter(scheme[0])
    requires forall i :: 0 <= i < |scheme| ==> IsSchemeChar(scheme[i])
    ensures StripScheme(scheme + ":" + rest) == rest
  {
    var u := scheme + ":" + rest;
    assert forall j :: 0 <= j < |scheme| ==> u[j] == scheme[j];
    IndexOfAnyAt(u, {':'}, |scheme|);
    assert u[|scheme| + 1..] == rest;
  }

  /**
   * For "scheme://host" followed by a path, query or fragment, the network
   * location is exactly the host.
   */
  lemma NetlocOfAbsoluteUrl(scheme: string, host: string, path: string)
    requires scheme != [] && IsAsciiLetter(scheme[0])
    requires forall i :: 0 <= i < |scheme| ==> IsSchemeChar(scheme[i])
    requires IsSafe(host) && '/' !in host && '?' !in host && '#' !in host && '[' !in host && ']' !in host
    requires IsSafe(path) && (path == [] || path[0] in NetlocDelimiters)
    ensures Netloc(scheme + "://" + host + path) == Some(host)
  {
    CleanAbsoluteUrl(scheme, host, path);
    HostAfterSlashes(host, path);
  }

  lemma CleanAbsoluteUrl(scheme: string, host: string, path: string)
    requires scheme != [] && IsAsciiLetter(scheme[0])
    requires forall i :: 0 <= i < |scheme| ==> IsSchemeChar(scheme[i])
    requires IsSafe(host) && IsSafe(path)
    ensures StripScheme(RemoveUnsafe(StripLeadingControls(scheme + "://" + host + path))) == "//" + host + path
  {
    var url := scheme + "://" + host + path;
    SafeAbsoluteUrl(scheme, host, path);
    SplitAfterScheme(scheme, host, path);
    StripSchemeOfAbsoluteUrl(scheme, "//" + host + path);
  }

  lemma SafeAbsoluteUrl(scheme: string, host: string, path: string)
    requires scheme != [] && IsAsciiLetter(scheme[0])
    requires forall i :: 0 <= i < |scheme| ==> IsSchemeChar(scheme[i])
    requires IsSafe(host) && IsSafe(path)
    ensures StripLeadingControls(scheme + "://" + host + path) == scheme + "://" + host + path
    ensures IsSafe(scheme + "://" + host + path)
  {
    var url := scheme + "://" + host + path;
    assert url[0] == scheme[0];
    SchemeIsSafe(scheme);
  }

  lemma SchemeIsSafe(scheme: string)
    requires forall i :: 0 <= i < |scheme| ==> IsSchemeChar(scheme[i])
    ensures IsSafe(scheme)
  {
    forall i | 0 <= i < |scheme| ensures !IsUnsafeUrlChar(scheme[i]) {
      assert IsSchemeChar(scheme[i]);
    }
  }

  lemma SplitAfterScheme(scheme: string, host: string, path: string)
    ensures scheme + "://" + host + path == scheme + ":" + ("//" + host + path)
  {
    assert "://" == ":" + "//";
  }

  lemma HostAfterSlashes(host: string, path: string)
    requires '/' !in host && '?' !in host && '#' !in host && '[' !in host && ']' !in host
    requires path == [] || path[0] in NetlocDelimiters
    ensures NetlocAfterScheme("//" + host + path) == Some(host)
  {
    var u := "//" + host + path;
    var rest := host + path;
    assert u[..2] == "//" && u[2..] == rest;
    assert forall j :: 0 <= j < |host| ==> rest[j] == host[j];
    if path == [] {
      assert rest == host;
    } else {
      IndexOfAnyAt(rest, NetlocDelimiters, |host|);
    }
    assert rest[..|host|] == host;
  }

  /**
   * A URL that, once urlsplit has stripped leading controls and spaces and
   * deleted tabs and line breaks, has neither a scheme nor a leading "//"
   * has an empty network location, so the organic matcher's domain is empty.
   * This covers "www.example.com", "example.com/a:b" and "/page".
   */
  lemma SchemelessUrlHasEmptyNetloc(url: string)
    requires var u := RemoveUnsafe(StripLeadingControls(url));
      !HasScheme(u) && !(|u| >= 2 && u[..2] == "//")
    ensures Netloc(url) == Some("")
    ensures LinksDomain(url) == Some("")
  {
    assert ReplaceAll("", "www.") == "";
  }

  /** The same for a URL with a visible first character and no tab or line break, which urlsplit leaves as it is. */
  lemma SchemelessCleanUrlHasEmptyNetloc(url: string)
    requires url != [] && !IsC0ControlOrSpace(url[0]) && IsSafe(url)
    requires !HasScheme(url) && !(|url| >= 2 && url[..2] == "//")
    ensures Netloc(url) == Some("")
    ensures LinksDomain(url) == Some("")
  {
    assert StripLeadingControls(url) == url;
    SchemelessUrlHasEmptyNetloc(url);
  }

  /**
   * A character that cannot be in a scheme, before the first ':', means there
   * is no scheme: "example.com/a:b" and "www.example.com/?t=10:30" have none.
   */
  lemma NoSchemeBeforeColon(u: string, k: nat)
    requires k < |u| && !IsSchemeChar(u[k])
    requires forall j :: 0 <= j <= k ==> u[j] != ':'
    ensures !HasScheme(u)
  {
    var i := IndexOfAny(u, {':'});
    if i <= k {
      assert i < |u| && u[i] == ':';
    }
  }

  /**
   * The places normalisation drops a leading "https://www." but keeps the
   * rest, path included, when the rest holds none of the three patterns; and
   * it deletes "www." from such a target written without a scheme.
   */
  lemma PlacesKeyKeepsPath(rest: string)
    requires !IsSubstring("https://", rest) && !IsSubstring("http://", rest) && !IsSubstring("www.", rest)
    ensures PlacesKey("https://www." + rest) == rest
    ensures PlacesKey("www." + rest) == rest
  {
    assert "https://www." + rest == "https://" + ("www." + rest) by {
      assert "https://www." == "https://" + "www.";
    }
    NoSchemeAfterWww(rest);
    DropLeadingHttps("www." + rest);
    ReplaceAllIdentity("www." + rest, "http://");
    DropLeadingWww(rest);
  }

  /** A leading "https://" goes, and so does nothing else when the rest has no "https://". */
  lemma DropLeadingHttps(u: string)
    requires !IsSubstring("https://", u)
    ensures ReplaceAll("https://" + u, "https://") == u
  {
    NotSubstringShort("https://", "https:/");
    assert [] + "https://"[..7] == "https:/";
    ReplaceAllDeletesFirst([], u, "https://");
    assert [] + "https://" + u == "https://" + u;
    ReplaceAllIdentity(u, "https://");
  }

  /** "www." put in front of text without a scheme pattern creates none. */
  lemma NoSchemeAfterWww(rest: string)
    requires !IsSubstring("https://", rest) && !IsSubstring("http://", rest)
    ensures !IsSubstring("https://", "www." + rest)
    ensures !IsSubstring("http://", "www." + rest)
  {
    NotSubstringPrepend("https://", "www.", rest);
    NotSubstringPrepend("http://", "www.", rest);
  }

  lemma NotSubstringShort(p: string, s: string)
    requires |s| < |p|
    ensures !IsSubstring(p, s)
  {
  }

  /**
   * The two normalisations differ on a URL with a path:
   * "https://www.example.com/page" becomes "example.com" for the organic
   * matcher and "example.com/page" for the places matcher.
   */
  lemma NormalisationAsymmetry()
    ensures LinksDomain("https://www.example.com/page") == Some("example.com")
    ensures PlacesKey("https://www.example.com/page") == "example.com/page"
  {
    LinksDomainExample();
    PlacesKeyExample();
  }

  lemma PlacesKeyExample()
    ensures PlacesKey("https://www.example.com/page") == "example.com/page"
  {
    PlacesExampleShape();
    NotSubstringWithoutFirstChar("https://", "example.com/page");
    NotSubstringWithoutFirstChar("http://", "example.com/page");
    NotSubstringWithoutFirstChar("www.", "example.com/page");
    PlacesKeyKeepsPath("example.com/page");
  }

  lemma PlacesExampleShape()
    ensures 'h' !in "example.com/page" && 'w' !in "example.com/page"
    ensures "https://www." + "example.com/page" == "https://www.example.com/page"
  {
  }

  lemma LinksDomainExample()
    ensures LinksDomain("https://www.example.com/page") == Some("example.com")
  {
    NetlocOfAbsoluteUrl("https", "www.example.com", "/page");
    ExampleUrlShape();
    DropWwwExample();
  }

  lemma ExampleUrlShape()
    ensures "https" + "://" + "www.example.com" + "/page" == "https://www.example.com/page"
  {
  }

  lemma DropWwwExample()
    ensures ReplaceAll("www.example.com", "www.") == "example.com"
  {
    DropWwwExampleShape();
    NotSubstringWithoutFirstChar("www.", "example.com");
    DropLeadingWww("example.com");
  }

  lemma DropWwwExampleShape()
    ensures 'w' !in "example.com"
    ensures "www." + "example.com" == "www.example.com"
  {
  }

  /** A leading "www." goes, and so does nothing else when the rest has no "www.". */
  lemma DropLeadingWww(rest: string)
    requires !IsSubstring("www.", rest)
    ensures ReplaceAll("www." + rest, "www.") == rest
  {
    NotSubstringShort("www.", "www");
    assert [] + "www."[..3] == "www";
    ReplaceAllDeletesFirst([], rest, "www.");
    assert [] + "www." + rest == "www." + rest;
    ReplaceAllIdentity(rest, "www.");
  }
}
