/** A model of `urllib.parse.urlsplit` and `urllib.parse.urlparse` (Python 3.12),
    which `normalize_url` and the crawler's domain checks are built on:
    strip leading C0 controls and spaces, remove tab/CR/LF, split off a valid
    scheme (lower-cased), a `//` network location, the fragment, the query and,
    for `urlparse`, the `;params` of the last path segment. */
module UrlParsing {
  import opened Text

  datatype SplitUrl = SplitUrl(scheme: string, netloc: string, path: string, query: string, fragment: string)

  datatype ParsedUrl = ParsedUrl(scheme: string, netloc: string, path: string, params: string, query: string, fragment: string)

  /** `_WHATWG_C0_CONTROL_OR_SPACE`. */
  predicate IsC0OrSpace(c: char) { c <= ' ' }

  /** `_UNSAFE_URL_BYTES_TO_REMOVE`. */
  predicate IsUnsafe(c: char) { c == '\t' || c == '\r' || c == '\n' }

  predicate IsAsciiAlpha(c: char) { 'a' <= c <= 'z' || 'A' <= c <= 'Z' }

  /** `scheme_chars`. */
  predicate IsSchemeChar(c: char) {
    IsAsciiAlpha(c) || '0' <= c <= '9' || c == '+' || c == '-' || c == '.'
  }

  predicate ValidScheme(s: string) {
    |s| > 0 && IsAsciiAlpha(s[0]) && forall k :: 0 <= k < |s| ==> IsSchemeChar(s[k])
  }

  /** No character of `s` is in `cs`. */
  predicate Avoids(s: string, cs: set<char>) {
    forall c :: c in s ==> c !in cs
  }

  /** `uses_params`: the schemes whose last path segment may carry `;params`. */
  const UsesParams: set<string> := {"", "ftp", "hdl", "prospero", "http", "imap", "https", "shttp",
                                    "rtsp", "rtsps", "rtspu", "sip", "sips", "mms", "sftp", "tel"}

  function LStripC0(s: string): (r: string)
    ensures |r| <= |s| && r == s[|s| - |r|..]
    ensures |s| > 0 && !IsC0OrSpace(s[0]) ==> r == s
  {
    if |s| > 0 && IsC0OrSpace(s[0]) then LStripC0(s[1..]) else s
  }

  function RemoveUnsafe(s: string): (r: string)
    ensures Avoids(r, {'\t', '\r', '\n'})
    ensures |r| <= |s|
  {
    if |s| == 0 then ""
    else (if IsUnsafe(s[0]) then "" else [s[0]]) + RemoveUnsafe(s[1..])
  }

  /** The first index at or after `start` whose character is in `cs`, or `|s|`. */
  function FirstIn(s: string, cs: set<char>, start: nat): (r: nat)
    requires start <= |s|
    decreases |s| - start
    ensures start <= r <= |s|
    ensures r < |s| ==> s[r] in cs
    ensures forall i :: start <= i < r ==> s[i] !in cs
  {
    if start == |s| then |s|
    else if s[start] in cs then start
    else FirstIn(s, cs, start + 1)
  }

  lemma FirstInUnique(s: string, cs: set<char>, start: nat, r: nat)
    requires start <= r <= |s|
    requires r < |s| ==> s[r] in cs
    requires forall i :: start <= i < r ==> s[i] !in cs
    ensures FirstIn(s, cs, start) == r
  {
  }

  /** The last index holding `c`, or -1 (`str.rfind`). */
  function LastIndexOf(s: string, c: char): (r: int)
    ensures -1 <= r < |s|
    ensures r >= 0 ==> s[r] == c
    ensures forall i :: r < i < |s| ==> s[i] != c
  {
    if |s| == 0 then -1
    else if s[|s| - 1] == c then |s| - 1
    else LastIndexOf(s[..|s| - 1], c)
  }

  /** The scheme part: the text before the first ':' when it is a valid scheme. */
  function SchemeEnd(u: string): (i: nat)
    ensures i <= |u|
  {
    FirstIn(u, {':'}, 0)
  }

  predicate HasScheme(u: string) {
    SchemeEnd(u) < |u| && ValidScheme(u[..SchemeEnd(u)])
  }

  /** The scheme (lower-cased) and what follows its ':', or no scheme. */
  function SplitScheme(u: string): (r: (string, string))
    ensures r.0 == "" || (ValidScheme(r.0) && Lower(r.0) == r.0)
    ensures r.1 == u || (HasScheme(u) && r.1 == u[SchemeEnd(u) + 1..])
  {
    if HasScheme(u) then
      LowerSchemeValid(u[..SchemeEnd(u)]);
      (Lower(u[..SchemeEnd(u)]), u[SchemeEnd(u) + 1..])
    else ("", u)
  }

  /** `_splitnetloc(rest, 2)` when `rest` starts with `//`. */
  function SplitNetloc(rest: string): (r: (string, string))
    ensures Avoids(r.0, {'/', '?', '#'})
    ensures r.0 + r.1 == if StartsWith(rest, "//") then rest[2..] else rest
    ensures !StartsWith(rest, "//") ==> r.0 == ""
  {
    if StartsWith(rest, "//") then
      var d := FirstIn(rest, {'/', '?', '#'}, 2);
      assert rest[2..d] + rest[d..] == rest[2..];
      (rest[2..d], rest[d..])
    else ("", rest)
  }

  /** `s.split(c, 1)` when `c` occurs in `s`, and `(s, "")` otherwise. */
  function SplitAt(s: string, c: char): (r: (string, string))
    ensures Avoids(r.0, {c})
    ensures c in s ==> s == r.0 + [c] + r.1
    ensures c !in s ==> r.0 == s && r.1 == ""
  {
    var i := FirstIn(s, {c}, 0);
    if i < |s| then
      assert s == s[..i] + [c] + s[i + 1..];
      (s[..i], s[i + 1..])
    else ("", "").(0 := s)
  }

  /** `urlsplit(url)`, without the IPv6 bracket and port validation (which can raise). */
  function UrlSplit(url: string): (r: SplitUrl)
    ensures Avoids(r.netloc, {'/', '?', '#'})
    ensures Avoids(r.path, {'?', '#'})
    ensures Avoids(r.query, {'#'})
    ensures r.scheme == "" || (ValidScheme(r.scheme) && Lower(r.scheme) == r.scheme)
  {
    var u := RemoveUnsafe(LStripC0(url));
    var (scheme, rest) := SplitScheme(u);
    var (netloc, afterNetloc) := SplitNetloc(rest);
    var (beforeFragment, fragment) := SplitAt(afterNetloc, '#');
    var (path, query) := SplitAt(beforeFragment, '?');
    SplitUrl(scheme, netloc, path, query, fragment)
  }

  /** No component of a split URL holds a tab, CR or LF. */
  lemma SplitClean(url: string)
    ensures var r := UrlSplit(url); var unsafe := {'\t', '\r', '\n'};
      Avoids(r.netloc, unsafe) && Avoids(r.path, unsafe) && Avoids(r.query, unsafe)
  {
    var u := RemoveUnsafe(LStripC0(url));
    var (scheme, rest) := SplitScheme(u);
    SplitSchemeWithin(u);
    var (netloc, afterNetloc) := SplitNetloc(rest);
    SplitNetlocWithin(rest);
    var (beforeFragment, fragment) := SplitAt(afterNetloc, '#');
    SplitAtWithin(afterNetloc, '#');
    var (path, query) := SplitAt(beforeFragment, '?');
    SplitAtWithin(beforeFragment, '?');
  }

  /** The pieces of a split hold only characters of what was split. */
  lemma SplitAtWithin(s: string, c: char)
    ensures forall x :: x in SplitAt(s, c).0 ==> x in s
    ensures forall x :: x in SplitAt(s, c).1 ==> x in s
  {
    var i := FirstIn(s, {c}, 0);
    if i < |s| {
      assert forall x :: x in s[..i] ==> x in s;
      assert forall x :: x in s[i + 1..] ==> x in s;
    }
  }

  lemma SplitSchemeWithin(u: string)
    ensures forall x :: x in SplitScheme(u).1 ==> x in u
  {
    if HasScheme(u) {
      assert forall x :: x in u[SchemeEnd(u) + 1..] ==> x in u;
    }
  }

  lemma SplitNetlocWithin(rest: string)
    ensures forall x :: x in SplitNetloc(rest).0 ==> x in rest
    ensures forall x :: x in SplitNetloc(rest).1 ==> x in rest
  {
    var r := SplitNetloc(rest);
    var whole := if StartsWith(rest, "//") then rest[2..] else rest;
    assert forall x :: x in whole ==> x in rest;
    assert forall x :: x in r.0 ==> x in r.0 + r.1;
    assert forall x :: x in r.1 ==> x in r.0 + r.1;
  }

  lemma LowerSchemeValid(s: string)
    ensures ValidScheme(s) ==> ValidScheme(Lower(s)) && Lower(Lower(s)) == Lower(s)
  {
    assert forall k :: 0 <= k < |s| ==> LowerChar(LowerChar(s[k])) == LowerChar(s[k]);
  }

  /** `_splitparams(path)`, called when `';'` occurs in the path. */
  function SplitParams(path: string): (r: (string, string))
    ensures r.0 <= path
  {
    var slash := LastIndexOf(path, '/');
    if slash >= 0 then
      var i := Find(path, ';', slash);
      if i < 0 then (path, "") else (path[..i], path[i + 1..])
    else
      var i := Find(path, ';', 0);
      if i < 0 then (path, "") else (path[..i], path[i + 1..])
  }

  /** `urlparse(url)`. */
  function UrlParse(url: string): (r: ParsedUrl)
    ensures var s := UrlSplit(url);
      r.scheme == s.scheme && r.netloc == s.netloc && r.query == s.query && r.fragment == s.fragment
      && r.path <= s.path
  {
    var s := UrlSplit(url);
    var (path, params) := if s.scheme in UsesParams && Find(s.path, ';', 0) >= 0 then SplitParams(s.path) else (s.path, "");
    ParsedUrl(s.scheme, s.netloc, path, params, s.query, s.fragment)
  }

  lemma {:induction false} RemoveUnsafeNone(s: string)
    requires Avoids(s, {'\t', '\r', '\n'})
    ensures RemoveUnsafe(s) == s
  {
    if |s| > 0 {
      assert s[0] in s;
      assert forall c :: c in s[1..] ==> c in s;
      RemoveUnsafeNone(s[1..]);
    }
  }

  /** The first character in `cs` splits a string uniquely. */
  lemma SplitPointUnique(x: string, y: string, a: string, b: string, c: char)
    requires Avoids(x, {c}) && Avoids(a, {c})
    requires x + [c] + y == a + [c] + b
    ensures x == a && y == b
  {
    var t := x + [c] + y;
    forall i | 0 <= i < |x| ensures t[i] !in {c} {
      assert t[i] == x[i] && x[i] in x;
    }
    FirstInUnique(t, {c}, 0, |x|);
    forall i | 0 <= i < |a| ensures t[i] !in {c} {
      assert t[i] == a[i] && a[i] in a;
    }
    FirstInUnique(t, {c}, 0, |a|);
    assert x == t[..|x|] && a == t[..|a|];
    assert y == t[|x| + 1..] && b == t[|a| + 1..];
  }

  /** A valid lower-case scheme followed by `:` is split off as the scheme. */
  lemma SchemeOfAssembled(s: string, after: string)
    requires ValidScheme(s) && Lower(s) == s
    requires Avoids(after, {'\t', '\r', '\n'})
    ensures var u := s + ":" + after;
      RemoveUnsafe(LStripC0(u)) == u && SplitScheme(u) == (s, after)
  {
    var u := s + ":" + after;
    assert u[0] == s[0];
    assert LStripC0(u) == u;
    forall c | c in s ensures c !in {'\t', '\r', '\n', ':'} {
      var k :| 0 <= k < |s| && s[k] == c;
      assert IsSchemeChar(s[k]);
    }
    assert Avoids(u, {'\t', '\r', '\n'});
    RemoveUnsafeNone(u);
    forall i | 0 <= i < |s| ensures u[i] !in {':'} {
      assert u[i] == s[i] && s[i] in s;
    }
    FirstInUnique(u, {':'}, 0, |s|);
    assert u[..|s|] == s;
    assert u[|s| + 1..] == after;
  }

  /** The network location of `//w?q` is a prefix of `w`. */
  lemma NetlocOfAssembled(w: string, tail: string)
    requires Avoids(w, {'?', '#'})
    requires tail == "" || tail[0] == '?'
    ensures var r := SplitNetloc("//" + w + tail);
      |r.0| <= |w| && r.0 == w[..|r.0|] && r.1 == w[|r.0|..] + tail
  {
    var rest := "//" + w + tail;
    assert StartsWith(rest, "//");
    assert rest[2..] == w + tail;
    var r := SplitNetloc(rest);
    assert r.0 + r.1 == w + tail;
    if tail != "" {
      assert rest[2 + |w|] == '?';
    }
    assert |r.0| <= |w|;
    assert r.0 == (w + tail)[..|r.0|];
  }

  /** What `?q` adds after the path: nothing when there is no `?` at all. */
  function QueryTail(marked: bool, q: string): string {
    if marked then "?" + q else ""
  }

  /** Splitting `scheme://w?q` (with `w` free of '?', '#' and tab/CR/LF) gives
      back the scheme, the query, and a network location and path that
      concatenate to `w`; a bare `?` gives the empty query. */
  lemma SplitAssembled(s: string, w: string, marked: bool, q: string)
    requires ValidScheme(s) && Lower(s) == s
    requires Avoids(w, {'?', '#', '\t', '\r', '\n'})
    requires Avoids(q, {'#', '\t', '\r', '\n'})
    requires marked || q == ""
    ensures var r := UrlSplit(s + "://" + w + QueryTail(marked, q));
      r.scheme == s && r.netloc + r.path == w && r.query == q && r.fragment == ""
  {
    var tail := QueryTail(marked, q);
    var rest := "//" + w + tail;
    var u := s + "://" + w + tail;
    assert RemoveUnsafe(LStripC0(u)) == u && SplitScheme(u) == (s, rest) by {
      assert u == s + ":" + rest;
      SchemeOfAssembled(s, rest);
    }
    var netloc, wp := NetlocPart(w, tail);
    QueryOfAssembled(wp, marked, q);
    UrlSplitStages(u, u, s, rest, netloc, wp + tail, wp + tail, "", wp, q);
  }

  /** `//w?q` splits into a network location and the path `wp` that follows it in `w`. */
  lemma NetlocPart(w: string, tail: string) returns (netloc: string, wp: string)
    requires Avoids(w, {'?', '#'})
    requires tail == "" || tail[0] == '?'
    ensures SplitNetloc("//" + w + tail) == (netloc, wp + tail) && netloc + wp == w
    ensures Avoids(wp, {'?', '#'})
  {
    NetlocOfAssembled(w, tail);
    netloc := SplitNetloc("//" + w + tail).0;
    wp := w[|netloc|..];
    assert forall c :: c in wp ==> c in w;
  }

  /** What follows the network location, `p?q`, splits into path `p` and query `q`. */
  lemma QueryOfAssembled(p: string, marked: bool, q: string)
    requires Avoids(p, {'?', '#'})
    requires Avoids(q, {'#'})
    requires marked || q == ""
    ensures var after := p + QueryTail(marked, q);
      SplitAt(after, '#') == (after, "")
      && SplitAt(after, '?') == (p, q)
  {
    var after := p + QueryTail(marked, q);
    assert Avoids(after, {'#'});
    var (bf, fragment) := SplitAt(after, '#');
    assert bf == after && fragment == "";
    var (path, query) := SplitAt(after, '?');
    if marked {
      assert after == p + ['?'] + q;
      assert '?' in after by { assert after[|p|] == '?'; }
      SplitPointUnique(path, query, p, q, '?');
    } else {
      assert after == p;
    }
  }

  /** `UrlSplit` computed stage by stage. */
  lemma UrlSplitStages(url: string, u: string, scheme: string, rest: string, netloc: string,
                       after: string, beforeFragment: string, fragment: string, path: string, query: string)
    requires RemoveUnsafe(LStripC0(url)) == u
    requires SplitScheme(u) == (scheme, rest)
    requires SplitNetloc(rest) == (netloc, after)
    requires SplitAt(after, '#') == (beforeFragment, fragment)
    requires SplitAt(beforeFragment, '?') == (path, query)
    ensures UrlSplit(url) == SplitUrl(scheme, netloc, path, query, fragment)
  {
  }
}
