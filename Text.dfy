/** String operations of the Python standard library that the modelled code
    uses: `in` on strings, `lower`/`upper`, `strip`, `rstrip(c)`, `find`,
    `startswith`/`endswith` and `join`. */
module Text {

  /** `sub` occurs in `s` starting at index `i`. */
  predicate OccursAt(s: string, sub: string, i: nat) {
    i + |sub| <= |s| && s[i..i + |sub|] == sub
  }

  /** Python's `sub in s`. */
  predicate Contains(s: string, sub: string) {
    exists i :: 0 <= i <= |s| - |sub| && OccursAt(s, sub, i)
  }

  predicate StartsWith(s: string, prefix: string) {
    prefix <= s
  }

  predicate EndsWith(s: string, suffix: string) {
    |suffix| <= |s| && s[|s| - |suffix|..] == suffix
  }

  /** Case mapping of one character: ASCII and the basic Cyrillic block
      (U+0400..U+044F, U+0450..U+045F), which is what the keyword
      dictionaries and the labels are written in. */
  function LowerChar(c: char): char {
    if 'A' <= c <= 'Z' then (c as int + 32) as char
    else if '\U{0410}' <= c <= '\U{042f}' then (c as int + 32) as char
    else if '\U{0400}' <= c <= '\U{040f}' then (c as int + 80) as char
    else c
  }

  function UpperChar(c: char): char {
    if 'a' <= c <= 'z' then (c as int - 32) as char
    else if '\U{0430}' <= c <= '\U{044f}' then (c as int - 32) as char
    else if '\U{0450}' <= c <= '\U{045f}' then (c as int - 80) as char
    else c
  }

  function Lower(s: string): (r: string)
    ensures |r| == |s|
    ensures forall i :: 0 <= i < |s| ==> r[i] == LowerChar(s[i])
  {
    seq(|s|, i requires 0 <= i < |s| => LowerChar(s[i]))
  }

  function Upper(s: string): (r: string)
    ensures |r| == |s|
    ensures forall i :: 0 <= i < |s| ==> r[i] == UpperChar(s[i])
  {
    seq(|s|, i requires 0 <= i < |s| => UpperChar(s[i]))
  }

  /** Lower-casing twice is lower-casing once. */
  lemma LowerIdempotent(s: string)
    ensures Lower(Lower(s)) == Lower(s)
  {
  }

  /** Python's `str.isspace` for one character (also what `\s` matches in `re`). */
  predicate IsSpace(c: char) {
    c == ' ' || '\t' <= c <= '\r' || '\U{1c}' <= c <= '\U{1f}' || c == '\U{85}' || c == '\U{a0}'
    || c == '\U{1680}' || '\U{2000}' <= c <= '\U{200a}' || c == '\U{2028}' || c == '\U{2029}'
    || c == '\U{202f}' || c == '\U{205f}' || c == '\U{3000}'
  }

  function TrimLeft(s: string): (r: string)
    ensures |r| <= |s| && r == s[|s| - |r|..]
    ensures |r| > 0 ==> !IsSpace(r[0])
    ensures |s| > 0 && IsSpace(s[0]) ==> |r| < |s|
    ensures |s| > 0 && !IsSpace(s[0]) ==> r == s
  {
    if |s| > 0 && IsSpace(s[0]) then TrimLeft(s[1..]) else s
  }

  function TrimRight(s: string): (r: string)
    ensures r <= s
    ensures |r| > 0 ==> !IsSpace(r[|r| - 1])
  {
    if |s| > 0 && IsSpace(s[|s| - 1]) then TrimRight(s[..|s| - 1]) else s
  }

  /** Python's `s.strip()`. */
  function Strip(s: string): (r: string)
    ensures |r| <= |s|
    ensures |r| > 0 ==> !IsSpace(r[0]) && !IsSpace(r[|r| - 1])
  {
    TrimRight(TrimLeft(s))
  }

  predicate AllSpace(s: string) {
    forall i :: 0 <= i < |s| ==> IsSpace(s[i])
  }

  lemma {:induction false} TrimLeftPadded(pre: string, h: string)
    requires AllSpace(pre) && (h == "" || !IsSpace(h[0]))
    ensures TrimLeft(pre + h) == h
    decreases |pre|
  {
    if pre != [] {
      assert (pre + h)[1..] == pre[1..] + h;
      TrimLeftPadded(pre[1..], h);
    } else {
      assert pre + h == h;
    }
  }

  lemma {:induction false} TrimRightPadded(h: string, post: string)
    requires AllSpace(post) && (h == "" || !IsSpace(h[|h| - 1]))
    ensures TrimRight(h + post) == h
    decreases |post|
  {
    if post != [] {
      assert (h + post)[..|h + post| - 1] == h + post[..|post| - 1];
      TrimRightPadded(h, post[..|post| - 1]);
    } else {
      assert h + post == h;
    }
  }

  /** `strip()` removes exactly the whitespace around a text that neither
      starts nor ends with whitespace. */
  lemma StripPadded(pre: string, h: string, post: string)
    requires AllSpace(pre) && AllSpace(post)
    requires h == "" || (!IsSpace(h[0]) && !IsSpace(h[|h| - 1]))
    ensures Strip(pre + h + post) == h
  {
    if h == "" {
      assert pre + h + post == pre + post;
      TrimLeftPadded(pre + post, "");
      assert pre + post + "" == pre + post;
      TrimRightPadded("", "");
    } else {
      assert pre + h + post == pre + (h + post);
      TrimLeftPadded(pre, h + post);
      TrimRightPadded(h, post);
    }
  }

  /** Python's `s.rstrip(c)` for a single character `c`. */
  function RStripChar(s: string, c: char): (r: string)
    ensures r <= s
    ensures |r| > 0 ==> r[|r| - 1] != c
    ensures forall i :: |r| <= i < |s| ==> s[i] == c
  {
    if |s| > 0 && s[|s| - 1] == c then RStripChar(s[..|s| - 1], c) else s
  }

  /** Python's `s.find(c, start)` for a single character: the first index at
      or after `start` holding `c`, or -1. */
  function Find(s: string, c: char, start: nat): (r: int)
    decreases |s| - start
    ensures r == -1 || start <= r < |s|
    ensures r >= 0 ==> s[r] == c
    ensures forall i :: start <= i < |s| && (r == -1 || i < r) ==> s[i] != c
  {
    if start >= |s| then -1
    else if s[start] == c then start
    else Find(s, c, start + 1)
  }

  /** Python's `sep.join(xs)`. */
  function Join(sep: string, xs: seq<string>): string {
    if |xs| == 0 then ""
    else if |xs| == 1 then xs[0]
    else xs[0] + sep + Join(sep, xs[1..])
  }

  /** Python's `xs[:n]` on a sequence. */
  function Take<T>(xs: seq<T>, n: nat): (r: seq<T>)
    ensures |r| <= n && r <= xs
    ensures |xs| <= n ==> r == xs
  {
    if |xs| <= n then xs else xs[..n]
  }

  lemma ContainsAt(s: string, sub: string, i: nat)
    requires OccursAt(s, sub, i)
    ensures Contains(s, sub)
  {
  }

  /** Text around a string keeps every substring it had. */
  lemma ContainsWithin(s: string, sub: string, p: string, q: string)
    requires Contains(s, sub)
    ensures Contains(p + s + q, sub)
  {
    var i :| 0 <= i <= |s| - |sub| && OccursAt(s, sub, i);
    var t := p + s + q;
    assert t[|p| + i..|p| + i + |sub|] == s[i..i + |sub|];
    assert OccursAt(t, sub, |p| + i);
  }

  /** The distinct elements of `xs` in first-occurrence order (what
      `list(dict.fromkeys(xs))` gives). */
  function Distinct<T(==,!new)>(xs: seq<T>): (r: seq<T>)
    ensures forall x :: x in r <==> x in xs
    ensures forall i, j :: 0 <= i < j < |r| ==> r[i] != r[j]
    ensures |r| <= |xs|
  {
    if |xs| == 0 then []
    else
      var d := Distinct(xs[..|xs| - 1]);
      assert forall x :: x in xs ==> x in xs[..|xs| - 1] || x == xs[|xs| - 1];
      if xs[|xs| - 1] in d then d else d + [xs[|xs| - 1]]
  }
}
