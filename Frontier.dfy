/** The crawl frontier: URL normalisation and the bounded breadth-first
    collection of URL records from the seeds' sitemaps and from the links
    of fetched pages. Sitemap and page fetches are lookups in finite maps;
    `urljoin` is an oracle. */
module Frontier {
  import opened Wrappers
  import opened Text
  import opened UrlParsing
  import opened Settings
  import opened UrlRecords

  /** `urllib.parse.urljoin(base, url)`. */
  type Joiner = (string, string) -> string

  /** The query part `normalize_url` appends: `?query` when there is a query. */
  function QueryPart(query: string): string {
    QueryTail(query != "", query)
  }

  /** The string `normalize_url` assembles before stripping slashes (line 26-28). */
  function AssembleAsWritten(p: ParsedUrl): string {
    p.scheme + "://" + (p.netloc + p.path) + QueryPart(p.query)
  }

  /** The relative-reference case of line 21: a non-empty base and no netloc. */
  predicate UsesBase(url: string, base: Option<string>) {
    base.Some? && base.value != "" && UrlSplit(url).netloc == ""
  }

  /** The parse `normalize_url` works from: the URL itself, or its join with
      the base when the base is used. */
  function ParsedFor(url: string, base: Option<string>, join: Joiner): ParsedUrl {
    if UsesBase(url, base) then UrlParse(join(base.value, url)) else UrlParse(url)
  }

  /** `normalize_url` as written: parse (dropping `;params`), rejoin against
      the base for a netloc-less URL, assemble without the fragment, then
      strip every trailing slash of the whole string. The result never ends
      in a slash, since the assembled string keeps its `://`, and it holds
      no fragment. */
  function NormalizeUrlAsWritten(url: string, base: Option<string>, join: Joiner): (n: string)
    ensures NoTrailingSlash(n) && '#' !in n
  {
    var result := AssembleAsWritten(ParsedFor(url, base, join));
    ParsedForClean(url, base, join);
    AssembledShape(ParsedFor(url, base, join));
    var stripped := RStripChar(result, '/');
    if stripped != "" then stripped else result + "/"
  }

  /** The components of a parse hold no fragment separator. */
  lemma ParsedForClean(url: string, base: Option<string>, join: Joiner)
    ensures var p := ParsedFor(url, base, join);
      Avoids(p.netloc, {'#'}) && Avoids(p.path, {'#'}) && Avoids(p.query, {'#'})
      && (p.scheme == "" || ValidScheme(p.scheme))
  {
    var src := if UsesBase(url, base) then join(base.value, url) else url;
    assert UrlParse(src) == ParsedFor(url, base, join);
    ParseOfCleanSplit(UrlSplit(src), UrlParse(src));
  }

  /** A parse taking its parts from a split, with a prefix of its path,
      inherits the split's freedom from fragment separators. */
  lemma ParseOfCleanSplit(s: SplitUrl, p: ParsedUrl)
    requires Avoids(s.netloc, {'#'}) && Avoids(s.path, {'#'}) && Avoids(s.query, {'#'})
    requires s.scheme == "" || ValidScheme(s.scheme)
    requires p.scheme == s.scheme && p.netloc == s.netloc && p.query == s.query && p.path <= s.path
    ensures Avoids(p.netloc, {'#'}) && Avoids(p.path, {'#'}) && Avoids(p.query, {'#'})
    ensures p.scheme == "" || ValidScheme(p.scheme)
  {
    assert forall c :: c in p.path ==> c in s.path;
  }

  predicate NoTrailingSlash(s: string) {
    |s| > 0 && s[|s| - 1] != '/'
  }

  /** The assembled string keeps its `://`, so stripping slashes never
      empties it; it holds no fragment. */
  lemma AssembledShape(p: ParsedUrl)
    requires Avoids(p.netloc, {'#'}) && Avoids(p.path, {'#'}) && Avoids(p.query, {'#'})
    requires p.scheme == "" || ValidScheme(p.scheme)
    ensures NoTrailingSlash(RStripChar(AssembleAsWritten(p), '/'))
    ensures '#' !in RStripChar(AssembleAsWritten(p), '/')
  {
    var a := AssembleAsWritten(p);
    var s := RStripChar(a, '/');
    assert a[|p.scheme|] == ':';
    assert |s| > |p.scheme|;
    assert Avoids(p.scheme, {'#'}) by {
      if p.scheme != "" {
        assert forall k :: 0 <= k < |p.scheme| ==> IsSchemeChar(p.scheme[k]);
      }
    }
    assert Avoids(a, {'#'}) by {
      assert Avoids(QueryPart(p.query), {'#'});
      assert Avoids(p.netloc + p.path, {'#'});
    }
    assert forall c :: c in s ==> c in a;
  }

  /** The `or result + "/"` fallback is unreachable: the result is the
      assembled string with its trailing slashes stripped. */
  lemma AsWrittenShape(url: string, base: Option<string>, join: Joiner)
    ensures NormalizeUrlAsWritten(url, base, join) == RStripChar(AssembleAsWritten(ParsedFor(url, base, join)), '/')
  {
    ParsedForClean(url, base, join);
    AssembledShape(ParsedFor(url, base, join));
  }

  /** The base is consulted only for a URL without a network location. */
  lemma AsWrittenBaseOnlyWithoutNetloc(url: string, base: Option<string>, join: Joiner)
    requires UrlSplit(url).netloc != ""
    ensures NormalizeUrlAsWritten(url, base, join) == NormalizeUrlAsWritten(url, None, join)
  {
  }

  /** The as-written normalisation of an assembled URL: the source parses the
      same parts back, reassembles them and strips the trailing slashes of
      the whole string. */
  lemma AsWrittenOfAssembled(s: string, w: string, marked: bool, q: string, join: Joiner)
    requires ValidScheme(s) && Lower(s) == s
    requires Avoids(w, {'?', '#', '\t', '\r', '\n', ';'})
    requires Avoids(q, {'#', '\t', '\r', '\n'})
    requires marked || q == ""
    ensures NormalizeUrlAsWritten(s + "://" + w + QueryTail(marked, q), None, join)
         == RStripChar(s + "://" + w + QueryPart(q), '/')
  {
    var u := s + "://" + w + QueryTail(marked, q);
    SplitAssembled(s, w, marked, q);
    assert ';' !in w;
    ParseKeepsPath(u);
    var p := UrlParse(u);
    assert p == ParsedFor(u, None, join);
    assert AssembleAsWritten(p) == s + "://" + w + QueryPart(q);
    AsWrittenShape(u, None, join);
  }

  /** Normalising twice differs from normalising once: for every URL
      `s://w?/` whose network location and path `w` do not end in a slash
      (`http://a/b?/`, say), the strip eats the slash that is the whole
      query, and a second pass drops the now empty `?`. */
  lemma AsWrittenNotIdempotent(s: string, w: string, join: Joiner)
    requires ValidScheme(s) && Lower(s) == s
    requires Avoids(w, {'?', '#', '\t', '\r', '\n', ';'}) && NoTrailingSlash(w)
    ensures NormalizeUrlAsWritten(s + "://" + w + "?/", None, join) == s + "://" + w + "?"
    ensures NormalizeUrlAsWritten(s + "://" + w + "?", None, join) == s + "://" + w
    ensures NormalizeUrlAsWritten(NormalizeUrlAsWritten(s + "://" + w + "?/", None, join), None, join)
         != NormalizeUrlAsWritten(s + "://" + w + "?/", None, join)
  {
    AsWrittenDropsSlashQuery(s, w, join);
    AsWrittenDropsEmptyQuery(s, w, join);
    assert |s + "://" + w + "?"| != |s + "://" + w|;
  }

  lemma AsWrittenDropsSlashQuery(s: string, w: string, join: Joiner)
    requires ValidScheme(s) && Lower(s) == s
    requires Avoids(w, {'?', '#', '\t', '\r', '\n', ';'})
    ensures NormalizeUrlAsWritten(s + "://" + w + "?/", None, join) == s + "://" + w + "?"
  {
    SlashQueryStrings(s, w);
    AsWrittenOfAssembled(s, w, true, "/", join);
  }

  /** The strings behind `AsWrittenDropsSlashQuery`: the query `/` is
      marked, and the strip takes only its slash. */
  lemma SlashQueryStrings(s: string, w: string)
    ensures Avoids("/", {'#', '\t', '\r', '\n'})
    ensures s + "://" + w + QueryTail(true, "/") == s + "://" + w + "?/"
    ensures RStripChar(s + "://" + w + QueryPart("/"), '/') == s + "://" + w + "?"
  {
    var a := s + "://" + w + "?/";
    assert s + "://" + w + QueryPart("/") == a;
    SlashThenOther(a, '?');
    assert a[..|a| - 1] == s + "://" + w + "?";
  }

  lemma AsWrittenDropsEmptyQuery(s: string, w: string, join: Joiner)
    requires ValidScheme(s) && Lower(s) == s
    requires Avoids(w, {'?', '#', '\t', '\r', '\n', ';'}) && NoTrailingSlash(w)
    ensures NormalizeUrlAsWritten(s + "://" + w + "?", None, join) == s + "://" + w
  {
    EmptyQueryStrings(s, w);
    AsWrittenOfAssembled(s, w, true, "", join);
  }

  /** The strings behind `AsWrittenDropsEmptyQuery`: the bare `?` is kept
      in the parse but not assembled, and the strip finds no slash. */
  lemma EmptyQueryStrings(s: string, w: string)
    requires NoTrailingSlash(w)
    ensures s + "://" + w + QueryTail(true, "") == s + "://" + w + "?"
    ensures RStripChar(s + "://" + w + QueryPart(""), '/') == s + "://" + w
  {
    var b := s + "://" + w;
    assert s + "://" + w + QueryPart("") == b;
    assert b[|b| - 1] == w[|w| - 1];
  }

  /** Stripping slashes from `x?/`-like strings removes only the last character. */
  lemma SlashThenOther(u: string, c: char)
    requires |u| >= 2 && u[|u| - 1] == '/' && u[|u| - 2] == c && c != '/'
    ensures RStripChar(u, '/') == u[..|u| - 1]
  {
    var v := u[..|u| - 1];
    assert v[|v| - 1] == c;
  }

  /** `urlparse` keeps the path `urlsplit` finds when it holds no `;`. */
  lemma ParseKeepsPath(url: string)
    requires ';' !in UrlSplit(url).netloc + UrlSplit(url).path
    ensures UrlParse(url).path == UrlSplit(url).path
    ensures UrlParse(url).netloc + UrlParse(url).path == UrlSplit(url).netloc + UrlSplit(url).path
  {
    var s := UrlSplit(url);
    assert ';' !in s.path by {
      assert forall c :: c in s.path ==> c in s.netloc + s.path;
    }
    assert Find(s.path, ';', 0) < 0;
  }

  /** The split the corrected normalisation assembles from: the URL's, or
      that of its join with the base when the base is used. */
  function NormalizedSplit(url: string, base: Option<string>, join: Joiner): SplitUrl {
    if UsesBase(url, base) then UrlSplit(join(base.value, url)) else UrlSplit(url)
  }

  function StrippedPath(s: SplitUrl): string {
    if s.query == "" then RStripChar(s.path, '/') else s.path
  }

  function Assemble(s: SplitUrl): string {
    s.scheme + "://" + (s.netloc + StrippedPath(s)) + QueryPart(s.query)
  }

  /** `normalize_url` corrected: split without dropping `;params`, remove the
      fragment, and strip trailing slashes from the path when there is no
      query, so that the query and the `://` are never touched. */
  function NormalizeUrl(url: string, base: Option<string>, join: Joiner): (n: string)
    ensures '#' !in n
  {
    NormalizedSplitClean(url, base, join);
    AssembleShape(NormalizedSplit(url, base, join));
    Assemble(NormalizedSplit(url, base, join))
  }

  /** What a split guarantees about the parts the corrected normalisation keeps. */
  predicate CleanSplit(s: SplitUrl) {
    Avoids(s.netloc, {'/'})
    && Avoids(s.netloc + StrippedPath(s), {'?', '#', '\t', '\r', '\n'})
    && Avoids(s.query, {'#', '\t', '\r', '\n'})
    && (s.scheme == "" || (ValidScheme(s.scheme) && Lower(s.scheme) == s.scheme))
  }

  lemma SplitIsClean(url: string)
    ensures CleanSplit(UrlSplit(url))
  {
    SplitClean(url);
    CleanOfParts(UrlSplit(url));
  }

  /** The facts about the parts of a split that make it clean. */
  lemma CleanOfParts(s: SplitUrl)
    requires Avoids(s.netloc, {'/', '?', '#', '\t', '\r', '\n'})
    requires Avoids(s.path, {'?', '#', '\t', '\r', '\n'})
    requires Avoids(s.query, {'#', '\t', '\r', '\n'})
    requires s.scheme == "" || (ValidScheme(s.scheme) && Lower(s.scheme) == s.scheme)
    ensures CleanSplit(s)
  {
    var p := StrippedPath(s);
    assert forall c :: c in p ==> c in s.path;
    assert forall c :: c in s.netloc + p ==> c in s.netloc || c in p;
  }

  lemma NormalizedSplitClean(url: string, base: Option<string>, join: Joiner)
    ensures CleanSplit(NormalizedSplit(url, base, join))
  {
    if UsesBase(url, base) {
      SplitIsClean(join(base.value, url));
    } else {
      SplitIsClean(url);
    }
  }

  lemma AssembleShape(s: SplitUrl)
    requires CleanSplit(s)
    ensures '#' !in Assemble(s)
  {
    assert Avoids(s.scheme, {'#'}) by {
      if s.scheme != "" {
        assert forall k :: 0 <= k < |s.scheme| ==> IsSchemeChar(s.scheme[k]);
      }
    }
    assert Avoids(QueryPart(s.query), {'#'});
  }

  /** The corrected normalisation keeps the scheme and the query, and the
      network location and path it keeps are the original ones with trailing
      path slashes removed when there is no query. */
  lemma NormalizeUrlParts(url: string, base: Option<string>, join: Joiner)
    requires NormalizedSplit(url, base, join).scheme != ""
    ensures var s := NormalizedSplit(url, base, join);
      var r := UrlSplit(NormalizeUrl(url, base, join));
      r.scheme == s.scheme && r.query == s.query && r.fragment == ""
      && r.netloc + r.path == s.netloc + StrippedPath(s)
  {
    var s := NormalizedSplit(url, base, join);
    NormalizedSplitClean(url, base, join);
    SplitAssembled(s.scheme, s.netloc + StrippedPath(s), s.query != "", s.query);
  }

  /** The corrected normalisation is idempotent on URLs with a scheme. */
  lemma NormalizeUrlIdempotent(url: string, base: Option<string>, join: Joiner)
    requires NormalizedSplit(url, base, join).scheme != ""
    ensures NormalizeUrl(NormalizeUrl(url, base, join), None, join) == NormalizeUrl(url, base, join)
  {
    var s := NormalizedSplit(url, base, join);
    var n := NormalizeUrl(url, base, join);
    NormalizeUrlParts(url, base, join);
    var r := UrlSplit(n);
    assert NormalizedSplit(n, None, join) == r;
    var w := s.netloc + StrippedPath(s);
    if s.query == "" && r.path != "" {
      // `w` does not end in a slash, and the new path is a suffix of it.
      assert |w| > 0 && w[|w| - 1] != '/' by {
        if StrippedPath(s) == "" {
          assert w == s.netloc;
          assert r.netloc + r.path == s.netloc;
          assert s.netloc[|s.netloc| - 1] in s.netloc;
        }
      }
      assert r.path[|r.path| - 1] == w[|w| - 1];
      assert StrippedPath(r) == r.path;
    }
    assert StrippedPath(r) == r.path;
    assert Assemble(r) == s.scheme + "://" + w + QueryPart(s.query);
  }

  /** Away from the defect the correction changes nothing: for a URL with a
      network location and no `;params`, whose query is empty or does not end
      in a slash, both normalisations give the same string. */
  lemma CorrectedAgreesAsWritten(url: string, base: Option<string>, join: Joiner)
    requires NormalizedSplit(url, base, join).netloc != ""
    requires ';' !in NormalizedSplit(url, base, join).netloc + NormalizedSplit(url, base, join).path
    requires NormalizedSplit(url, base, join).query == "" || NoTrailingSlash(NormalizedSplit(url, base, join).query)
    ensures NormalizeUrl(url, base, join) == NormalizeUrlAsWritten(url, base, join)
  {
    var src := if UsesBase(url, base) then join(base.value, url) else url;
    var s := UrlSplit(src);
    assert s == NormalizedSplit(url, base, join);
    AsWrittenOfSplit(url, base, join);
    SplitIsClean(src);
    AssembleOfSplit(s);
  }

  /** Without `;params` the as-written normalisation strips the slashes of
      the whole assembled split. */
  lemma AsWrittenOfSplit(url: string, base: Option<string>, join: Joiner)
    requires NormalizedSplit(url, base, join).netloc != ""
    requires ';' !in NormalizedSplit(url, base, join).netloc + NormalizedSplit(url, base, join).path
    ensures var s := NormalizedSplit(url, base, join);
            NormalizeUrlAsWritten(url, base, join) == RStripChar(s.scheme + "://" + (s.netloc + s.path) + QueryPart(s.query), '/')
  {
    var src := if UsesBase(url, base) then join(base.value, url) else url;
    var s := UrlSplit(src);
    assert s == NormalizedSplit(url, base, join);
    ParseKeepsPath(src);
    var p := UrlParse(src);
    assert p == ParsedFor(url, base, join);
    assert AssembleAsWritten(p) == s.scheme + "://" + (s.netloc + s.path) + QueryPart(s.query);
    AsWrittenShape(url, base, join);
  }

  /** With a network location and a query that is empty or does not end in a
      slash, the corrected assembly is the whole assembly with its trailing
      slashes stripped. */
  lemma AssembleOfSplit(s: SplitUrl)
    requires s.netloc != "" && Avoids(s.netloc, {'/'})
    requires s.query == "" || NoTrailingSlash(s.query)
    ensures Assemble(s) == RStripChar(s.scheme + "://" + (s.netloc + s.path) + QueryPart(s.query), '/')
  {
    var head := s.scheme + "://";
    var a := head + (s.netloc + s.path) + QueryPart(s.query);
    if s.query == "" {
      var w := s.netloc + s.path;
      NetlocPathStrip(s.netloc, s.path, w);
      assert a == head + w;
      assert s.netloc[0] == (s.netloc + RStripChar(s.path, '/'))[0];
      StripAfterPrefix(head, w);
      assert Assemble(s) == head + (s.netloc + StrippedPath(s)) + "";
    } else {
      assert a[|a| - 1] == s.query[|s.query| - 1];
    }
  }

  /** Trailing slashes are stripped from the end only. */
  lemma StripAfterPrefix(x: string, y: string)
    requires RStripChar(y, '/') != ""
    ensures RStripChar(x + y, '/') == x + RStripChar(y, '/')
    decreases |y|
  {
    if y[|y| - 1] == '/' {
      assert (x + y)[..|x + y| - 1] == x + y[..|y| - 1];
      StripAfterPrefix(x, y[..|y| - 1]);
    } else {
      assert (x + y)[|x + y| - 1] == y[|y| - 1];
    }
  }

  /** Stripping slashes from a path that follows a slash-free netloc strips
      them from the two together. */
  lemma NetlocPathStrip(netloc: string, path: string, w: string)
    requires netloc + path == w && Avoids(netloc, {'/'})
    ensures netloc + RStripChar(path, '/') == RStripChar(w, '/')
    decreases |path|
  {
    if |path| > 0 && path[|path| - 1] == '/' {
      assert (netloc + path)[..|w| - 1] == netloc + path[..|path| - 1];
      NetlocPathStrip(netloc, path[..|path| - 1], w[..|w| - 1]);
    } else if |path| == 0 {
      assert w == netloc;
      if |w| > 0 {
        assert w[|w| - 1] in netloc;
      }
    }
  }
}
