/** `crawl_tool`: seeds, sitemap intake, the bounded breadth-first walk over
    internal links and the final de-duplication. The network is a fixed
    web: a sitemap or page URL absent from its maps is one whose fetch
    raised (and was swallowed), and `urljoin` is an oracle. */
module Crawler {
  import opened Wrappers
  import opened Text
  import opened UrlParsing
  import opened Settings
  import opened UrlRecords
  import opened Frontier

  /** A sitemap response: status, `content-type` header (empty when absent)
      and the stripped text of every `<loc>`. */
  datatype Sitemap = Sitemap(status: int, contentType: string, locs: seq<string>)

  /** A page response: status and the `href` of every `<a href>`. */
  datatype Page = Page(status: int, hrefs: seq<string>)

  datatype Web = Web(sitemaps: map<string, Sitemap>, pages: map<string, Page>, join: Joiner)

  /** `normalize_url(url, base)`. */
  type Normalizer = (string, Option<string>) -> string

  /** A queue entry `(url, from_url, depth)`. */
  datatype Entry = Entry(url: string, from: Option<string>, depth: int)

  /** What one crawl is bounded by and stamps on its records, with the URL
      operations it applies: `normalize_url` (which `ScopeOf` fixes to its
      corrected form, `Frontier.NormalizeUrl`, and `ScopeOfAsWritten` to
      `Frontier.NormalizeUrlAsWritten`), `urlparse(u).netloc`, the sitemap
      address of a seed and the target of a link. */
  datatype Scope = Scope(
    normalize: Normalizer,
    host: string -> string,
    sitemapOf: string -> string,
    linkTarget: (string, string) -> Option<string>,
    allowed: set<string>,
    maxDepth: int,
    maxPages: int,
    seedSet: set<string>,
    sitemapUrls: set<string>,
    now: string)

  /** `urlparse(u).netloc`. */
  function Host(url: string): string {
    UrlParse(url).netloc
  }

  /** `start_urls or config.start_urls`. */
  function Seeds(config: Config, startUrls: seq<string>): seq<string> {
    if startUrls != [] then startUrls else config.startUrls
  }

  /** The configured domains, or else the seeds' hosts. */
  function AllowedHosts(config: Config, seeds: seq<string>): set<string> {
    if config.allowedDomains != [] then set d | d in config.allowedDomains
    else set u | u in seeds :: Host(u)
  }

  /** With seeds the allowed set is never empty, so each `allowed and ...`
      test of the crawl is the membership test alone. */
  lemma AllowedHostsNonEmpty(config: Config, seeds: seq<string>)
    requires seeds != []
    ensures AllowedHosts(config, seeds) != {}
    ensures config.allowedDomains == [] ==> forall u :: u in seeds ==> Host(u) in AllowedHosts(config, seeds)
    ensures forall d :: d in config.allowedDomains ==> d in AllowedHosts(config, seeds)
  {
    if config.allowedDomains != [] {
      assert config.allowedDomains[0] in AllowedHosts(config, seeds);
    } else {
      assert Host(seeds[0]) in AllowedHosts(config, seeds);
    }
  }

  /** The sitemap probed for a seed: `scheme://netloc/sitemap.xml`. */
  function SitemapUrl(seed: string): string {
    var p := UrlParse(seed);
    p.scheme + "://" + p.netloc + "/sitemap.xml"
  }

  /** The normalised seeds, in order. */
  function Norms(seeds: seq<string>, normalize: Normalizer): (r: seq<string>)
    ensures |r| == |seeds|
  {
    if seeds == [] then [] else Norms(seeds[..|seeds| - 1], normalize) + [normalize(seeds[|seeds| - 1], None)]
  }

  function SeedSet(seeds: seq<string>, normalize: Normalizer): set<string> {
    set n | n in Norms(seeds, normalize)
  }

  function ScopeOf(config: Config, startUrls: seq<string>, join: Joiner, now: string): Scope {
    ScopeWith(config, startUrls, join, now, (u, b) => NormalizeUrl(u, b, join))
  }

  function ScopeOfAsWritten(config: Config, startUrls: seq<string>, join: Joiner, now: string): Scope {
    ScopeWith(config, startUrls, join, now, (u, b) => NormalizeUrlAsWritten(u, b, join))
  }

  /** The scope of a crawl of `config` from `start_urls` that normalises with `normalize`. */
  function ScopeWith(config: Config, startUrls: seq<string>, join: Joiner, now: string, normalize: Normalizer): Scope {
    var seeds := Seeds(config, startUrls);
    var sitemapOf := u => SitemapUrl(u);
    Scope(normalize, u => Host(u), sitemapOf, (from, h) => LinkTarget(from, h, join, normalize), AllowedHosts(config, seeds),
          config.crawlLimits.maxDepth, config.crawlLimits.maxPages,
          SeedSet(seeds, normalize), set s | s in seeds :: sitemapOf(s), now)
  }

  /** The depth-0 entries the seeds start the queue with. */
  function SeedEntries(ns: seq<string>): (q: seq<Entry>)
    ensures |q| == |ns|
    ensures forall i :: 0 <= i < |ns| ==> q[i] == Entry(ns[i], None, 0)
  {
    if ns == [] then [] else SeedEntries(ns[..|ns| - 1]) + [Entry(ns[|ns| - 1], None, 0)]
  }

  lemma NormsSnoc(seeds: seq<string>, i: nat, normalize: Normalizer)
    requires i < |seeds|
    ensures Norms(seeds[..i + 1], normalize) == Norms(seeds[..i], normalize) + [normalize(seeds[i], None)]
    ensures SeedSet(seeds[..i + 1], normalize) == SeedSet(seeds[..i], normalize) + {normalize(seeds[i], None)}
  {
    assert seeds[..i + 1][..i] == seeds[..i];
  }

  lemma DistinctSnoc<T(!new)>(xs: seq<T>, x: T)
    ensures Distinct(xs + [x]) == if x in xs then Distinct(xs) else Distinct(xs) + [x]
  {
    assert (xs + [x])[..|xs|] == xs;
  }

  lemma SeedEntriesSnoc(ns: seq<string>, n: string)
    ensures SeedEntries(ns + [n]) == SeedEntries(ns) + [Entry(n, None, 0)]
  {
    assert (ns + [n])[..|ns|] == ns;
  }

  /** The seed loop: each distinct normalised seed is marked seen and queued
      once at depth 0, in first-occurrence order. */
  method SeedFrontier(seeds: seq<string>, normalize: Normalizer) returns (seen: set<string>, queue: seq<Entry>)
    ensures seen == SeedSet(seeds, normalize)
    ensures queue == SeedEntries(Distinct(Norms(seeds, normalize)))
  {
    seen := {};
    queue := [];
    for i := 0 to |seeds|
      invariant seen == SeedSet(seeds[..i], normalize)
      invariant queue == SeedEntries(Distinct(Norms(seeds[..i], normalize)))
    {
      var norm := normalize(seeds[i], None);
      ghost var ns := Norms(seeds[..i], normalize);
      NormsSnoc(seeds, i, normalize);
      DistinctSnoc(ns, norm);
      assert norm in seen <==> norm in ns;
      if norm !in seen {
        SeedEntriesSnoc(Distinct(ns), norm);
        seen := seen + {norm};
        queue := queue + [Entry(norm, None, 0)];
      }
    }
    assert seeds[..|seeds|] == seeds;
  }

  predicate GoodSitemap(web: Web, sm: string) {
    sm in web.sitemaps && web.sitemaps[sm].status == 200 && Contains(web.sitemaps[sm].contentType, "xml")
  }

  /** `url` is the normalisation of a `<loc>` of the well-formed sitemap `sm`. */
  predicate Listed(web: Web, sc: Scope, sm: string, url: string) {
    GoodSitemap(web, sm) && exists l :: l in web.sitemaps[sm].locs && sc.normalize(l, None) == url
  }

  predicate GoodPage(web: Web, u: string) {
    u in web.pages && web.pages[u].status == 200
  }

  /** The link an `href` of page `from` yields: none for an empty, `#` or
      `mailto:` reference, else the normalised join. */
  function LinkTarget(from: string, href: string, join: Joiner, normalize: Normalizer): Option<string> {
    var h := Strip(href);
    if h == "" || StartsWith(h, "#") || StartsWith(h, "mailto:") then None
    else Some(normalize(join(from, h), Some(from)))
  }

  /** Whitespace around an `href` does not change its target, and a
      stripped `href` yields a link exactly when it is non-empty and is
      neither a fragment nor a `mailto:` reference. */
  lemma LinkTargetPadded(from: string, pre: string, h: string, post: string, join: Joiner, normalize: Normalizer)
    requires AllSpace(pre) && AllSpace(post)
    requires h == "" || (!IsSpace(h[0]) && !IsSpace(h[|h| - 1]))
    ensures LinkTarget(from, pre + h + post, join, normalize) == LinkTarget(from, h, join, normalize)
    ensures LinkTarget(from, h, join, normalize).None? <==> h == "" || StartsWith(h, "#") || StartsWith(h, "mailto:")
    ensures LinkTarget(from, h, join, normalize).Some? ==>
              LinkTarget(from, h, join, normalize).value == normalize(join(from, h), Some(from))
  {
    StripPadded(pre, h, post);
    StripPadded("", h, "");
    assert "" + h + "" == h;
  }

  /** `url` is the target of a link on the page `from`, which answered 200. */
  predicate Linked(web: Web, sc: Scope, from: string, url: string) {
    GoodPage(web, from) && exists h :: h in web.pages[from].hrefs && sc.linkTarget(from, h) == Some(url)
  }

  /** What every record the crawl emits satisfies: a fresh DISCOVERED record
      stamped `now`, on an allowed host, within the depth limit, never a
      seed; a depth-0 record comes from a seed's sitemap and lists the URL,
      a deeper one from a page that links to it. */
  predicate RecordOk(rec: UrlRecord, sc: Scope, web: Web) {
    rec == NewRecord(rec.url, rec.discoveredFrom, rec.depth, sc.now)
    && sc.host(rec.url) in sc.allowed
    && 0 <= rec.depth <= sc.maxDepth
    && rec.url !in sc.seedSet
    && rec.discoveredFrom.Some?
    && (rec.depth == 0 ==> rec.discoveredFrom.value in sc.sitemapUrls && Listed(web, sc, rec.discoveredFrom.value, rec.url))
    && (rec.depth > 0 ==> Linked(web, sc, rec.discoveredFrom.value, rec.url))
  }

  predicate DistinctUrls(rs: seq<UrlRecord>) {
    forall i, j :: 0 <= i < j < |rs| ==> rs[i].url != rs[j].url
  }

  /** Sitemap (depth-0) records precede link records. */
  predicate SitemapFirst(rs: seq<UrlRecord>) {
    forall i, j :: 0 <= i < j < |rs| && rs[j].depth == 0 ==> rs[i].depth == 0
  }

  /** A queue entry is a seed at depth 0 or a link found on a page. */
  predicate EntryOk(e: Entry, sc: Scope, web: Web) {
    0 <= e.depth
    && (e.depth == 0 ==> e.from.None? && e.url in sc.seedSet)
    && (e.depth > 0 ==> e.from.Some? && Linked(web, sc, e.from.value, e.url))
  }

  predicate FrontierOk(seen: set<string>, records: seq<UrlRecord>, queue: seq<Entry>, sc: Scope, web: Web) {
    sc.seedSet <= seen
    && (forall i :: 0 <= i < |records| ==> records[i].url in seen && RecordOk(records[i], sc, web))
    && DistinctUrls(records) && SitemapFirst(records)
    && (forall i :: 0 <= i < |queue| ==> EntryOk(queue[i], sc, web))
  }

  /** One sitemap's `<loc>`s: each new normalised URL on an allowed host is
      marked seen and recorded at depth 0 with the sitemap as origin. */
  method IntakeSitemap(sm: string, locs: seq<string>, sc: Scope, web: Web,
                       seen0: set<string>, records0: seq<UrlRecord>)
    returns (seen: set<string>, records: seq<UrlRecord>)
    requires sm in sc.sitemapUrls && GoodSitemap(web, sm) && locs == web.sitemaps[sm].locs
    requires sc.seedSet <= seen0 && 0 <= sc.maxDepth
    requires forall i :: 0 <= i < |records0| ==> records0[i].url in seen0 && records0[i].depth == 0 && RecordOk(records0[i], sc, web)
    requires DistinctUrls(records0)
    ensures seen0 <= seen && records0 <= records
    ensures forall i :: 0 <= i < |records| ==> records[i].url in seen && records[i].depth == 0 && RecordOk(records[i], sc, web)
    ensures DistinctUrls(records)
    ensures forall u :: u in seen ==> u in seen0 || exists i :: |records0| <= i < |records| && records[i].url == u
    ensures forall l :: l in locs && sc.host(sc.normalize(l, None)) in sc.allowed ==> sc.normalize(l, None) in seen
  {
    seen, records := seen0, records0;
    for j := 0 to |locs|
      invariant seen0 <= seen && records0 <= records
      invariant forall i :: 0 <= i < |records| ==> records[i].url in seen && records[i].depth == 0 && RecordOk(records[i], sc, web)
      invariant DistinctUrls(records)
      invariant forall u :: u in seen ==> u in seen0 || exists i :: |records0| <= i < |records| && records[i].url == u
      invariant forall l :: l in locs[..j] && sc.host(sc.normalize(l, None)) in sc.allowed ==> sc.normalize(l, None) in seen
    {
      assert forall l :: l in locs[..j + 1] ==> l in locs[..j] || l == locs[j];
      var norm := sc.normalize(locs[j], None);
      if norm !in seen && sc.host(norm) in sc.allowed {
        var rec := NewRecord(norm, Some(sm), 0, sc.now);
        assert Listed(web, sc, sm, norm) by {
          assert locs[j] in web.sitemaps[sm].locs;
        }
        assert RecordOk(rec, sc, web);
        ghost var before := records;
        seen := seen + {norm};
        records := records + [rec];
        assert forall i :: 0 <= i < |before| ==> records[i] == before[i];
        assert records[|records| - 1].url == norm;
      }
    }
    assert locs[..|locs|] == locs;
  }

  /** The sitemap loop over all seeds. */
  method IntakeSitemaps(seeds: seq<string>, sc: Scope, web: Web, seen0: set<string>)
    returns (seen: set<string>, records: seq<UrlRecord>)
    requires sc.seedSet <= seen0 && 0 <= sc.maxDepth
    requires sc.sitemapUrls == set s | s in seeds :: sc.sitemapOf(s)
    ensures seen0 <= seen
    ensures forall i :: 0 <= i < |records| ==> records[i].url in seen && records[i].depth == 0 && RecordOk(records[i], sc, web)
    ensures DistinctUrls(records)
    ensures forall u :: u in seen ==> u in seen0 || exists i :: 0 <= i < |records| && records[i].url == u
    ensures forall s, l :: s in seeds && GoodSitemap(web, sc.sitemapOf(s)) && l in web.sitemaps[sc.sitemapOf(s)].locs ==>
              sc.host(sc.normalize(l, None)) in sc.allowed ==> sc.normalize(l, None) in seen
  {
    seen, records := seen0, [];
    for i := 0 to |seeds|
      invariant seen0 <= seen
      invariant forall k :: 0 <= k < |records| ==> records[k].url in seen && records[k].depth == 0 && RecordOk(records[k], sc, web)
      invariant DistinctUrls(records)
      invariant forall u :: u in seen ==> u in seen0 || exists k :: 0 <= k < |records| && records[k].url == u
      invariant forall s, l :: s in seeds[..i] && GoodSitemap(web, sc.sitemapOf(s)) && l in web.sitemaps[sc.sitemapOf(s)].locs ==>
                  sc.host(sc.normalize(l, None)) in sc.allowed ==> sc.normalize(l, None) in seen
    {
      assert forall s :: s in seeds[..i + 1] ==> s in seeds[..i] || s == seeds[i];
      var sm := sc.sitemapOf(seeds[i]);
      if sm in web.sitemaps && web.sitemaps[sm].status == 200 && Contains(web.sitemaps[sm].contentType, "xml") {
        assert sm in sc.sitemapUrls;
        ghost var seenBefore, recordsBefore := seen, records;
        seen, records := IntakeSitemap(sm, web.sitemaps[sm].locs, sc, web, seen, records);
        assert forall u :: u in seen ==> u in seen0 || exists k :: 0 <= k < |records| && records[k].url == u by {
          forall u | u in seen ensures u in seen0 || exists k :: 0 <= k < |records| && records[k].url == u {
            if u in seenBefore && u !in seen0 {
              var k :| 0 <= k < |recordsBefore| && recordsBefore[k].url == u;
              assert records[k] == recordsBefore[k];
            }
          }
        }
      }
    }
    assert seeds[..|seeds|] == seeds;
  }

  /** The entry one `href` on the page of `e` enqueues: a new, allowed
      target one level deeper, while within the depth limit. */
  function LinkEntry(e: Entry, href: string, seen: set<string>, sc: Scope): seq<Entry> {
    var t := sc.linkTarget(e.url, href);
    if t.Some? && t.value !in seen && sc.host(t.value) in sc.allowed && e.depth + 1 <= sc.maxDepth
    then [Entry(t.value, Some(e.url), e.depth + 1)] else []
  }

  /** The entries the links of `hrefs` enqueue, in order. */
  function LinkEntries(e: Entry, hrefs: seq<string>, seen: set<string>, sc: Scope): (q: seq<Entry>)
    ensures |q| <= |hrefs|
    ensures forall x :: x in q ==>
      x.depth == e.depth + 1 <= sc.maxDepth && x.from == Some(e.url) && x.url !in seen && sc.host(x.url) in sc.allowed
  {
    if hrefs == [] then []
    else LinkEntries(e, hrefs[..|hrefs| - 1], seen, sc) + LinkEntry(e, hrefs[|hrefs| - 1], seen, sc)
  }

  /** Every enqueued entry is the target of one of the links. */
  lemma {:induction false} LinkEntriesFromHrefs(e: Entry, hrefs: seq<string>, seen: set<string>, sc: Scope)
    ensures forall x :: x in LinkEntries(e, hrefs, seen, sc) ==>
      exists h :: h in hrefs && sc.linkTarget(e.url, h) == Some(x.url)
    decreases |hrefs|
  {
    if hrefs != [] {
      var prefix := hrefs[..|hrefs| - 1];
      var last := hrefs[|hrefs| - 1];
      LinkEntriesFromHrefs(e, prefix, seen, sc);
      forall x | x in LinkEntries(e, hrefs, seen, sc)
        ensures exists h :: h in hrefs && sc.linkTarget(e.url, h) == Some(x.url)
      {
        if x in LinkEntries(e, prefix, seen, sc) {
          var h :| h in prefix && sc.linkTarget(e.url, h) == Some(x.url);
          assert h in hrefs;
        } else {
          assert x in LinkEntry(e, last, seen, sc);
          assert last in hrefs;
        }
      }
    }
  }

  lemma LinkEntriesSnoc(e: Entry, hrefs: seq<string>, i: nat, seen: set<string>, sc: Scope)
    requires i < |hrefs|
    ensures LinkEntries(e, hrefs[..i + 1], seen, sc) == LinkEntries(e, hrefs[..i], seen, sc) + LinkEntry(e, hrefs[i], seen, sc)
  {
    assert hrefs[..i + 1][..i] == hrefs[..i];
  }

  /** One `<a href>` of a fetched page: take its target (see `LinkTarget`)
      and enqueue it one level deeper when new, allowed and within the
      depth limit. */
  method FollowLink(e: Entry, href: string, seen: set<string>, sc: Scope) returns (added: seq<Entry>)
    ensures added == LinkEntry(e, href, seen, sc)
  {
    added := [];
    var target := sc.linkTarget(e.url, href);
    if target.Some? {
      var norm := target.value;
      if norm !in seen && sc.host(norm) in sc.allowed {
        if e.depth + 1 <= sc.maxDepth {
          added := [Entry(norm, Some(e.url), e.depth + 1)];
        }
      }
    }
  }

  /** The link loop of one fetched page. */
  method ExpandLinks(e: Entry, hrefs: seq<string>, seen: set<string>, sc: Scope, queue0: seq<Entry>)
    returns (queue: seq<Entry>)
    ensures queue == queue0 + LinkEntries(e, hrefs, seen, sc)
  {
    queue := queue0;
    for i := 0 to |hrefs|
      invariant queue == queue0 + LinkEntries(e, hrefs[..i], seen, sc)
    {
      LinkEntriesSnoc(e, hrefs, i, seen, sc);
      var added := FollowLink(e, hrefs[i], seen, sc);
      assert queue + added == queue0 + (LinkEntries(e, hrefs[..i], seen, sc) + added);
      queue := queue + added;
    }
    assert hrefs[..|hrefs|] == hrefs;
  }

  // Termination: an entry at depth d <= maxDepth weighs k^(maxDepth - d + 1),
  // where k exceeds the number of links on any page, so the links one entry
  // enqueues weigh less than the entry itself.

  ghost function MaxLinks(pages: map<string, Page>): (b: nat)
    ensures forall u :: u in pages ==> |pages[u].hrefs| <= b
    decreases |pages.Keys|
  {
    if pages.Keys == {} then 0
    else
      var u :| u in pages.Keys;
      var rest := pages - {u};
      assert rest.Keys == pages.Keys - {u};
      assert forall v :: v in pages && v != u ==> v in rest && rest[v] == pages[v];
      var b := MaxLinks(rest);
      if |pages[u].hrefs| > b then |pages[u].hrefs| else b
  }

  ghost function Pow(k: nat, n: nat): (p: nat)
    ensures k >= 1 ==> p >= 1
  {
    if n == 0 then 1 else k * Pow(k, n - 1)
  }

  ghost function DepthWeight(d: int, maxDepth: int, k: nat): nat {
    if 0 <= d <= maxDepth then Pow(k, maxDepth - d + 1) else 1
  }

  ghost function QueueWeight(q: seq<Entry>, maxDepth: int, k: nat): nat {
    if q == [] then 0 else QueueWeight(q[..|q| - 1], maxDepth, k) + DepthWeight(q[|q| - 1].depth, maxDepth, k)
  }

  lemma {:induction false} QueueWeightAppend(a: seq<Entry>, b: seq<Entry>, maxDepth: int, k: nat)
    ensures QueueWeight(a + b, maxDepth, k) == QueueWeight(a, maxDepth, k) + QueueWeight(b, maxDepth, k)
    decreases |b|
  {
    if b != [] {
      assert (a + b)[..|a + b| - 1] == a + b[..|b| - 1];
      QueueWeightAppend(a, b[..|b| - 1], maxDepth, k);
    } else {
      assert a + b == a;
    }
  }

  lemma {:induction false} SameDepthWeight(q: seq<Entry>, d: int, maxDepth: int, k: nat)
    requires forall x :: x in q ==> x.depth == d
    ensures QueueWeight(q, maxDepth, k) == |q| * DepthWeight(d, maxDepth, k)
    decreases |q|
  {
    if q != [] {
      assert forall x :: x in q[..|q| - 1] ==> x in q;
      SameDepthWeight(q[..|q| - 1], d, maxDepth, k);
      assert q[|q| - 1] in q;
    }
  }

  lemma {:induction false} MulLess(c: nat, k: nat, p: nat)
    requires c < k && p >= 1
    ensures c * p < k * p
    decreases p
  {
    if p > 1 {
      MulLess(c, k, p - 1);
      assert c * p == c * (p - 1) + c;
      assert k * p == k * (p - 1) + k;
    }
  }

  /** The links one entry enqueues weigh less than the entry. */
  lemma LinksWeighLess(e: Entry, q: seq<Entry>, maxDepth: int, k: nat)
    requires 0 <= e.depth && |q| < k
    requires forall x :: x in q ==> x.depth == e.depth + 1 <= maxDepth
    ensures QueueWeight(q, maxDepth, k) < DepthWeight(e.depth, maxDepth, k)
  {
    if q == [] {
      assert QueueWeight(q, maxDepth, k) == 0;
    } else {
      assert q[0] in q;
      SameDepthWeight(q, e.depth + 1, maxDepth, k);
      var p := Pow(k, maxDepth - e.depth);
      assert DepthWeight(e.depth + 1, maxDepth, k) == p;
      assert DepthWeight(e.depth, maxDepth, k) == k * p;
      MulLess(|q|, k, p);
    }
  }

  /** The entry passes the depth test and the domain test. */
  predicate Admitted(e: Entry, sc: Scope) {
    e.depth <= sc.maxDepth && sc.host(e.url) in sc.allowed
  }

  /** Recording an admitted entry that is not yet seen keeps the frontier
      invariant: it is not a seed, so it is a link one level or more deep. */
  lemma AddRecordKeepsFrontier(seen: set<string>, records: seq<UrlRecord>, queue: seq<Entry>, e: Entry, sc: Scope, web: Web)
    requires FrontierOk(seen, records, queue, sc, web) && EntryOk(e, sc, web) && Admitted(e, sc) && e.url !in seen
    ensures FrontierOk(seen + {e.url}, records + [NewRecord(e.url, e.from, e.depth, sc.now)], queue, sc, web)
  {
    var rec := NewRecord(e.url, e.from, e.depth, sc.now);
    assert e.depth > 0;
    assert RecordOk(rec, sc, web);
    var rs := records + [rec];
    assert forall i :: 0 <= i < |records| ==> rs[i] == records[i];
  }

  /** Enqueuing the links of a page that answered 200 keeps the frontier invariant. */
  lemma AddLinksKeepsFrontier(seen: set<string>, records: seq<UrlRecord>, queue: seq<Entry>, e: Entry, sc: Scope, web: Web)
    requires FrontierOk(seen, records, queue, sc, web) && GoodPage(web, e.url) && 0 <= e.depth
    ensures FrontierOk(seen, records, queue + LinkEntries(e, web.pages[e.url].hrefs, seen, sc), sc, web)
  {
    var hrefs := web.pages[e.url].hrefs;
    var links := LinkEntries(e, hrefs, seen, sc);
    LinkEntriesFromHrefs(e, hrefs, seen, sc);
    forall x | x in links ensures EntryOk(x, sc, web) {
      assert Linked(web, sc, e.url, x.url);
    }
    var q := queue + links;
    forall i | 0 <= i < |q| ensures EntryOk(q[i], sc, web) {
      if i >= |queue| {
        assert q[i] in links;
      }
    }
  }

  /** The links of one page weigh less than the entry that fetched it. */
  lemma PageLinksWeighLess(e: Entry, seen: set<string>, sc: Scope, web: Web, k: nat)
    requires 0 <= e.depth && e.url in web.pages && k == MaxLinks(web.pages) + 1
    ensures QueueWeight(LinkEntries(e, web.pages[e.url].hrefs, seen, sc), sc.maxDepth, k) < DepthWeight(e.depth, sc.maxDepth, k)
  {
    var links := LinkEntries(e, web.pages[e.url].hrefs, seen, sc);
    LinksWeighLess(e, links, sc.maxDepth, k);
  }

  /** The walk's state: the seen set, the records and the queue. */
  datatype CrawlState = CrawlState(seen: set<string>, records: seq<UrlRecord>, queue: seq<Entry>)

  /** One entry of a batch: an admitted entry is marked seen, recorded when
      it was not seen before, and, when its page answers 200, its links are
      enqueued. */
  function Visit(e: Entry, sc: Scope, web: Web, st: CrawlState): CrawlState {
    if !Admitted(e, sc) then st
    else
      var seen := st.seen + {e.url};
      CrawlState(seen,
                 if e.url in st.seen then st.records else st.records + [NewRecord(e.url, e.from, e.depth, sc.now)],
                 if GoodPage(web, e.url) then st.queue + LinkEntries(e, web.pages[e.url].hrefs, seen, sc) else st.queue)
  }

  /** A batch, entry by entry. */
  function VisitAll(batch: seq<Entry>, sc: Scope, web: Web, st: CrawlState): CrawlState
    decreases |batch|
  {
    if batch == [] then st else VisitAll(batch[1..], sc, web, Visit(batch[0], sc, web, st))
  }

  predicate DepthsOk(q: seq<Entry>) {
    forall i :: 0 <= i < |q| ==> 0 <= q[i].depth
  }

  /** The loop guard of line 89, with the queue non-empty. */
  predicate Continues(sc: Scope, st: CrawlState) {
    st.queue != [] && |st.records| + CountDiscovered(st.records) < sc.maxPages
  }

  /** One round of the loop: cut a batch of `max_pages - len(records)`
      entries off the front of the queue and visit it. */
  function Step(sc: Scope, web: Web, st: CrawlState): CrawlState
    requires Continues(sc, st)
  {
    var batch := Take(st.queue, sc.maxPages - |st.records|);
    VisitAll(batch, sc, web, CrawlState(st.seen, st.records, st.queue[|batch|..]))
  }

  /** The `while` loop: take steps while the guard holds. */
  ghost function Walk(sc: Scope, web: Web, st: CrawlState): CrawlState
    requires DepthsOk(st.queue)
    decreases QueueWeight(st.queue, sc.maxDepth, MaxLinks(web.pages) + 1)
  {
    if !Continues(sc, st) then st
    else
      StepWeighsLess(sc, web, st);
      Walk(sc, web, Step(sc, web, st))
  }

  /** Visiting an entry adds less weight than the entry had. */
  lemma VisitWeighsLess(e: Entry, sc: Scope, web: Web, st: CrawlState)
    requires 0 <= e.depth && DepthsOk(st.queue)
    ensures var q := Visit(e, sc, web, st).queue;
            var k := MaxLinks(web.pages) + 1;
            && DepthsOk(q)
            && QueueWeight(q, sc.maxDepth, k) < QueueWeight(st.queue, sc.maxDepth, k) + DepthWeight(e.depth, sc.maxDepth, k)
  {
    var k := MaxLinks(web.pages) + 1;
    var v := Visit(e, sc, web, st);
    if Admitted(e, sc) && GoodPage(web, e.url) {
      var links := LinkEntries(e, web.pages[e.url].hrefs, v.seen, sc);
      assert v.queue == st.queue + links;
      QueueWeightAppend(st.queue, links, sc.maxDepth, k);
      PageLinksWeighLess(e, v.seen, sc, web, k);
      forall i | 0 <= i < |v.queue| ensures 0 <= v.queue[i].depth {
        if i >= |st.queue| {
          assert v.queue[i] in links;
        }
      }
    } else {
      assert v.queue == st.queue;
    }
  }

  lemma {:induction false} VisitAllWeighsLess(batch: seq<Entry>, sc: Scope, web: Web, st: CrawlState)
    requires DepthsOk(batch) && DepthsOk(st.queue)
    ensures var q := VisitAll(batch, sc, web, st).queue;
            var k := MaxLinks(web.pages) + 1;
            && DepthsOk(q)
            && QueueWeight(q, sc.maxDepth, k) + |batch| <= QueueWeight(st.queue, sc.maxDepth, k) + QueueWeight(batch, sc.maxDepth, k)
    decreases |batch|
  {
    if batch != [] {
      var k := MaxLinks(web.pages) + 1;
      assert 0 <= batch[0].depth;
      VisitWeighsLess(batch[0], sc, web, st);
      VisitAllWeighsLess(batch[1..], sc, web, Visit(batch[0], sc, web, st));
      assert batch == [batch[0]] + batch[1..];
      QueueWeightCons(batch[0], batch[1..], sc.maxDepth, k);
    }
  }

  /** One step of the walk leaves a lighter queue. */
  lemma StepWeighsLess(sc: Scope, web: Web, st: CrawlState)
    requires DepthsOk(st.queue) && Continues(sc, st)
    ensures var k := MaxLinks(web.pages) + 1;
            var q := Step(sc, web, st).queue;
            DepthsOk(q) && QueueWeight(q, sc.maxDepth, k) < QueueWeight(st.queue, sc.maxDepth, k)
  {
    var k := MaxLinks(web.pages) + 1;
    var batch := Take(st.queue, sc.maxPages - |st.records|);
    var rest := st.queue[|batch|..];
    assert st.queue == batch + rest;
    assert |batch| >= 1;
    QueueWeightAppend(batch, rest, sc.maxDepth, k);
    VisitAllWeighsLess(batch, sc, web, CrawlState(st.seen, st.records, rest));
  }

  /** A step is the visit of the batch cut off the front of the queue. */
  lemma StepIs(sc: Scope, web: Web, st: CrawlState, batch: seq<Entry>, rest: seq<Entry>)
    requires Continues(sc, st)
    requires batch == Take(st.queue, sc.maxPages - |st.records|) && rest == st.queue[|batch|..]
    ensures Step(sc, web, st) == VisitAll(batch, sc, web, CrawlState(st.seen, st.records, rest))
  {
  }

  /** A walk that continues is its next step's walk. */
  lemma WalkUnfolds(sc: Scope, web: Web, st: CrawlState)
    requires DepthsOk(st.queue) && Continues(sc, st)
    ensures DepthsOk(Step(sc, web, st).queue)
    ensures Walk(sc, web, st) == Walk(sc, web, Step(sc, web, st))
  {
    StepWeighsLess(sc, web, st);
  }

  /** A walk that does not continue is over. */
  lemma WalkEnds(sc: Scope, web: Web, st: CrawlState)
    requires DepthsOk(st.queue) && !Continues(sc, st)
    ensures Walk(sc, web, st) == st
  {
  }

  /** One entry of a batch: record it if new, then fetch it and enqueue its
      links when it answers 200. */
  method VisitEntry(e: Entry, sc: Scope, web: Web, seen0: set<string>, records0: seq<UrlRecord>,
                    queue0: seq<Entry>, ghost k: nat)
    returns (seen: set<string>, records: seq<UrlRecord>, queue: seq<Entry>)
    requires FrontierOk(seen0, records0, queue0, sc, web) && EntryOk(e, sc, web)
    requires k == MaxLinks(web.pages) + 1
    ensures FrontierOk(seen, records, queue, sc, web)
    ensures CrawlState(seen, records, queue) == Visit(e, sc, web, CrawlState(seen0, records0, queue0))
    ensures QueueWeight(queue[|queue0|..], sc.maxDepth, k) < DepthWeight(e.depth, sc.maxDepth, k)
  {
    seen, records, queue := seen0, records0, queue0;
    if !Admitted(e, sc) {
      assert queue[|queue0|..] == [];
      return;
    }
    if e.url !in seen {
      AddRecordKeepsFrontier(seen, records, queue, e, sc, web);
      seen := seen + {e.url};
      records := records + [NewRecord(e.url, e.from, e.depth, sc.now)];
    } else {
      assert seen == seen0 + {e.url};
    }
    if e.url in web.pages && web.pages[e.url].status == 200 {
      queue := ExpandLinks(e, web.pages[e.url].hrefs, seen, sc, queue0);
      AddLinksKeepsFrontier(seen, records, queue0, e, sc, web);
      PageLinksWeighLess(e, seen, sc, web, k);
      assert queue[|queue0|..] == LinkEntries(e, web.pages[e.url].hrefs, seen, sc);
    } else {
      assert queue[|queue0|..] == [];
    }
  }

  /** `len([r for r in records if r.state == DISCOVERED])`. */
  function CountDiscovered(rs: seq<UrlRecord>): (n: nat)
    ensures n <= |rs|
  {
    if rs == [] then 0
    else CountDiscovered(rs[..|rs| - 1]) + (if rs[|rs| - 1].state == Discovered then 1 else 0)
  }

  /** Every record the crawl holds is DISCOVERED, so the loop guard counts
      each record twice: the walk continues only while fewer than half of
      `max_pages` records are collected. */
  lemma {:induction false} GuardCountsRecordsTwice(rs: seq<UrlRecord>, maxPages: int)
    requires forall i :: 0 <= i < |rs| ==> rs[i].state == Discovered
    ensures |rs| + CountDiscovered(rs) < maxPages <==> 2 * |rs| < maxPages
    decreases |rs|
  {
    if rs != [] {
      GuardCountsRecordsTwice(rs[..|rs| - 1], maxPages - 2);
    }
  }

  /** The batch loop over one slice of the queue. */
  method VisitBatch(batch: seq<Entry>, sc: Scope, web: Web, seen0: set<string>, records0: seq<UrlRecord>,
                    queue0: seq<Entry>, ghost k: nat)
    returns (seen: set<string>, records: seq<UrlRecord>, queue: seq<Entry>)
    requires FrontierOk(seen0, records0, queue0, sc, web)
    requires forall i :: 0 <= i < |batch| ==> EntryOk(batch[i], sc, web)
    requires k == MaxLinks(web.pages) + 1
    ensures FrontierOk(seen, records, queue, sc, web)
    ensures CrawlState(seen, records, queue) == VisitAll(batch, sc, web, CrawlState(seen0, records0, queue0))
    ensures records0 <= records && |records| <= |records0| + |batch|
    ensures QueueWeight(queue, sc.maxDepth, k) + |batch| <= QueueWeight(queue0, sc.maxDepth, k) + QueueWeight(batch, sc.maxDepth, k)
  {
    seen, records, queue := seen0, records0, queue0;
    for i := 0 to |batch|
      invariant FrontierOk(seen, records, queue, sc, web)
      invariant VisitAll(batch[i..], sc, web, CrawlState(seen, records, queue)) == VisitAll(batch, sc, web, CrawlState(seen0, records0, queue0))
      invariant records0 <= records && |records| <= |records0| + i
      invariant QueueWeight(queue, sc.maxDepth, k) + QueueWeight(batch[i..], sc.maxDepth, k) + i
                <= QueueWeight(queue0, sc.maxDepth, k) + QueueWeight(batch, sc.maxDepth, k)
    {
      ghost var before := queue;
      assert batch[i..][0] == batch[i] && batch[i..][1..] == batch[i + 1..];
      seen, records, queue := VisitEntry(batch[i], sc, web, seen, records, queue, k);
      BatchWeightStep(before, queue, batch, i, sc.maxDepth, k);
    }
  }

  lemma QueueWeightCons(x: Entry, q: seq<Entry>, maxDepth: int, k: nat)
    ensures QueueWeight([x] + q, maxDepth, k) == DepthWeight(x.depth, maxDepth, k) + QueueWeight(q, maxDepth, k)
  {
    QueueWeightAppend([x], q, maxDepth, k);
    assert [x][..0] == [];
  }

  lemma BatchWeightStep(before: seq<Entry>, after: seq<Entry>, batch: seq<Entry>, i: nat, m: int, k: nat)
    requires i < |batch| && |before| <= |after| && after[..|before|] == before
    requires QueueWeight(after[|before|..], m, k) < DepthWeight(batch[i].depth, m, k)
    ensures QueueWeight(after, m, k) + QueueWeight(batch[i + 1..], m, k) + 1
            <= QueueWeight(before, m, k) + QueueWeight(batch[i..], m, k)
  {
    var added := after[|before|..];
    assert after == before + added;
    QueueWeightAppend(before, added, m, k);
    var tail := batch[i + 1..];
    assert batch[i..] == [batch[i]] + tail;
    QueueWeightCons(batch[i], tail, m, k);
  }

  /** Cutting a batch off the front of the queue keeps the frontier
      invariant for the rest and splits the weight. */
  lemma SplitFrontier(seen: set<string>, records: seq<UrlRecord>, queue: seq<Entry>, m: nat, sc: Scope, web: Web, k: nat)
    requires FrontierOk(seen, records, queue, sc, web) && m <= |queue|
    ensures FrontierOk(seen, records, queue[m..], sc, web)
    ensures forall i :: 0 <= i < m ==> EntryOk(queue[..m][i], sc, web)
    ensures QueueWeight(queue, sc.maxDepth, k) == QueueWeight(queue[..m], sc.maxDepth, k) + QueueWeight(queue[m..], sc.maxDepth, k)
  {
    assert queue == queue[..m] + queue[m..];
    QueueWeightAppend(queue[..m], queue[m..], sc.maxDepth, k);
    assert forall i :: 0 <= i < |queue| - m ==> queue[m..][i] == queue[m + i];
  }

  /** The breadth-first walk: take batches off the front of the queue while
      it is non-empty and the guard holds. */
  method CrawlLinks(sc: Scope, web: Web, seen0: set<string>, records0: seq<UrlRecord>, queue0: seq<Entry>)
    returns (records: seq<UrlRecord>)
    requires FrontierOk(seen0, records0, queue0, sc, web)
    ensures records == Walk(sc, web, CrawlState(seen0, records0, queue0)).records
    ensures records0 <= records
    ensures records == records0 || |records| <= sc.maxPages
    ensures (forall i :: 0 <= i < |records| ==> RecordOk(records[i], sc, web))
    ensures DistinctUrls(records) && SitemapFirst(records)
  {
    ghost var k := MaxLinks(web.pages) + 1;
    var seen, queue := seen0, queue0;
    records := records0;
    while queue != [] && |records| + CountDiscovered(records) < sc.maxPages
      invariant FrontierOk(seen, records, queue, sc, web) && DepthsOk(queue)
      invariant Walk(sc, web, CrawlState(seen, records, queue)) == Walk(sc, web, CrawlState(seen0, records0, queue0))
      invariant records0 <= records
      invariant records == records0 || |records| <= sc.maxPages
      decreases QueueWeight(queue, sc.maxDepth, k)
    {
      seen, records, queue := CrawlRound(sc, web, seen, records, queue, k);
    }
    WalkEnds(sc, web, CrawlState(seen, records, queue));
  }

  /** One round of the `while` loop: cut a batch of `max_pages - len(records)`
      entries off the front of the queue and visit it. */
  method CrawlRound(sc: Scope, web: Web, seen0: set<string>, records0: seq<UrlRecord>, queue0: seq<Entry>, ghost k: nat)
    returns (seen: set<string>, records: seq<UrlRecord>, queue: seq<Entry>)
    requires FrontierOk(seen0, records0, queue0, sc, web) && DepthsOk(queue0)
    requires Continues(sc, CrawlState(seen0, records0, queue0))
    requires k == MaxLinks(web.pages) + 1
    ensures FrontierOk(seen, records, queue, sc, web) && DepthsOk(queue)
    ensures Walk(sc, web, CrawlState(seen, records, queue)) == Walk(sc, web, CrawlState(seen0, records0, queue0))
    ensures records0 <= records && |records| <= sc.maxPages
    ensures QueueWeight(queue, sc.maxDepth, k) < QueueWeight(queue0, sc.maxDepth, k)
  {
    var batch := Take(queue0, sc.maxPages - |records0|);
    var rest := queue0[|batch|..];
    assert batch == queue0[..|batch|];
    SplitFrontier(seen0, records0, queue0, |batch|, sc, web, k);
    seen, records, queue := VisitBatch(batch, sc, web, seen0, records0, rest, k);
    ghost var st := CrawlState(seen0, records0, queue0);
    StepIs(sc, web, st, batch, rest);
    StepWeighsLess(sc, web, st);
    WalkUnfolds(sc, web, st);
  }

  // Completeness of the walk. `done` is the set of entries visited so far,
  // `pending` what is still to be visited (the rest of the batch, then the
  // queue) and `base` what was seen before the walk: the seeds and the
  // sitemap finds.

  /** `u` is within `n` hops of a seed on an allowed host, through pages
      that answer 200 and are not sitemap finds (the walk never fetches
      those), each hop an allowed link target. */
  ghost predicate Reaches(sc: Scope, web: Web, finds: set<string>, u: string, n: nat)
    decreases n
  {
    (u in sc.seedSet && sc.host(u) in sc.allowed)
    || (n > 0 && Reaches(sc, web, finds, u, n - 1))
    || (n > 0 && sc.host(u) in sc.allowed
        && exists v, h :: Reaches(sc, web, finds, v, n - 1) && v !in finds && GoodPage(web, v)
                           && h in web.pages[v].hrefs && sc.linkTarget(v, h) == Some(u))
  }

  /** A link the walk has to follow from the page of the visited entry `p`. */
  ghost predicate Hop(p: Entry, h: string, sc: Scope, web: Web) {
    Admitted(p, sc) && GoodPage(web, p.url) && h in web.pages[p.url].hrefs && p.depth + 1 <= sc.maxDepth
    && sc.linkTarget(p.url, h).Some? && sc.host(sc.linkTarget(p.url, h).value) in sc.allowed
  }

  /** An admitted entry for `t` at depth `d` or less is visited or pending. */
  ghost predicate Covered(t: string, d: int, done: set<Entry>, pending: seq<Entry>, sc: Scope) {
    (exists q :: q in done && Admitted(q, sc) && q.url == t && q.depth <= d)
    || (exists j :: 0 <= j < |pending| && Admitted(pending[j], sc) && pending[j].url == t && pending[j].depth <= d)
  }

  /** Breadth-first order: pending depths never fall and span one level,
      and nothing visited is deeper than anything pending. */
  ghost predicate Layered(done: set<Entry>, pending: seq<Entry>) {
    && (forall i, j :: 0 <= i < j < |pending| ==> pending[i].depth <= pending[j].depth <= pending[i].depth + 1)
    && (forall p, j :: p in done && 0 <= j < |pending| ==> p.depth <= pending[j].depth)
  }

  /** What is seen is the base and the visited admitted entries, and all of
      it is a seed or recorded. */
  ghost predicate SeenOk(base: set<string>, seen: set<string>, records: seq<UrlRecord>, done: set<Entry>, sc: Scope) {
    && base <= seen
    && seen <= sc.seedSet + UrlsOf(records)
    && (forall u :: u in seen ==> u in base || exists q :: q in done && Admitted(q, sc) && q.url == u)
    && (forall q :: q in done && Admitted(q, sc) ==> q.url in seen)
  }

  /** Every allowed seed, and every link of a visited page that the walk
      has to follow, is handled. */
  ghost predicate HopsCovered(base: set<string>, pending: seq<Entry>, done: set<Entry>, sc: Scope, web: Web) {
    && (forall s :: s in sc.seedSet && sc.host(s) in sc.allowed ==> Covered(s, 0, done, pending, sc))
    && (forall p, h :: p in done && Hop(p, h, sc, web) ==>
          sc.linkTarget(p.url, h).value in base || Covered(sc.linkTarget(p.url, h).value, p.depth + 1, done, pending, sc))
  }

  ghost predicate WalkInv(base: set<string>, seen: set<string>, records: seq<UrlRecord>, pending: seq<Entry>,
                          done: set<Entry>, sc: Scope, web: Web) {
    Layered(done, pending) && SeenOk(base, seen, records, done, sc) && HopsCovered(base, pending, done, sc, web)
  }

  /** Visiting the head of the pending list keeps it handled. */
  lemma CoveredStep(t: string, d: int, e: Entry, rest: seq<Entry>, links: seq<Entry>, done: set<Entry>, sc: Scope)
    requires Covered(t, d, done, [e] + rest, sc)
    ensures Covered(t, d, done + {e}, rest + links, sc)
  {
    if !exists q :: q in done && Admitted(q, sc) && q.url == t && q.depth <= d {
      var j :| 0 <= j < |[e] + rest| && Admitted(([e] + rest)[j], sc) && ([e] + rest)[j].url == t && ([e] + rest)[j].depth <= d;
      if j == 0 {
        assert e in done + {e};
      } else {
        assert (rest + links)[j - 1] == ([e] + rest)[j];
      }
    }
  }

  lemma LayeredStep(e: Entry, rest: seq<Entry>, links: seq<Entry>, done: set<Entry>)
    requires Layered(done, [e] + rest)
    requires forall x :: x in links ==> x.depth == e.depth + 1
    ensures Layered(done + {e}, rest + links)
  {
    var old_ := [e] + rest;
    var q := rest + links;
    forall i | 0 <= i < |rest| ensures e.depth <= q[i].depth <= e.depth + 1 {
      assert q[i] == old_[i + 1];
    }
    assert forall i :: |rest| <= i < |q| ==> q[i] in links;
    forall i, j | 0 <= i < j < |q| ensures q[i].depth <= q[j].depth <= q[i].depth + 1 {
      if j < |rest| {
        assert q[i] == old_[i + 1] && q[j] == old_[j + 1];
      }
    }
    forall p, j | p in done + {e} && 0 <= j < |q| ensures p.depth <= q[j].depth {
      if p in done {
        assert p.depth <= old_[0].depth;
      }
    }
  }

  lemma VisitKeepsSeenOk(e: Entry, st: CrawlState, base: set<string>, done: set<Entry>, sc: Scope, web: Web)
    requires SeenOk(base, st.seen, st.records, done, sc)
    ensures var v := Visit(e, sc, web, st);
            SeenOk(base, v.seen, v.records, done + {e}, sc)
  {
    var v := Visit(e, sc, web, st);
    if Admitted(e, sc) && e.url !in st.seen {
      UrlsOfSnoc(st.records, NewRecord(e.url, e.from, e.depth, sc.now));
    }
    forall u | u in v.seen ensures u in base || exists q :: q in done + {e} && Admitted(q, sc) && q.url == u {
      if u !in st.seen {
        assert e in done + {e};
      }
    }
  }

  /** Every link one `href` enqueues is among the page's links. */
  lemma {:induction false} LinkEntryIncluded(e: Entry, hrefs: seq<string>, h: string, seen: set<string>, sc: Scope)
    requires h in hrefs
    ensures forall x :: x in LinkEntry(e, h, seen, sc) ==> x in LinkEntries(e, hrefs, seen, sc)
    decreases |hrefs|
  {
    if hrefs[|hrefs| - 1] != h {
      assert h in hrefs[..|hrefs| - 1] by {
        var i :| 0 <= i < |hrefs| && hrefs[i] == h;
        assert hrefs[..|hrefs| - 1][i] == h;
      }
      LinkEntryIncluded(e, hrefs[..|hrefs| - 1], h, seen, sc);
    }
  }

  /** The links of the page just visited are handled. */
  lemma NewHopsCovered(e: Entry, rest: seq<Entry>, st: CrawlState, base: set<string>, done: set<Entry>, sc: Scope, web: Web, h: string)
    requires Layered(done, [e] + rest)
    requires var v := Visit(e, sc, web, st);
             SeenOk(base, v.seen, v.records, done + {e}, sc)
    requires Hop(e, h, sc, web)
    ensures var v := Visit(e, sc, web, st);
            var t := sc.linkTarget(e.url, h).value;
            t in base || Covered(t, e.depth + 1, done + {e}, rest + v.queue[|st.queue|..], sc)
  {
    var v := Visit(e, sc, web, st);
    var t := sc.linkTarget(e.url, h).value;
    var hrefs := web.pages[e.url].hrefs;
    var links := LinkEntries(e, hrefs, v.seen, sc);
    assert v.queue == st.queue + links;
    assert v.queue[|st.queue|..] == links;
    if t in v.seen {
      if t !in base {
        var q :| q in done + {e} && Admitted(q, sc) && q.url == t;
        if q in done {
          assert q.depth <= ([e] + rest)[0].depth;
        }
      }
    } else {
      var x := Entry(t, Some(e.url), e.depth + 1);
      assert LinkEntry(e, h, v.seen, sc) == [x];
      LinkEntryIncluded(e, hrefs, h, v.seen, sc);
      assert x in links;
      var j :| 0 <= j < |links| && links[j] == x;
      assert (rest + links)[|rest| + j] == x;
    }
  }

  lemma VisitKeepsHopsCovered(e: Entry, rest: seq<Entry>, st: CrawlState, base: set<string>, done: set<Entry>, sc: Scope, web: Web)
    requires Layered(done, [e] + rest)
    requires HopsCovered(base, [e] + rest, done, sc, web)
    requires var v := Visit(e, sc, web, st);
             SeenOk(base, v.seen, v.records, done + {e}, sc)
    ensures var v := Visit(e, sc, web, st);
            HopsCovered(base, rest + v.queue[|st.queue|..], done + {e}, sc, web)
  {
    var v := Visit(e, sc, web, st);
    var links := v.queue[|st.queue|..];
    forall s | s in sc.seedSet && sc.host(s) in sc.allowed ensures Covered(s, 0, done + {e}, rest + links, sc) {
      CoveredStep(s, 0, e, rest, links, done, sc);
    }
    forall p, h | p in done + {e} && Hop(p, h, sc, web)
      ensures sc.linkTarget(p.url, h).value in base
              || Covered(sc.linkTarget(p.url, h).value, p.depth + 1, done + {e}, rest + links, sc)
    {
      var t := sc.linkTarget(p.url, h).value;
      if p in done {
        if t !in base {
          CoveredStep(t, p.depth + 1, e, rest, links, done, sc);
        }
      } else {
        NewHopsCovered(e, rest, st, base, done, sc, web, h);
      }
    }
  }

  /** Visiting the head of the pending list keeps the invariant. */
  lemma VisitKeepsWalkInv(e: Entry, before: seq<Entry>, st: CrawlState, base: set<string>, done: set<Entry>, sc: Scope, web: Web)
    requires WalkInv(base, st.seen, st.records, [e] + (before + st.queue), done, sc, web)
    ensures var v := Visit(e, sc, web, st);
            WalkInv(base, v.seen, v.records, before + v.queue, done + {e}, sc, web)
  {
    var v := Visit(e, sc, web, st);
    var rest := before + st.queue;
    assert |st.queue| <= |v.queue| && v.queue[..|st.queue|] == st.queue;
    var links := v.queue[|st.queue|..];
    assert v.queue == st.queue + links;
    assert before + v.queue == rest + links;
    assert forall x :: x in links ==> x.depth == e.depth + 1 by {
      if Admitted(e, sc) && GoodPage(web, e.url) {
        assert links == LinkEntries(e, web.pages[e.url].hrefs, v.seen, sc);
      } else {
        assert links == [];
      }
    }
    LayeredStep(e, rest, links, done);
    VisitKeepsSeenOk(e, st, base, done, sc, web);
    VisitKeepsHopsCovered(e, rest, st, base, done, sc, web);
  }

  lemma {:induction false} VisitAllKeepsWalkInv(batch: seq<Entry>, st: CrawlState, base: set<string>, done: set<Entry>, sc: Scope, web: Web)
    returns (done': set<Entry>)
    requires WalkInv(base, st.seen, st.records, batch + st.queue, done, sc, web)
    ensures var v := VisitAll(batch, sc, web, st);
            WalkInv(base, v.seen, v.records, v.queue, done', sc, web)
    decreases |batch|
  {
    if batch == [] {
      assert batch + st.queue == st.queue;
      done' := done;
    } else {
      assert batch + st.queue == [batch[0]] + (batch[1..] + st.queue);
      VisitKeepsWalkInv(batch[0], batch[1..], st, base, done, sc, web);
      done' := VisitAllKeepsWalkInv(batch[1..], Visit(batch[0], sc, web, st), base, done + {batch[0]}, sc, web);
    }
  }

  lemma {:induction false} WalkKeepsWalkInv(sc: Scope, web: Web, st: CrawlState, base: set<string>, done: set<Entry>)
    returns (done': set<Entry>)
    requires DepthsOk(st.queue)
    requires WalkInv(base, st.seen, st.records, st.queue, done, sc, web)
    ensures var w := Walk(sc, web, st);
            WalkInv(base, w.seen, w.records, w.queue, done', sc, web)
    decreases QueueWeight(st.queue, sc.maxDepth, MaxLinks(web.pages) + 1)
  {
    if !Continues(sc, st) {
      done' := done;
    } else {
      var batch := Take(st.queue, sc.maxPages - |st.records|);
      var rest := st.queue[|batch|..];
      assert batch + rest == st.queue;
      var mid := VisitAllKeepsWalkInv(batch, CrawlState(st.seen, st.records, rest), base, done, sc, web);
      var next := Step(sc, web, st);
      StepIs(sc, web, st, batch, rest);
      StepWeighsLess(sc, web, st);
      WalkUnfolds(sc, web, st);
      done' := WalkKeepsWalkInv(sc, web, next, base, mid);
    }
  }

  /** The walk stops only on an empty queue or a failed guard. */
  lemma {:induction false} WalkStops(sc: Scope, web: Web, st: CrawlState)
    requires DepthsOk(st.queue)
    ensures var w := Walk(sc, web, st);
            w.queue == [] || |w.records| + CountDiscovered(w.records) >= sc.maxPages
    decreases QueueWeight(st.queue, sc.maxDepth, MaxLinks(web.pages) + 1)
  {
    if Continues(sc, st) {
      StepWeighsLess(sc, web, st);
      WalkUnfolds(sc, web, st);
      WalkStops(sc, web, Step(sc, web, st));
    } else {
      WalkEnds(sc, web, st);
    }
  }

  /** Once nothing is pending, whatever is reached within `n <= max_depth`
      hops is a sitemap find or was visited at depth `n` or less. */
  lemma {:induction false} ReachedIsVisited(sc: Scope, web: Web, finds: set<string>, seen: set<string>, records: seq<UrlRecord>,
                                            done: set<Entry>, u: string, n: nat)
    requires WalkInv(sc.seedSet + finds, seen, records, [], done, sc, web)
    requires n <= sc.maxDepth && Reaches(sc, web, finds, u, n)
    ensures u in finds || exists q :: q in done && Admitted(q, sc) && q.url == u && q.depth <= n
    decreases n
  {
    if u in sc.seedSet && sc.host(u) in sc.allowed {
      assert Covered(u, 0, done, [], sc);
    } else if n > 0 && Reaches(sc, web, finds, u, n - 1) {
      ReachedIsVisited(sc, web, finds, seen, records, done, u, n - 1);
    } else {
      var v, h :| Reaches(sc, web, finds, v, n - 1) && v !in finds && GoodPage(web, v)
                  && h in web.pages[v].hrefs && sc.linkTarget(v, h) == Some(u);
      ReachedIsVisited(sc, web, finds, seen, records, done, v, n - 1);
      var q :| q in done && Admitted(q, sc) && q.url == v && q.depth <= n - 1;
      assert Hop(q, h, sc, web);
      if u !in sc.seedSet + finds {
        assert Covered(u, q.depth + 1, done, [], sc);
      }
    }
  }

  /** The invariant holds when the walk starts: nothing is visited, every
      distinct seed is queued at depth 0, and what is seen is the seeds and
      the sitemap finds. */
  lemma StartWalkInv(seeds: seq<string>, sc: Scope, web: Web, seen: set<string>, found: seq<UrlRecord>, queue: seq<Entry>)
    requires sc.seedSet == SeedSet(seeds, sc.normalize) && 0 <= sc.maxDepth
    requires queue == SeedEntries(Distinct(Norms(seeds, sc.normalize)))
    requires sc.seedSet <= seen
    requires forall i :: 0 <= i < |found| ==> found[i].url in seen
    requires forall u :: u in seen ==> u in sc.seedSet || exists i :: 0 <= i < |found| && found[i].url == u
    ensures WalkInv(sc.seedSet + UrlsOf(found), seen, found, queue, {}, sc, web)
  {
    var base := sc.seedSet + UrlsOf(found);
    forall u | u in seen ensures u in base {
      if u !in sc.seedSet {
        var i :| 0 <= i < |found| && found[i].url == u;
        assert found[i] in found;
      }
    }
    forall u | u in UrlsOf(found) ensures u in seen {
      var r :| r in found && r.url == u;
      var i :| 0 <= i < |found| && found[i] == r;
    }
    var ns := Distinct(Norms(seeds, sc.normalize));
    forall s | s in sc.seedSet && sc.host(s) in sc.allowed ensures Covered(s, 0, {}, queue, sc) {
      assert s in ns;
      var j :| 0 <= j < |ns| && ns[j] == s;
      assert queue[j] == Entry(s, None, 0);
    }
  }

  /** Without seeds nothing is reached. */
  lemma {:induction false} NoSeedsReachNothing(sc: Scope, web: Web, finds: set<string>, u: string, n: nat)
    requires sc.seedSet == {}
    ensures !Reaches(sc, web, finds, u, n)
    decreases n
  {
    if n > 0 {
      var m := n - 1;
      forall v ensures !Reaches(sc, web, finds, v, m) {
        NoSeedsReachNothing(sc, web, finds, v, m);
      }
    }
  }

  /** A walk that ends with an empty queue has seen everything reachable
      within `max_depth` hops. */
  lemma WalkReachesAll(sc: Scope, web: Web, st: CrawlState, finds: set<string>)
    requires DepthsOk(st.queue) && 0 <= sc.maxDepth
    requires WalkInv(sc.seedSet + finds, st.seen, st.records, st.queue, {}, sc, web)
    ensures var w := Walk(sc, web, st);
            w.queue == [] ==> forall u :: Reaches(sc, web, finds, u, sc.maxDepth) ==> u in sc.seedSet || u in UrlsOf(w.records)
  {
    var w := Walk(sc, web, st);
    var done := WalkKeepsWalkInv(sc, web, st, sc.seedSet + finds, {});
    if w.queue == [] {
      forall u | Reaches(sc, web, finds, u, sc.maxDepth) ensures u in sc.seedSet || u in UrlsOf(w.records) {
        ReachedIsVisited(sc, web, finds, w.seen, w.records, done, u, sc.maxDepth);
      }
    }
  }

  function UrlsOf(rs: seq<UrlRecord>): set<string> {
    set r | r in rs :: r.url
  }

  lemma UrlsOfSnoc(rs: seq<UrlRecord>, x: UrlRecord)
    ensures UrlsOf(rs + [x]) == UrlsOf(rs) + {x.url}
  {
    assert forall r :: r in rs + [x] <==> r in rs || r == x;
  }

  /** The URLs in insertion order of a dict keyed by URL that keeps the
      first record of each URL. */
  function DedupSpec(rs: seq<UrlRecord>): (r: seq<UrlRecord>)
    ensures DistinctUrls(r)
    ensures UrlsOf(r) == UrlsOf(rs)
    ensures forall x :: x in r ==> x in rs
  {
    if rs == [] then []
    else
      var prefix := rs[..|rs| - 1];
      var last := rs[|rs| - 1];
      var d := DedupSpec(prefix);
      assert forall x :: x in rs ==> x in prefix || x == last;
      assert rs == prefix + [last];
      UrlsOfSnoc(prefix, last);
      UrlsOfSnoc(d, last);
      if last.url in UrlsOf(d) then d else d + [last]
  }

  /** On records with distinct URLs the de-duplication changes nothing. */
  lemma {:induction false} DedupOfDistinct(rs: seq<UrlRecord>)
    requires DistinctUrls(rs)
    ensures DedupSpec(rs) == rs
    decreases |rs|
  {
    if rs != [] {
      var prefix := rs[..|rs| - 1];
      DedupOfDistinct(prefix);
      assert rs[|rs| - 1].url !in UrlsOf(prefix);
    }
  }

  /** The `by_url` loop. */
  method DedupByUrl(rs: seq<UrlRecord>) returns (kept: seq<UrlRecord>)
    ensures kept == DedupSpec(rs)
  {
    kept := [];
    var byUrl: set<string> := {};
    for i := 0 to |rs|
      invariant kept == DedupSpec(rs[..i])
      invariant byUrl == UrlsOf(kept)
    {
      assert rs[..i + 1][..i] == rs[..i];
      if rs[i].url !in byUrl {
        kept := kept + [rs[i]];
        byUrl := byUrl + {rs[i].url};
      }
    }
    assert rs[..|rs|] == rs;
  }

  /** What the crawl relies on about the scope of a configuration. */
  lemma ScopeWithFacts(config: Config, startUrls: seq<string>, join: Joiner, now: string, normalize: Normalizer)
    requires ValidCrawlLimits(config.crawlLimits)
    ensures var sc := ScopeWith(config, startUrls, join, now, normalize);
            var seeds := Seeds(config, startUrls);
            && sc.seedSet == SeedSet(seeds, sc.normalize)
            && sc.sitemapUrls == (set s | s in seeds :: sc.sitemapOf(s))
            && 0 <= sc.maxDepth && 1 <= sc.maxPages
  {
  }

  /** Every seed entry is a depth-0 seed. */
  lemma SeedEntriesOk(seeds: seq<string>, sc: Scope, web: Web)
    requires sc.seedSet == SeedSet(seeds, sc.normalize)
    ensures var q := SeedEntries(Distinct(Norms(seeds, sc.normalize)));
            forall i :: 0 <= i < |q| ==> EntryOk(q[i], sc, web)
  {
    var ns := Distinct(Norms(seeds, sc.normalize));
    var q := SeedEntries(ns);
    forall i | 0 <= i < |q| ensures EntryOk(q[i], sc, web) {
      assert ns[i] in ns;
    }
  }

  /** The frontier after the sitemap phase. */
  lemma StartFrontier(seen: set<string>, found: seq<UrlRecord>, queue: seq<Entry>, sc: Scope, web: Web)
    requires sc.seedSet <= seen
    requires forall i :: 0 <= i < |found| ==> found[i].url in seen && found[i].depth == 0 && RecordOk(found[i], sc, web)
    requires DistinctUrls(found)
    requires forall i :: 0 <= i < |queue| ==> EntryOk(queue[i], sc, web)
    ensures FrontierOk(seen, found, queue, sc, web)
  {
  }

  /** A prefix of a list of valid records is a list of valid records. */
  lemma PrefixRecordsOk(r: seq<UrlRecord>, rs: seq<UrlRecord>, sc: Scope, web: Web)
    requires r <= rs
    requires forall i :: 0 <= i < |rs| ==> RecordOk(rs[i], sc, web)
    requires DistinctUrls(rs) && SitemapFirst(rs)
    ensures forall i :: 0 <= i < |r| ==> RecordOk(r[i], sc, web)
    ensures DistinctUrls(r) && SitemapFirst(r)
  {
    assert forall i :: 0 <= i < |r| ==> r[i] == rs[i];
  }

  /** The URLs the sitemap phase can find: the normalised `<loc>`s of the
      seeds' well-formed sitemaps that are on an allowed host and are not
      seeds themselves. */
  ghost function SitemapFinds(seeds: seq<string>, sc: Scope, web: Web): set<string> {
    set s, l | s in seeds && GoodSitemap(web, sc.sitemapOf(s)) && l in web.sitemaps[sc.sitemapOf(s)].locs
                 && sc.host(sc.normalize(l, None)) in sc.allowed && sc.normalize(l, None) !in sc.seedSet
      :: sc.normalize(l, None)
  }

  /** The sitemap phase records each of those URLs, and nothing else. */
  lemma FoundAreSitemapFinds(seeds: seq<string>, sc: Scope, web: Web, seen: set<string>, found: seq<UrlRecord>)
    requires sc.sitemapUrls == set s | s in seeds :: sc.sitemapOf(s)
    requires forall i :: 0 <= i < |found| ==> found[i].depth == 0 && RecordOk(found[i], sc, web)
    requires forall u :: u in seen ==> u in sc.seedSet || exists i :: 0 <= i < |found| && found[i].url == u
    requires forall s, l :: s in seeds && GoodSitemap(web, sc.sitemapOf(s)) && l in web.sitemaps[sc.sitemapOf(s)].locs ==>
               sc.host(sc.normalize(l, None)) in sc.allowed ==> sc.normalize(l, None) in seen
    ensures UrlsOf(found) == SitemapFinds(seeds, sc, web)
  {
    var finds := SitemapFinds(seeds, sc, web);
    forall x | x in found ensures x.url in finds {
      var sm := x.discoveredFrom.value;
      var s :| s in seeds && sc.sitemapOf(s) == sm;
      var l :| l in web.sitemaps[sm].locs && sc.normalize(l, None) == x.url;
    }
    forall u | u in finds ensures u in UrlsOf(found) {
      var s, l :| s in seeds && GoodSitemap(web, sc.sitemapOf(s)) && l in web.sitemaps[sc.sitemapOf(s)].locs
                  && sc.host(sc.normalize(l, None)) in sc.allowed && sc.normalize(l, None) !in sc.seedSet
                  && u == sc.normalize(l, None);
      var i :| 0 <= i < |found| && found[i].url == u;
      assert found[i] in found;
    }
  }

  /** Records with distinct URLs have as many URLs as records. */
  lemma {:induction false} DistinctUrlsCount(rs: seq<UrlRecord>)
    requires DistinctUrls(rs)
    ensures |UrlsOf(rs)| == |rs|
    decreases |rs|
  {
    if rs != [] {
      var prefix := rs[..|rs| - 1];
      var last := rs[|rs| - 1];
      assert rs == prefix + [last];
      UrlsOfSnoc(prefix, last);
      DistinctUrlsCount(prefix);
      forall x | x in prefix ensures x.url != last.url {
        var j :| 0 <= j < |prefix| && prefix[j] == x;
        assert rs[j] == x;
      }
    }
  }

  /** What a crawl guarantees about its records: no seeds gives no records;
      otherwise see `CrawledIn`. */
  ghost predicate Crawled(config: Config, startUrls: seq<string>, web: Web, now: string, records: seq<UrlRecord>) {
    && (Seeds(config, startUrls) == [] ==> records == [])
    && CrawledIn(Seeds(config, startUrls), ScopeOf(config, startUrls, web.join, now), web, records)
  }

  /** What a crawl from `seeds` within the scope `sc` records: at most
      `max_pages` records with distinct URLs, sitemap records first, each
      satisfying `RecordOk`. When the sitemaps yield no more than
      `max_pages` URLs all of them are recorded, and otherwise the records
      are `max_pages` of them. When fewer than half of `max_pages` records
      are collected the link walk ran until its queue was empty, so every
      URL it `Reaches` within `max_depth` hops is a seed or recorded. */
  ghost predicate CrawledIn(seeds: seq<string>, sc: Scope, web: Web, records: seq<UrlRecord>) {
    var finds := SitemapFinds(seeds, sc, web);
    && |records| <= sc.maxPages
    && DistinctUrls(records) && SitemapFirst(records)
    && (forall i :: 0 <= i < |records| ==> RecordOk(records[i], sc, web))
    && (|finds| <= sc.maxPages ==> finds <= UrlsOf(records))
    && (|finds| > sc.maxPages ==> UrlsOf(records) <= finds)
    && |records| >= (if |finds| <= sc.maxPages then |finds| else sc.maxPages)
    && (0 <= sc.maxDepth && 2 * |records| < sc.maxPages ==>
          forall u :: Reaches(sc, web, finds, u, sc.maxDepth) ==> u in sc.seedSet || u in UrlsOf(records))
  }

  /** Reaching within fewer hops is reaching within more. */
  lemma {:induction false} ReachesWithin(sc: Scope, web: Web, finds: set<string>, u: string, m: nat, n: nat)
    requires m <= n && Reaches(sc, web, finds, u, m)
    ensures Reaches(sc, web, finds, u, n)
    decreases n - m
  {
    if m < n {
      ReachesWithin(sc, web, finds, u, m, n - 1);
    }
  }

  /** A link on a seed's page is followed: with `max_depth` at least 1, an
      allowed target that is not a seed is recorded unless half of
      `max_pages` records were collected first, so the crawl records
      something. */
  lemma SeedLinkRecorded(seeds: seq<string>, sc: Scope, web: Web, records: seq<UrlRecord>, s: string, h: string, t: string)
    requires CrawledIn(seeds, sc, web, records)
    requires 1 <= sc.maxDepth && 1 <= sc.maxPages
    requires s in sc.seedSet && sc.host(s) in sc.allowed && GoodPage(web, s) && h in web.pages[s].hrefs
    requires sc.linkTarget(s, h) == Some(t) && sc.host(t) in sc.allowed && t !in sc.seedSet
    ensures t in UrlsOf(records) || 2 * |records| >= sc.maxPages
    ensures |records| >= 1
  {
    var finds := SitemapFinds(seeds, sc, web);
    assert s !in finds;
    assert Reaches(sc, web, finds, s, 0);
    assert Reaches(sc, web, finds, t, 1);
    ReachesWithin(sc, web, finds, t, 1, sc.maxDepth);
    if 2 * |records| < sc.maxPages {
      assert t in UrlsOf(records);
    }
  }

  /** `crawl_tool`, normalising with the corrected `normalize_url`. */
  method CrawlTool(config: Config, startUrls: seq<string>, web: Web, now: string) returns (records: seq<UrlRecord>)
    requires ValidCrawlLimits(config.crawlLimits)
    ensures Crawled(config, startUrls, web, now, records)
  {
    records := CrawlWith(config, startUrls, web, now, (u, b) => NormalizeUrl(u, b, web.join));
  }

  /** `crawl_tool` as written, normalising with `normalize_url` as written. */
  method CrawlToolAsWritten(config: Config, startUrls: seq<string>, web: Web, now: string) returns (records: seq<UrlRecord>)
    requires ValidCrawlLimits(config.crawlLimits)
    ensures Seeds(config, startUrls) == [] ==> records == []
    ensures CrawledIn(Seeds(config, startUrls), ScopeOfAsWritten(config, startUrls, web.join, now), web, records)
  {
    records := CrawlWith(config, startUrls, web, now, (u, b) => NormalizeUrlAsWritten(u, b, web.join));
  }

  /** `crawl_tool` with the normaliser `normalize`. */
  method CrawlWith(config: Config, startUrls: seq<string>, web: Web, now: string, normalize: Normalizer)
    returns (records: seq<UrlRecord>)
    requires ValidCrawlLimits(config.crawlLimits)
    ensures Seeds(config, startUrls) == [] ==> records == []
    ensures CrawledIn(Seeds(config, startUrls), ScopeWith(config, startUrls, web.join, now, normalize), web, records)
  {
    var seeds := Seeds(config, startUrls);
    var sc := ScopeWith(config, startUrls, web.join, now, normalize);
    if seeds == [] {
      assert SitemapFinds(seeds, sc, web) == {};
      forall u | Reaches(sc, web, {}, u, sc.maxDepth) ensures false {
        NoSeedsReachNothing(sc, web, {}, u, sc.maxDepth);
      }
      return [];
    }
    ScopeWithFacts(config, startUrls, web.join, now, normalize);
    records := CrawlIn(seeds, sc, web);
  }

  /** The sitemap phase, the link phase, the deduplication and the cut to
      max_pages, for non-empty seeds. */
  method CrawlIn(seeds: seq<string>, sc: Scope, web: Web) returns (records: seq<UrlRecord>)
    requires sc.seedSet == SeedSet(seeds, sc.normalize)
    requires sc.sitemapUrls == (set s | s in seeds :: sc.sitemapOf(s))
    requires 0 <= sc.maxDepth && 1 <= sc.maxPages
    ensures CrawledIn(seeds, sc, web, records)
  {
    var seen, queue := SeedFrontier(seeds, sc.normalize);
    SeedEntriesOk(seeds, sc, web);
    var found;
    seen, found := IntakeSitemaps(seeds, sc, web, seen);
    ghost var finds := SitemapFinds(seeds, sc, web);
    FoundAreSitemapFinds(seeds, sc, web, seen, found);
    DistinctUrlsCount(found);
    StartFrontier(seen, found, queue, sc, web);
    StartWalkInv(seeds, sc, web, seen, found, queue);
    var all := CrawlLinks(sc, web, seen, found, queue);
    var unique := DedupByUrl(all);
    DedupOfDistinct(all);
    records := Take(unique, sc.maxPages);
    CrawlInFacts(seeds, sc, web, CrawlState(seen, found, queue), all, records);
  }

  /** The records `crawl_tool` returns, the first `max_pages` of the walk's. */
  lemma CrawlInFacts(seeds: seq<string>, sc: Scope, web: Web, start: CrawlState, all: seq<UrlRecord>, records: seq<UrlRecord>)
    requires 0 <= sc.maxDepth && 1 <= sc.maxPages
    requires FrontierOk(start.seen, start.records, start.queue, sc, web)
    requires UrlsOf(start.records) == SitemapFinds(seeds, sc, web) && |UrlsOf(start.records)| == |start.records|
    requires WalkInv(sc.seedSet + SitemapFinds(seeds, sc, web), start.seen, start.records, start.queue, {}, sc, web)
    requires all == Walk(sc, web, start).records
    requires start.records <= all && (all == start.records || |all| <= sc.maxPages)
    requires (forall i :: 0 <= i < |all| ==> RecordOk(all[i], sc, web)) && DistinctUrls(all) && SitemapFirst(all)
    requires records == Take(all, sc.maxPages)
    ensures CrawledIn(seeds, sc, web, records)
  {
    var finds := SitemapFinds(seeds, sc, web);
    PrefixRecordsOk(records, all, sc, web);
    CutKeepsFinds(start.records, all, records, sc.maxPages, finds);
    if 2 * |records| < sc.maxPages {
      assert records == all;
      WalkTail(sc, web, start, finds);
    }
  }

  /** Cutting records that start with the sitemap ones to `max_pages` keeps
      all sitemap finds when they fit, and only sitemap finds otherwise. */
  lemma CutKeepsFinds(found: seq<UrlRecord>, all: seq<UrlRecord>, records: seq<UrlRecord>, maxPages: nat, finds: set<string>)
    requires found <= all && records == Take(all, maxPages)
    requires UrlsOf(found) == finds && |finds| == |found|
    ensures |finds| <= maxPages ==> finds <= UrlsOf(records)
    ensures |finds| > maxPages ==> UrlsOf(records) <= finds
    ensures |records| >= (if |finds| <= maxPages then |finds| else maxPages)
  {
    if |found| <= maxPages {
      assert found <= records;
      assert forall x :: x in found ==> x in records;
    } else {
      assert records == found[..maxPages];
      assert forall x :: x in records ==> x in found;
    }
  }

  /** When the walk stops with fewer than half of `max_pages` records, its
      queue is empty, so it has seen all it `Reaches`. */
  lemma WalkTail(sc: Scope, web: Web, start: CrawlState, finds: set<string>)
    requires DepthsOk(start.queue) && 0 <= sc.maxDepth
    requires WalkInv(sc.seedSet + finds, start.seen, start.records, start.queue, {}, sc, web)
    requires var rs := Walk(sc, web, start).records;
             (forall i :: 0 <= i < |rs| ==> RecordOk(rs[i], sc, web)) && 2 * |rs| < sc.maxPages
    ensures forall u :: Reaches(sc, web, finds, u, sc.maxDepth) ==> u in sc.seedSet || u in UrlsOf(Walk(sc, web, start).records)
  {
    var rs := Walk(sc, web, start).records;
    GuardCountsRecordsTwice(rs, sc.maxPages);
    WalkStops(sc, web, start);
    WalkReachesAll(sc, web, start, finds);
  }
}
