/** The control plane: the leftover sweep of a run, the per-URL pipeline
    (fetch gate, render escalation, extract, classify, validate and fix,
    store) and the crawl-time callback. Every network, browser, parser, LLM
    and file call is an oracle in `Env`. */
module Agent {
  import opened Wrappers
  import opened Text
  import opened Settings
  import opened UrlRecords
  import opened Classifications
  import opened PagePackages
  import opened Extraction
  import opened LlmClassification
  import opened Validation
  import opened Storage
  import opened Crawler

  /** What `fetch_tool` returns; it reports failures in `error` instead of raising. */
  datatype FetchResult = FetchResult(finalUrl: string, httpStatus: int, contentType: string, html: string, error: Option<string>)

  /** What `render_tool` returns. */
  datatype RenderResult = RenderResult(html: string, finalUrl: string, error: Option<string>)

  /** The collaborators of the pipeline: the fetcher, the headless browser,
      the extraction oracles, the process environment, the chat-completion
      answer for the view of a package the LLM is shown, `json.loads`, the
      ruleset's rule IDs, the clock, whether storing the result for a URL
      fails, and the web the crawler walks. */
  datatype Env = Env(
    fetch: string -> FetchResult,
    render: string -> RenderResult,
    extract: ExtractEnv,
    environ: string -> string,
    ask: LlmInput -> LlmAnswer,
    json: JsonEnv,
    rulesetRuleIds: set<string>,
    now: string,
    writeFails: string -> bool,
    web: Web)

  /** Python truthiness of an optional string. */
  predicate Present(o: Option<string>) {
    o.Some? && o.value != ""
  }

  /** The render policy: forced, too little HTML, or a SPA marker in it. */
  function NeedsRender(policy: RenderPolicy, html: string): (b: bool)
    ensures b <==> policy.forceRender || |html| < policy.minTextChars
                   || exists i :: 0 <= i < |policy.spaMarkers| && Contains(html, policy.spaMarkers[i])
  {
    policy.forceRender || |html| < policy.minTextChars || HasSpaMarkers(html, policy.spaMarkers)
  }

  /** A render that may replace the fetched page: no error and some HTML. */
  predicate RenderUsable(r: RenderResult) {
    !Present(r.error) && r.html != ""
  }

  /** The page that goes on to extraction. */
  datatype PageIn = PageIn(html: string, finalUrl: string, fetchMode: string)

  /** The page after the render policy: the fetch mode is "render" exactly
      when a needed render succeeded, and the render then supplies the HTML
      and final URL; otherwise the fetched page goes on untouched, and a
      page that needs no render is never sent to the browser. */
  function AfterRender(policy: RenderPolicy, html: string, finalUrl: string, render: string -> RenderResult): (p: PageIn)
    ensures p.fetchMode == "render" <==> NeedsRender(policy, html) && RenderUsable(render(finalUrl))
    ensures p.fetchMode == "render" || p == PageIn(html, finalUrl, "http")
    ensures p.fetchMode == "render" ==> p.html != "" && p.html == render(finalUrl).html && p.finalUrl == render(finalUrl).finalUrl
    ensures !policy.forceRender && |html| >= policy.minTextChars && !HasSpaMarkers(html, policy.spaMarkers)
            ==> p == PageIn(html, finalUrl, "http")
  {
    if NeedsRender(policy, html) && RenderUsable(render(finalUrl)) then
      PageIn(render(finalUrl).html, render(finalUrl).finalUrl, "render")
    else
      PageIn(html, finalUrl, "http")
  }

  /** Forcing the render sends every page to the browser, whatever it holds. */
  lemma ForcedRenderIgnoresContent(policy: RenderPolicy, html: string, other: string, finalUrl: string, render: string -> RenderResult)
    requires policy.forceRender
    ensures AfterRender(policy, html, finalUrl, render).fetchMode == AfterRender(policy, other, finalUrl, render).fetchMode
  {
  }

  /** What `classify_llm_tool` guarantees about labels and confidence, and
      what the fix guarantees about the review flag. */
  predicate FixedOk(c: ClassificationResult) {
    |c.labels| > 0
    && (forall i :: 0 <= i < |c.labels| ==> c.labels[i] in AllowedLabels)
    && ("OTHER" in c.labels ==> c.labels == ["OTHER"])
    && 0.0 <= c.confidence <= 1.0
    && (Label(c.labels) != "OTHER" && |c.matchedRules| == 0 ==> c.needsReview)
    && (c.confidence < 0.5 ==> c.needsReview)
  }

  /** The classification part of a stored record satisfies `FixedOk`. */
  predicate StoredOk(s: StoredClassification) {
    FixedOk(AsResult(s, []))
  }

  /** The classification a stored record carries, back as a result. */
  function AsResult(s: StoredClassification, missing: seq<string>): ClassificationResult {
    ClassificationResult(s.labels, s.confidence, s.matchedRules, s.rationale, s.evidence, s.needsReview, missing)
  }

  /** Every stored record would pass `validate_tool`, whatever its missing
      signals were. */
  lemma StoredPassesValidation(s: StoredClassification, missing: seq<string>)
    requires StoredOk(s)
    ensures ValidationErrors(AsResult(s, missing)) == []
  {
    var r := AsResult(s, missing);
    ErrorsMatchRules(r);
    assert Label(r.labels) == s.labels[0];
  }

  /** A classification the LLM step can produce satisfies `FixedOk` once
      fixed if invalid. */
  lemma FixedIsOk(c: ClassificationResult)
    requires |c.labels| > 0 && 0.0 <= c.confidence <= 1.0
    requires forall i :: 0 <= i < |c.labels| ==> c.labels[i] in AllowedLabels
    requires "OTHER" in c.labels ==> c.labels == ["OTHER"]
    ensures FixedOk(FixIfInvalid(c))
  {
  }

  /** `StoredClassification(...)` as `_process_url_with_html` fills it: the
      record's URL, the page after rendering, the fetched status, the fixed
      classification without its missing signals, the versions, the clock
      and the page's content hash. */
  function BuildStored(rec: UrlRecord, page: PageIn, httpStatus: int, c: ClassificationResult, rulesetVersion: string,
                       modelVersion: string, now: string, contentHash: Option<string>): (s: StoredClassification)
    ensures FixedOk(c) ==> StoredOk(s)
  {
    StoredClassification(rec.url, page.finalUrl, Some(httpStatus), c.labels, c.confidence, c.matchedRules, c.rationale,
                         c.evidence, c.needsReview, rulesetVersion, modelVersion, now, page.fetchMode, contentHash)
  }

  /** The output file after storing one record with the configured path and format. */
  function StoreOne(path: string, format: string, f: FileState, s: StoredClassification): FileState {
    if IsDbPath(path) then Database(Some(Upsert(Rows(f), SqliteRow(s))))
    else if format == "jsonl" then JsonLines(Entries(f) + [ModelDump(s)])
    else JsonArray(Entries(f) + [ModelDump(s)])
  }

  /** The output file after storing records one after another. */
  function StoreAll(path: string, format: string, f: FileState, ss: seq<StoredClassification>): FileState {
    if ss == [] then f else StoreOne(path, format, StoreAll(path, format, f, ss[..|ss| - 1]), ss[|ss| - 1])
  }

  function Dumps(ss: seq<StoredClassification>): (ds: seq<Dump>)
    ensures |ds| == |ss| && forall i :: 0 <= i < |ss| ==> ds[i] == ModelDump(ss[i])
  {
    if ss == [] then [] else Dumps(ss[..|ss| - 1]) + [ModelDump(ss[|ss| - 1])]
  }

  /** A file output holds the dumps of the stored records in order, after
      what it held before. */
  lemma {:induction false} StoreAllEntries(path: string, format: string, f: FileState, ss: seq<StoredClassification>)
    requires !IsDbPath(path)
    ensures Entries(StoreAll(path, format, f, ss)) == Entries(f) + Dumps(ss)
    decreases |ss|
  {
    if ss != [] {
      var prefix := ss[..|ss| - 1];
      StoreAllEntries(path, format, f, prefix);
      assert Entries(f) + Dumps(ss) == Entries(f) + Dumps(prefix) + [ModelDump(ss[|ss| - 1])];
    }
  }

  /** A database output holds the rows of the stored records upserted in
      order on their URLs, so the last record of each URL wins. */
  lemma {:induction false} StoreAllRows(path: string, format: string, f: FileState, ss: seq<StoredClassification>)
    requires IsDbPath(path)
    ensures Rows(StoreAll(path, format, f, ss)) == UpsertAll(Rows(f), ss)
    decreases |ss|
  {
    if ss != [] {
      StoreAllRows(path, format, f, ss[..|ss| - 1]);
      StoreAllDbStep(path, format, f, ss);
      UpsertAllStep(Rows(f), ss);
    }
  }

  /** One more record stored in a database upserts its row. */
  lemma StoreAllDbStep(path: string, format: string, f: FileState, ss: seq<StoredClassification>)
    requires IsDbPath(path) && ss != []
    ensures Rows(StoreAll(path, format, f, ss))
         == Upsert(Rows(StoreAll(path, format, f, ss[..|ss| - 1])), SqliteRow(ss[|ss| - 1]))
  {
  }

  /** `[rec for rec in records if rec.url not in processed_urls]`. */
  function Unprocessed(records: seq<UrlRecord>, done: set<string>): (r: seq<UrlRecord>)
    ensures |r| <= |records|
    ensures forall x :: x in r <==> x in records && x.url !in done
  {
    if records == [] then []
    else
      var prefix := records[..|records| - 1];
      var last := records[|records| - 1];
      assert forall x :: x in records <==> x in prefix || x == last;
      Unprocessed(prefix, done) + (if last.url in done then [] else [last])
  }

  /** The filter keeps the URLs distinct. */
  lemma {:induction false} UnprocessedDistinct(records: seq<UrlRecord>, done: set<string>)
    requires DistinctUrls(records)
    ensures DistinctUrls(Unprocessed(records, done))
    decreases |records|
  {
    if records != [] {
      var prefix := records[..|records| - 1];
      var last := records[|records| - 1];
      assert DistinctUrls(prefix);
      UnprocessedDistinct(prefix, done);
      var u := Unprocessed(prefix, done);
      forall x | x in u ensures x.url != last.url {
        assert x in prefix;
        var j :| 0 <= j < |prefix| && prefix[j] == x;
        assert records[j] == x;
      }
    }
  }

  /** The keyword arguments `crawl_tool(config, start_urls=None)` accepts. */
  const CrawlParameters: set<string> := {"config", "start_urls"}

  /** The message Python gives for an undeclared keyword argument. */
  function UnexpectedKeyword(k: string): string {
    "TypeError: crawl_tool() got an unexpected keyword argument '" + k + "'"
  }

  /** Binding keyword arguments to `crawl_tool`: an unknown one raises a `TypeError`. */
  function BindCrawlArguments(keywords: seq<string>): (r: Result<()>)
    ensures r.Ok? <==> forall i :: 0 <= i < |keywords| ==> keywords[i] in CrawlParameters
  {
    if keywords == [] then Ok(())
    else if keywords[0] !in CrawlParameters then Err(UnexpectedKeyword(keywords[0]))
    else BindCrawlArguments(keywords[1..])
  }

  /** The call at the head of `run` passes `process_callback`, which
      `crawl_tool` does not declare. */
  lemma CallbackRejected()
    ensures BindCrawlArguments(["process_callback"]) == Err(UnexpectedKeyword("process_callback"))
  {
    assert "process_callback" !in CrawlParameters;
  }

  /** The LLM step for a package: the classifier's outcome under the
      configured key and the answer to the package's LLM view. */
  function LlmOutcome(config: Config, package: PagePackage, env: Env): Result<ClassificationResult> {
    Classification(env.environ(config.llmProviderConfig.apiKeyEnv), env.ask(ToLlmInput(package)), env.json)
  }

  /** What `_process_url_with_html` builds for a page before the store
      call: the package of the page after the render policy, its
      classification fixed only if invalid, and the record of both. Err is
      a package that fails validation or an answer the classifier raises on. */
  function PageOutcome(config: Config, rulesetVersion: string, modelVersion: string, rec: UrlRecord, html: string,
                       finalUrl: string, httpStatus: int, contentType: string, env: Env): (r: Result<StoredClassification>)
    requires ValidConfig(config)
    ensures var page := AfterRender(config.renderPolicy, html, finalUrl, env.render);
      var package := PackageOf(rec.url, page.html, page.finalUrl, httpStatus, page.fetchMode, contentType, config, env.extract);
      && (r.Ok? <==> package.Ok? && LlmOutcome(config, package.value, env).Ok?)
      && (r.Ok? ==>
            var c := LlmOutcome(config, package.value, env).value;
            && AsResult(r.value, c.missingSignals) == FixIfInvalid(c) && StoredOk(r.value)
            && r.value.url == rec.url && r.value.finalUrl == page.finalUrl && r.value.httpStatus == Some(httpStatus)
            && r.value.fetchMode == page.fetchMode && r.value.contentHash == package.value.contentHash
            && r.value.rulesetVersion == rulesetVersion && r.value.modelVersion == modelVersion
            && r.value.processedAt == env.now)
  {
    var page := AfterRender(config.renderPolicy, html, finalUrl, env.render);
    var package := PackageOf(rec.url, page.html, page.finalUrl, httpStatus, page.fetchMode, contentType, config, env.extract);
    if package.Err? then Err(package.error)
    else
      var c := LlmOutcome(config, package.value, env);
      if c.Err? then Err(c.error)
      else
        FixedIsOk(c.value);
        Ok(BuildStored(rec, page, httpStatus, FixIfInvalid(c.value), rulesetVersion, modelVersion, env.now,
                       package.value.contentHash))
  }

  /** The record `_process_url_with_html` stores and returns, if any: the
      page outcome, unless it failed or its write fails. */
  function HtmlOutcome(config: Config, rulesetVersion: string, modelVersion: string, rec: UrlRecord, html: string,
                       finalUrl: string, httpStatus: int, contentType: string, env: Env): Option<StoredClassification>
    requires ValidConfig(config)
  {
    var o := PageOutcome(config, rulesetVersion, modelVersion, rec, html, finalUrl, httpStatus, contentType, env);
    if o.Ok? && !env.writeFails(rec.url) then Some(o.value) else None
  }

  /** The gate of `_process_url`: a record not in a terminal state whose
      fetch reported no error and status 200. */
  predicate Gated(rec: UrlRecord, env: Env) {
    rec.state !in TerminalStates && !Present(env.fetch(rec.url).error) && env.fetch(rec.url).httpStatus == 200
  }

  /** What one record of the sweep yields: nothing past a closed gate, and
      otherwise the outcome of the fetched page. */
  function UrlOutcome(config: Config, rulesetVersion: string, modelVersion: string, rec: UrlRecord, env: Env)
    : (o: Option<StoredClassification>)
    requires ValidConfig(config)
    ensures !Gated(rec, env) ==> o.None?
    ensures o.Some? ==> o.value.url == rec.url && o.value.httpStatus == Some(200) && StoredOk(o.value)
                        && o.value.processedAt == env.now
  {
    if !Gated(rec, env) then None
    else
      var f := env.fetch(rec.url);
      HtmlOutcome(config, rulesetVersion, modelVersion, rec, f.html, f.finalUrl, f.httpStatus, f.contentType, env)
  }

  /** The outcomes that are records, in order. */
  function Kept(os: seq<Option<StoredClassification>>): (ks: seq<StoredClassification>)
    ensures |ks| <= |os|
    ensures forall i :: 0 <= i < |os| && os[i].Some? ==> os[i].value in ks
    ensures forall s :: s in ks ==> exists i :: 0 <= i < |os| && os[i] == Some(s)
  {
    if os == [] then []
    else
      var init := os[..|os| - 1];
      assert forall i :: 0 <= i < |init| ==> init[i] == os[i];
      Kept(init) + (if os[|os| - 1].Some? then [os[|os| - 1].value] else [])
  }

  /** One more outcome keeps its record, if it has one. */
  lemma KeptSnoc(os: seq<Option<StoredClassification>>, i: nat)
    requires i < |os|
    ensures Kept(os[..i + 1]) == Kept(os[..i]) + (if os[i].Some? then [os[i].value] else [])
  {
    assert os[..i + 1][..i] == os[..i];
  }

  /** Outcomes whose records have distinct URLs keep them distinct. */
  lemma {:induction false} KeptDistinct(os: seq<Option<StoredClassification>>)
    requires forall i, j :: 0 <= i < j < |os| && os[i].Some? && os[j].Some? ==> os[i].value.url != os[j].value.url
    ensures DistinctStored(Kept(os))
    decreases |os|
  {
    if os != [] {
      var init := os[..|os| - 1];
      KeptDistinct(init);
      var last := os[|os| - 1];
      if last.Some? {
        forall s | s in Kept(init) ensures s.url != last.value.url {
          var i :| 0 <= i < |init| && init[i] == Some(s);
          assert os[i] == init[i];
        }
      }
    }
  }

  /** The outcome of each record, position by position. */
  function Outcomes(config: Config, rulesetVersion: string, modelVersion: string, recs: seq<UrlRecord>, env: Env)
    : (os: seq<Option<StoredClassification>>)
    requires ValidConfig(config)
    ensures |os| == |recs|
    ensures forall i :: 0 <= i < |recs| ==> os[i] == UrlOutcome(config, rulesetVersion, modelVersion, recs[i], env)
  {
    seq(|recs|, i requires 0 <= i < |recs| => UrlOutcome(config, rulesetVersion, modelVersion, recs[i], env))
  }

  /** The records the sweep keeps: the outcome of every record that has
      one, in order; distinct records give distinct URLs. */
  function Swept(config: Config, rulesetVersion: string, modelVersion: string, recs: seq<UrlRecord>, env: Env)
    : (ss: seq<StoredClassification>)
    requires ValidConfig(config)
    ensures |ss| <= |recs|
    ensures forall i :: 0 <= i < |recs| && UrlOutcome(config, rulesetVersion, modelVersion, recs[i], env).Some? ==>
              UrlOutcome(config, rulesetVersion, modelVersion, recs[i], env).value in ss
    ensures forall s :: s in ss ==> exists i :: 0 <= i < |recs| && UrlOutcome(config, rulesetVersion, modelVersion, recs[i], env) == Some(s)
    ensures DistinctUrls(recs) ==> DistinctStored(ss)
  {
    var os := Outcomes(config, rulesetVersion, modelVersion, recs, env);
    assert DistinctUrls(recs) ==> DistinctStored(Kept(os)) by {
      if DistinctUrls(recs) {
        KeptDistinct(os);
      }
    }
    Kept(os)
  }

  class MCPAgent {
    const config: Config
    const rulesetVersion: string
    const modelVersion: string
    /** The output file named by `output_config.storage_path`. */
    const store: Store
    /** The state `run` shares with its crawl-time callback. */
    var stored: seq<StoredClassification>
    var processedUrls: set<string>
    var processedCount: nat

    /** The store is the configured one. */
    predicate Wired() {
      ValidConfig(config)
      && store.path == config.outputConfig.storagePath
      && store.format == EffectiveFormat(config.outputConfig)
    }

    /** `MCPAgent(config)`; the ruleset version (the ruleset file's mtime,
        or "0" when it is missing) is supplied by the caller. */
    constructor(config: Config, rulesetVersion: string, store: Store)
      requires ValidConfig(config)
      requires store.path == config.outputConfig.storagePath && store.format == EffectiveFormat(config.outputConfig)
      ensures Wired()
      ensures this.config == config && this.rulesetVersion == rulesetVersion && this.store == store
      ensures modelVersion == config.llmProviderConfig.model
      ensures stored == [] && processedUrls == {} && processedCount == 0
    {
      this.config := config;
      this.rulesetVersion := rulesetVersion;
      this.modelVersion := config.llmProviderConfig.model;
      this.store := store;
      stored := [];
      processedUrls := {};
      processedCount := 0;
    }

    /** Classify a package, validate the result and fix it only when it is
        invalid. The fixed result satisfies what a stored record must. */
    method ClassifyAndFix(package: PagePackage, env: Env) returns (r: Result<ClassificationResult>)
      ensures var o := LlmOutcome(config, package, env);
              && (r.Ok? <==> o.Ok?)
              && (r.Ok? ==> r.value == FixIfInvalid(o.value) && FixedOk(r.value))
              && (r.Err? ==> r == o)
    {
      var classification := ClassifyLlmTool(env.environ(config.llmProviderConfig.apiKeyEnv),
                                             env.ask(ToLlmInput(package)), env.json);
      if classification.Err? {
        return Err(classification.error);
      }
      var c := classification.value;
      var valid, errors := ValidateTool(c, env.rulesetRuleIds);
      if !valid {
        c := ApplyValidationFixes(c);
      }
      assert c == FixIfInvalid(classification.value);
      FixedIsOk(classification.value);
      r := Ok(c);
    }

    /** The store call: the SQLite writer for a `.db` path, the file writer
        otherwise; a failure leaves the output as it was. */
    method StoreResult(result: StoredClassification, writeFails: bool) returns (err: Option<string>)
      requires Wired() && store.Valid()
      modifies store
      ensures store.Valid()
      ensures writeFails <==> err.Some?
      ensures err.Some? ==> store.file == old(store.file)
      ensures err.None? ==> store.file == StoreOne(store.path, store.format, old(store.file), result)
    {
      if IsDbPath(store.path) {
        err := store.StorageToolSqlite(result, writeFails);
      } else {
        err := store.StorageTool(result, writeFails);
      }
    }

    /** The extract call: fails when the excerpt is over the package limit,
        and otherwise carries the hash of the HTML it was given. */
    method Extract(rec: UrlRecord, page: PageIn, httpStatus: int, contentType: string, env: Env)
      returns (r: Result<PagePackage>)
      requires Wired() && (page.fetchMode == "http" || page.fetchMode == "render")
      ensures var parsed := env.extract.parse(page.html, UsesXmlParser(contentType));
              r.Ok? <==> |ExtractText(parsed.bodyText, config.outputConfig.textExcerptMaxLength)| <= MaxExcerptLength
      ensures r.Ok? ==> r.value.contentHash == Some(Take(env.extract.sha256Hex(page.html), 32)) && r.value.url == rec.url
      ensures r == PackageOf(rec.url, page.html, page.finalUrl, httpStatus, page.fetchMode, contentType, config, env.extract)
    {
      r := ExtractTool(rec.url, page.html, page.finalUrl, httpStatus, page.fetchMode, contentType, config, env.extract);
    }

    /** `_process_url_with_html`: render when the policy asks for it, extract,
        classify, validate and fix only an invalid result, build the record
        and store it. Err is an exception the method propagates: a page
        package that fails validation, a malformed LLM answer, or a failed
        write, which changes nothing on disk. */
    method ProcessUrlWithHtml(rec: UrlRecord, html: string, finalUrl: string, httpStatus: int, contentType: string, env: Env)
      returns (r: Result<StoredClassification>)
      requires Wired() && store.Valid()
      modifies store
      ensures store.Valid()
      ensures var page := AfterRender(config.renderPolicy, html, finalUrl, env.render);
              r.Ok? ==> r.value.url == rec.url && r.value.finalUrl == page.finalUrl && r.value.httpStatus == Some(httpStatus)
                        && r.value.fetchMode == page.fetchMode
                        && r.value.contentHash == Some(Take(env.extract.sha256Hex(page.html), 32))
                        && r.value.rulesetVersion == rulesetVersion && r.value.modelVersion == modelVersion
                        && r.value.processedAt == env.now && StoredOk(r.value)
      ensures var page := AfterRender(config.renderPolicy, html, finalUrl, env.render);
              var parsed := env.extract.parse(page.html, UsesXmlParser(contentType));
              |ExtractText(parsed.bodyText, config.outputConfig.textExcerptMaxLength)| > MaxExcerptLength ==> r.Err?
      ensures env.writeFails(rec.url) ==> r.Err?
      ensures var o := PageOutcome(config, rulesetVersion, modelVersion, rec, html, finalUrl, httpStatus, contentType, env);
              && (r.Ok? <==> o.Ok? && !env.writeFails(rec.url))
              && (r.Ok? ==> r.value == o.value)
      ensures r.Err? ==> store.file == old(store.file)
      ensures r.Ok? ==> store.file == StoreOne(store.path, store.format, old(store.file), r.value)
    {
      var o := BuildPage(rec, html, finalUrl, httpStatus, contentType, env);
      if o.Err? {
        return Err(o.error);
      }
      var err := StoreResult(o.value, env.writeFails(rec.url));
      if err.Some? {
        return Err(err.value);
      }
      r := Ok(o.value);
    }

    /** The steps of `_process_url_with_html` before the store call: the
        render policy, the extraction, the classification with its fix, and
        the record built from them. */
    method BuildPage(rec: UrlRecord, html: string, finalUrl: string, httpStatus: int, contentType: string, env: Env)
      returns (r: Result<StoredClassification>)
      requires Wired()
      ensures r == PageOutcome(config, rulesetVersion, modelVersion, rec, html, finalUrl, httpStatus, contentType, env)
    {
      var fetchMode := "http";
      ghost var page := AfterRender(config.renderPolicy, html, finalUrl, env.render);
      var pageHtml, pageUrl := html, finalUrl;
      if NeedsRender(config.renderPolicy, pageHtml) {
        var rendered := env.render(pageUrl);
        if !Present(rendered.error) && rendered.html != "" {
          pageHtml := rendered.html;
          pageUrl := rendered.finalUrl;
          fetchMode := "render";
        }
      }
      assert PageIn(pageHtml, pageUrl, fetchMode) == page;
      var package := Extract(rec, PageIn(pageHtml, pageUrl, fetchMode), httpStatus, contentType, env);
      if package.Err? {
        return Err(package.error);
      }
      var c := ClassifyAndFix(package.value, env);
      if c.Err? {
        return Err(c.error);
      }
      FixedIsOk(LlmOutcome(config, package.value, env).value);
      r := Ok(BuildStored(rec, PageIn(pageHtml, pageUrl, fetchMode), httpStatus, c.value, rulesetVersion, modelVersion,
                          env.now, package.value.contentHash));
    }

    /** `_process_url`: a record in a terminal state, a fetch error or a
        status other than 200 gives None without storing anything; otherwise
        the fetched page goes through `ProcessUrlWithHtml`. */
    method ProcessUrl(rec: UrlRecord, env: Env) returns (r: Result<Option<StoredClassification>>)
      requires Wired() && store.Valid()
      modifies store
      ensures store.Valid()
      ensures rec.state in TerminalStates ==> r == Ok(None)
      ensures var f := env.fetch(rec.url);
              rec.state !in TerminalStates && (Present(f.error) || f.httpStatus != 200) ==> r == Ok(None)
      ensures r.Ok? && r.value.Some? ==>
                var f := env.fetch(rec.url);
                var page := AfterRender(config.renderPolicy, f.html, f.finalUrl, env.render);
                && rec.state !in TerminalStates && !Present(f.error)
                && r.value.value.url == rec.url && r.value.value.httpStatus == Some(200)
                && r.value.value.finalUrl == page.finalUrl && r.value.value.fetchMode == page.fetchMode
                && r.value.value.processedAt == env.now && StoredOk(r.value.value)
      ensures r.Ok? ==> r.value == UrlOutcome(config, rulesetVersion, modelVersion, rec, env)
      ensures r.Err? <==> Gated(rec, env) && UrlOutcome(config, rulesetVersion, modelVersion, rec, env).None?
      ensures r.Ok? && r.value.Some? ==> store.file == StoreOne(store.path, store.format, old(store.file), r.value.value)
      ensures !(r.Ok? && r.value.Some?) ==> store.file == old(store.file)
    {
      if rec.state in TerminalStates {
        return Ok(None);
      }
      var fetched := env.fetch(rec.url);
      if Present(fetched.error) || fetched.httpStatus != 200 {
        return Ok(None);
      }
      var s := ProcessUrlWithHtml(rec, fetched.html, fetched.finalUrl, fetched.httpStatus, fetched.contentType, env);
      if s.Err? {
        return Err(s.error);
      }
      r := Ok(Some(s.value));
    }

    /** `process_during_crawl`: a URL already processed gives None; any
        other call is counted and processes the page under a fresh
        depth-0 record from "crawl"; a success is kept and marks the URL
        processed, and an exception gives None. */
    method ProcessDuringCrawl(url: string, html: string, finalUrl: string, httpStatus: int, contentType: string, env: Env)
      returns (r: Option<StoredClassification>)
      requires Wired() && store.Valid()
      modifies this, store
      ensures store.Valid()
      ensures url in old(processedUrls) ==> r.None? && processedCount == old(processedCount)
      ensures url !in old(processedUrls) ==> processedCount == old(processedCount) + 1
      ensures r.Some? ==> url !in old(processedUrls) && r.value.url == url && StoredOk(r.value)
                          && stored == old(stored) + [r.value] && processedUrls == old(processedUrls) + {url}
                          && store.file == StoreOne(store.path, store.format, old(store.file), r.value)
      ensures r.None? ==> stored == old(stored) && processedUrls == old(processedUrls) && store.file == old(store.file)
      ensures r == if url in old(processedUrls) then None
                   else HtmlOutcome(config, rulesetVersion, modelVersion, NewRecord(url, Some("crawl"), 0, env.now), html,
                                    finalUrl, httpStatus, contentType, env)
    {
      if url in processedUrls {
        return None;
      }
      processedCount := processedCount + 1;
      var rec := NewRecord(url, Some("crawl"), 0, env.now);
      r := TryProcessUrlWithHtml(rec, html, finalUrl, httpStatus, contentType, env);
      if r.Some? {
        stored := stored + [r.value];
        processedUrls := processedUrls + {url};
      }
    }

    /** The callback's `try`/`except` around `_process_url_with_html`: the
        record stored, or None for an exception. */
    method TryProcessUrlWithHtml(rec: UrlRecord, html: string, finalUrl: string, httpStatus: int, contentType: string,
                                 env: Env) returns (o: Option<StoredClassification>)
      requires Wired() && store.Valid()
      modifies store
      ensures store.Valid()
      ensures o == HtmlOutcome(config, rulesetVersion, modelVersion, rec, html, finalUrl, httpStatus, contentType, env)
      ensures o.Some? ==> o.value.url == rec.url && StoredOk(o.value)
                          && store.file == StoreOne(store.path, store.format, old(store.file), o.value)
      ensures o.None? ==> store.file == old(store.file)
    {
      var s := ProcessUrlWithHtml(rec, html, finalUrl, httpStatus, contentType, env);
      o := if s.Ok? then Some(s.value) else None;
    }

    /** `run` as written: storage is cleared, then the call to `crawl_tool`
        raises a `TypeError` on its `process_callback` keyword, so nothing is
        crawled or stored. A file at a database path that SQLite cannot open
        makes the clearing raise first. */
    method RunAsWritten(env: Env) returns (r: Result<seq<StoredClassification>>)
      requires Wired()
      modifies this, store
      ensures InitFails(store.path, old(store.file)) ==> r.Err? && store.file == old(store.file)
      ensures !InitFails(store.path, old(store.file)) ==>
                r == Err(UnexpectedKeyword("process_callback")) && store.file == InitialState(store.path, old(store.file))
    {
      var err := store.InitStorage();
      if err.Some? {
        return Err(err.value);
      }
      stored, processedUrls, processedCount := [], {}, 0;
      var bound := BindCrawlArguments(["process_callback"]);
      CallbackRejected();
      return Err(bound.error);
    }

    /** The sweep over the records left unprocessed: each goes through
        `ProcessUrl`, a result is kept and anything else (None or an
        exception) skips the record. */
    method Sweep(unprocessed: seq<UrlRecord>, env: Env)
      requires Wired() && store.Valid() && stored == [] && DistinctUrls(unprocessed)
      modifies this, store
      ensures store.Valid()
      ensures |stored| <= |unprocessed|
      ensures SweptOk(stored, UrlsOf(unprocessed), env.now)
      ensures stored == Swept(config, rulesetVersion, modelVersion, unprocessed, env)
      ensures store.file == StoreAll(store.path, store.format, old(store.file), stored)
    {
      ghost var initial := store.file;
      ghost var os := Outcomes(config, rulesetVersion, modelVersion, unprocessed, env);
      for i := 0 to |unprocessed|
        invariant store.Valid()
        invariant |stored| <= i
        invariant SweptOk(stored, UrlsOf(unprocessed[..i]), env.now)
        invariant stored == Kept(os[..i])
        invariant store.file == StoreAll(store.path, store.format, initial, stored)
      {
        SweepStep(unprocessed, i);
        KeptSnoc(os, i);
        SweepOne(unprocessed[i], env, initial, UrlsOf(unprocessed[..i]));
      }
      assert os[..|unprocessed|] == os;
    }

    /** The sweep's `try`/`except` around `_process_url`: an exception is
        logged and counts as no result. */
    method TryProcessUrl(rec: UrlRecord, env: Env) returns (s: Option<StoredClassification>)
      requires Wired() && store.Valid()
      modifies store
      ensures store.Valid()
      ensures s.Some? ==> s.value.url == rec.url && StoredOk(s.value) && s.value.processedAt == env.now
                          && store.file == StoreOne(store.path, store.format, old(store.file), s.value)
      ensures s.None? ==> store.file == old(store.file)
      ensures s == UrlOutcome(config, rulesetVersion, modelVersion, rec, env)
    {
      var r := ProcessUrl(rec, env);
      s := if r.Ok? then r.value else None;
    }

    /** One record of the sweep. */
    method SweepOne(rec: UrlRecord, env: Env, ghost initial: FileState, ghost done: set<string>)
      requires Wired() && store.Valid() && rec.url !in done
      requires SweptOk(stored, done, env.now) && store.file == StoreAll(store.path, store.format, initial, stored)
      modifies this, store
      ensures store.Valid()
      ensures |stored| <= |old(stored)| + 1
      ensures SweptOk(stored, done + {rec.url}, env.now) && store.file == StoreAll(store.path, store.format, initial, stored)
      ensures var o := UrlOutcome(config, rulesetVersion, modelVersion, rec, env);
              stored == old(stored) + (if o.Some? then [o.value] else [])
    {
      var s := TryProcessUrl(rec, env);
      SweptGrows(stored, done, env.now, rec.url);
      if s.Some? {
        AppendStored(store.path, store.format, initial, stored, s.value);
        SweptAppend(stored, done, env.now, s.value);
        stored := stored + [s.value];
      }
    }

    /** `run` with the crawl called as `crawl_tool(config)`: storage is
        cleared, the records are crawled, and every record whose URL was not
        processed during the crawl (here: all of them) goes through
        `ProcessUrl`. The stored records have distinct URLs, all crawled,
        and are exactly what the output now holds. */
    method Run(env: Env) returns (r: Result<seq<StoredClassification>>)
      requires Wired()
      modifies this, store
      ensures r.Err? <==> InitFails(store.path, old(store.file))
      ensures r.Err? ==> store.file == old(store.file)
      ensures r.Ok? ==>
                var result := r.value;
                && result == stored
                && (Seeds(config, []) == [] ==> result == [])
                && |result| <= config.crawlLimits.maxPages
                && DistinctStored(result)
                && (forall i :: 0 <= i < |result| ==> StoredOk(result[i]) && result[i].processedAt == env.now)
                && store.file == StoreAll(store.path, store.format, InitialState(store.path, old(store.file)), result)
                && exists crawled :: Crawled(config, [], env.web, env.now, crawled)
                                     && result == Swept(config, rulesetVersion, modelVersion, Unprocessed(crawled, {}), env)
    {
      var err := store.InitStorage();
      if err.Some? {
        return Err(err.value);
      }
      stored, processedUrls, processedCount := [], {}, 0;
      var result := CrawlAndSweep(env);
      r := Ok(result);
    }

    /** The part of `run` after the clearing: crawl, then sweep every
        record not processed during the crawl. */
    method CrawlAndSweep(env: Env) returns (result: seq<StoredClassification>)
      requires Wired() && store.Valid() && stored == [] && processedUrls == {}
      modifies this, store
      ensures result == stored
      ensures Seeds(config, []) == [] ==> result == []
      ensures |result| <= config.crawlLimits.maxPages
      ensures DistinctStored(result)
      ensures forall i :: 0 <= i < |result| ==> StoredOk(result[i]) && result[i].processedAt == env.now
      ensures store.file == StoreAll(store.path, store.format, old(store.file), result)
      ensures exists crawled :: Crawled(config, [], env.web, env.now, crawled)
                                && result == Swept(config, rulesetVersion, modelVersion, Unprocessed(crawled, {}), env)
    {
      var records := CrawlTool(config, [], env.web, env.now);
      var unprocessed := Unprocessed(records, processedUrls);
      UnprocessedDistinct(records, processedUrls);
      Sweep(unprocessed, env);
      CrawlBounds(config, env, records, unprocessed);
      result := stored;
    }
  }

  /** The crawl's bounds carry over to what is left of it. */
  lemma CrawlBounds(config: Config, env: Env, records: seq<UrlRecord>, unprocessed: seq<UrlRecord>)
    requires Crawled(config, [], env.web, env.now, records) && unprocessed == Unprocessed(records, {})
    ensures Seeds(config, []) == [] ==> unprocessed == []
    ensures |unprocessed| <= config.crawlLimits.maxPages
  {
  }

  predicate DistinctStored(ss: seq<StoredClassification>) {
    forall i, j :: 0 <= i < j < |ss| ==> ss[i].url != ss[j].url
  }

  /** The records kept so far: valid, stamped `now`, with distinct URLs
      among those already swept. */
  predicate SweptOk(ss: seq<StoredClassification>, done: set<string>, now: string) {
    (forall j :: 0 <= j < |ss| ==> StoredOk(ss[j]) && ss[j].processedAt == now && ss[j].url in done)
    && DistinctStored(ss)
  }

  lemma SweptGrows(ss: seq<StoredClassification>, done: set<string>, now: string, url: string)
    requires SweptOk(ss, done, now)
    ensures SweptOk(ss, done + {url}, now)
  {
  }

  lemma SweptAppend(ss: seq<StoredClassification>, done: set<string>, now: string, s: StoredClassification)
    requires SweptOk(ss, done, now) && s.url !in done && StoredOk(s) && s.processedAt == now
    ensures SweptOk(ss + [s], done + {s.url}, now)
  {
    var t := ss + [s];
    assert forall j :: 0 <= j < |ss| ==> t[j] == ss[j];
  }

  /** Position `i` of the sweep brings one new URL. */
  lemma SweepStep(unprocessed: seq<UrlRecord>, i: nat)
    requires i < |unprocessed| && DistinctUrls(unprocessed)
    ensures UrlsOf(unprocessed[..i + 1]) == UrlsOf(unprocessed[..i]) + {unprocessed[i].url}
    ensures unprocessed[i].url !in UrlsOf(unprocessed[..i])
  {
    assert unprocessed[..i + 1] == unprocessed[..i] + [unprocessed[i]];
    UrlsOfSnoc(unprocessed[..i], unprocessed[i]);
    forall x | x in unprocessed[..i] ensures x.url != unprocessed[i].url {
      var j :| 0 <= j < i && unprocessed[..i][j] == x;
      assert unprocessed[j] == x;
    }
  }

  lemma AppendStored(path: string, format: string, f: FileState, ss: seq<StoredClassification>, s: StoredClassification)
    ensures StoreAll(path, format, f, ss + [s]) == StoreOne(path, format, StoreAll(path, format, f, ss), s)
  {
    assert (ss + [s])[..|ss|] == ss;
  }
}
