/** The configuration records: crawl limits, render policy, retry policy,
    LLM provider settings and output settings, with the defaults and the
    field bounds that pydantic enforces when a configuration is built. */
module Settings {
  import opened Wrappers

  datatype CrawlLimits = CrawlLimits(maxDepth: int, maxPages: int, ratePerSecond: real)

  datatype RenderPolicy = RenderPolicy(minTextChars: int, spaMarkers: seq<string>, forceRender: bool)

  datatype RetryPolicy = RetryPolicy(maxAttempts: int, backoffSeconds: real)

  datatype LlmProviderConfig = LlmProviderConfig(provider: string, model: string, apiKeyEnv: string,
                                                 temperature: real, maxTokens: int)

  datatype OutputConfig = OutputConfig(storagePath: string, exportFormat: Option<string>, textExcerptMaxLength: int)

  /** `url_normalization_rules` is carried but never consulted, so it is not a field here. */
  datatype Config = Config(
    startUrls: seq<string>,
    allowedDomains: seq<string>,
    crawlLimits: CrawlLimits,
    renderPolicy: RenderPolicy,
    rulesetPath: string,
    termDictionariesPath: string,
    llmProviderConfig: LlmProviderConfig,
    outputConfig: OutputConfig,
    retryPolicy: RetryPolicy)

  /** The bounds declared on the fields (`ge`/`le`). */
  predicate ValidCrawlLimits(l: CrawlLimits) {
    l.maxDepth >= 0 && l.maxPages >= 1 && l.ratePerSecond >= 0.1
  }

  predicate ValidRetryPolicy(p: RetryPolicy) {
    p.maxAttempts >= 1 && p.backoffSeconds >= 0.0
  }

  predicate ValidLlmProviderConfig(p: LlmProviderConfig) {
    0.0 <= p.temperature <= 2.0 && p.maxTokens >= 1
  }

  predicate ValidOutputConfig(o: OutputConfig) {
    o.textExcerptMaxLength >= 100
  }

  /** A configuration pydantic accepts. */
  predicate ValidConfig(c: Config) {
    ValidCrawlLimits(c.crawlLimits) && ValidRetryPolicy(c.retryPolicy)
    && ValidLlmProviderConfig(c.llmProviderConfig) && ValidOutputConfig(c.outputConfig)
  }

  const DefaultSpaMarkers: seq<string> := ["__NEXT_DATA__", "data-reactroot", "__NUXT__", "ng-version"]

  const DefaultCrawlLimits := CrawlLimits(3, 1000, 2.0)
  const DefaultRenderPolicy := RenderPolicy(300, DefaultSpaMarkers, false)
  const DefaultRetryPolicy := RetryPolicy(3, 2.0)
  const DefaultLlmProviderConfig := LlmProviderConfig("openai", "gpt-4o-mini", "OPENAI_API_KEY", 0.0, 1024)
  const DefaultOutputConfig := OutputConfig("./output/results.db", Some("jsonl"), 5000)

  const DefaultConfig := Config([], [], DefaultCrawlLimits, DefaultRenderPolicy, "config/ruleset.json",
                                "config/term_dictionaries", DefaultLlmProviderConfig, DefaultOutputConfig,
                                DefaultRetryPolicy)

  /** Every default respects the bounds, so an empty configuration is accepted. */
  lemma DefaultsAreValid()
    ensures ValidConfig(DefaultConfig)
    ensures DefaultConfig.crawlLimits.maxDepth == 3 && DefaultConfig.crawlLimits.maxPages == 1000
    ensures DefaultConfig.renderPolicy.minTextChars == 300 && !DefaultConfig.renderPolicy.forceRender
    ensures |DefaultConfig.renderPolicy.spaMarkers| == 4
    ensures DefaultConfig.outputConfig.textExcerptMaxLength == 5000
  {
  }

  /** The export format the agent hands to the store: `export_format or "jsonl"`. */
  function EffectiveFormat(o: OutputConfig): (f: string)
    ensures f != ""
    ensures o.exportFormat.Some? && o.exportFormat.value != "" ==> f == o.exportFormat.value
    ensures !(o.exportFormat.Some? && o.exportFormat.value != "") ==> f == "jsonl"
  {
    if o.exportFormat.Some? && o.exportFormat.value != "" then o.exportFormat.value else "jsonl"
  }
}
