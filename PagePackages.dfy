/** The page package: the compact representation of a fetched page that the
    classifier sees, with the constraints pydantic checks on its fields and
    the dictionary handed to the LLM. */
module PagePackages {
  import opened Wrappers
  import opened Text
  import opened TermScoring

  datatype PageMeta = PageMeta(title: Option<string>, description: Option<string>, h1: Option<string>,
                               canonical: Option<string>, robots: Option<string>)

  datatype PageContent = PageContent(textExcerpt: string, headings: seq<string>, keyParagraphs: seq<string>)

  datatype PageStructure = PageStructure(breadcrumbs: seq<string>, navSectionHints: seq<string>,
                                         ctaTexts: seq<string>, formsDetected: bool, schemaTypes: seq<string>)

  datatype PageSignals = PageSignals(
    termScores: TermScores,
    readabilityProxy: Option<real>,
    tablesCount: int,
    listsCount: int,
    numbersRatio: Option<real>,
    acronymRatio: Option<real>,
    isArticleLike: bool,
    isDocLike: bool,
    hasApiKeywords: bool)

  datatype PagePackage = PagePackage(
    url: string,
    finalUrl: string,
    status: Option<int>,
    fetchMode: string,
    contentType: Option<string>,
    contentHash: Option<string>,
    meta: PageMeta,
    content: PageContent,
    structure: PageStructure,
    signals: PageSignals)

  const MaxExcerptLength := 10000
  const MaxKeyParagraphs := 7
  const LlmExcerptLength := 2000

  /** `fetch_mode` matches `^(http|render)$`, the excerpt has at most 10000
      characters and there are at most 7 key paragraphs. */
  predicate ValidPackage(p: PagePackage) {
    (p.fetchMode == "http" || p.fetchMode == "render")
    && |p.content.textExcerpt| <= MaxExcerptLength
    && |p.content.keyParagraphs| <= MaxKeyParagraphs
  }

  /** Constructing a package: pydantic raises a validation error when a
      constraint fails. */
  function MakePackage(p: PagePackage): (r: Result<PagePackage>)
    ensures r.Ok? <==> ValidPackage(p)
    ensures r.Ok? ==> r.value == p
  {
    if !(p.fetchMode == "http" || p.fetchMode == "render") then Err("fetch_mode: string does not match pattern")
    else if |p.content.textExcerpt| > MaxExcerptLength then Err("text_excerpt: string too long")
    else if |p.content.keyParagraphs| > MaxKeyParagraphs then Err("key_paragraphs: list too long")
    else Ok(p)
  }

  datatype LlmContent = LlmContent(textExcerpt: string, headings: seq<string>, keyParagraphs: seq<string>)

  datatype LlmSignals = LlmSignals(
    termScores: map<string, int>,
    readabilityProxy: Option<real>,
    tablesCount: int,
    listsCount: int,
    isArticleLike: bool,
    isDocLike: bool,
    hasApiKeywords: bool)

  /** The dictionary `to_llm_input` returns, one field per key. */
  datatype LlmInput = LlmInput(
    url: string,
    finalUrl: string,
    status: Option<int>,
    fetchMode: string,
    contentType: Option<string>,
    meta: PageMeta,
    content: LlmContent,
    structure: PageStructure,
    signals: LlmSignals)

  /** `to_llm_input`: the page fields, meta and structure are copied, the
      excerpt is cut to its first 2000 characters and the term scores become
      their dictionary. */
  function ToLlmInput(p: PagePackage): (d: LlmInput)
    ensures d.url == p.url && d.finalUrl == p.finalUrl && d.status == p.status
    ensures d.fetchMode == p.fetchMode && d.contentType == p.contentType
    ensures d.meta == p.meta && d.structure == p.structure
    ensures d.content.headings == p.content.headings && d.content.keyParagraphs == p.content.keyParagraphs
    ensures |d.content.textExcerpt| == if |p.content.textExcerpt| < LlmExcerptLength then |p.content.textExcerpt| else LlmExcerptLength
    ensures d.content.textExcerpt <= p.content.textExcerpt
    ensures d.signals.termScores.Keys == CategoryNames
    ensures d.signals.tablesCount == p.signals.tablesCount && d.signals.listsCount == p.signals.listsCount
  {
    LlmInput(
      p.url, p.finalUrl, p.status, p.fetchMode, p.contentType, p.meta,
      LlmContent(Take(p.content.textExcerpt, LlmExcerptLength), p.content.headings, p.content.keyParagraphs),
      p.structure,
      LlmSignals(ToDictForLlm(p.signals.termScores), p.signals.readabilityProxy, p.signals.tablesCount,
                 p.signals.listsCount, p.signals.isArticleLike, p.signals.isDocLike, p.signals.hasApiKeywords))
  }

  /** The content hash, the number and acronym ratios and the excerpt beyond
      its first 2000 characters never reach the LLM. */
  lemma LlmInputOmits(p: PagePackage, hash: Option<string>, numbers: Option<real>, acronyms: Option<real>, more: string)
    requires |p.content.textExcerpt| >= LlmExcerptLength
    ensures var q := p.(contentHash := hash,
                        signals := p.signals.(numbersRatio := numbers, acronymRatio := acronyms),
                        content := p.content.(textExcerpt := p.content.textExcerpt + more));
      ToLlmInput(q) == ToLlmInput(p)
  {
    var t := p.content.textExcerpt;
    assert (t + more)[..LlmExcerptLength] == t[..LlmExcerptLength];
  }
}
