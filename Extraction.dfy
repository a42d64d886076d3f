/** Building a page package from a parsed page: the text excerpt, key
    paragraphs, the capped structural lists, keyword scores and the simple
    page predicates. The HTML parser is an oracle that hands over the texts
    it finds. */
module Extraction {
  import opened Wrappers
  import opened Text
  import opened Settings
  import opened TermScoring
  import opened PagePackages

  const SpaMarkers: seq<string> := ["__NEXT_DATA__", "data-reactroot", "__NUXT__", "ng-version"]

  /** The extractor's markers are the render policy's default markers. */
  lemma SpaMarkersMatchDefaults()
    ensures SpaMarkers == DefaultRenderPolicy.spaMarkers
  {
  }

  /** `any(n in text for n in needles)`, scanning the needles in order. */
  function AnyOccurs(text: string, needles: seq<string>): (b: bool)
    ensures b <==> exists i :: 0 <= i < |needles| && Contains(text, needles[i])
  {
    if |needles| == 0 then false
    else
      var init := needles[..|needles| - 1];
      assert forall i :: 0 <= i < |init| ==> init[i] == needles[i];
      AnyOccurs(text, init) || Contains(text, needles[|needles| - 1])
  }

  /** `_has_spa_markers`: some marker occurs in the HTML. */
  function HasSpaMarkers(html: string, markers: seq<string>): (b: bool)
    ensures b <==> exists i :: 0 <= i < |markers| && Contains(html, markers[i])
  {
    AnyOccurs(html, markers)
  }

  /** Markers found in a page are still found when text is added around it. */
  lemma SpaMarkersSurviveContext(html: string, markers: seq<string>, before: string, after: string)
    requires HasSpaMarkers(html, markers)
    ensures HasSpaMarkers(before + html + after, markers)
  {
    var i :| 0 <= i < |markers| && Contains(html, markers[i]);
    ContainsWithin(html, markers[i], before, after);
  }

  /** `_count_terms`: the number of entries of `keywords` that occur in the
      lower-cased text; an entry listed twice counts twice. */
  function CountTerms(text: string, keywords: seq<string>): (n: nat)
    ensures n <= |keywords|
    ensures n == 0 <==> forall i :: 0 <= i < |keywords| ==> !Contains(Lower(text), keywords[i])
    ensures n == |keywords| <==> forall i :: 0 <= i < |keywords| ==> Contains(Lower(text), keywords[i])
  {
    if |keywords| == 0 then 0
    else
      var init := keywords[..|keywords| - 1];
      assert forall i :: 0 <= i < |init| ==> init[i] == keywords[i];
      CountTerms(text, init) + (if Contains(Lower(text), keywords[|keywords| - 1]) then 1 else 0)
  }

  /** `dicts.get(category, [])`. */
  function Keywords(dicts: map<string, seq<string>>, c: Category): seq<string> {
    if CategoryName(c) in dicts then dicts[CategoryName(c)] else []
  }

  /** The five term scores of a search text. */
  function ScoreTerms(text: string, dicts: map<string, seq<string>>): (t: TermScores)
    ensures forall c :: Score(t, c) == CountTerms(text, Keywords(dicts, c))
  {
    TermScores(CountTerms(text, Keywords(dicts, InvestorBeginner)), CountTerms(text, Keywords(dicts, InvestorQualified)),
               CountTerms(text, Keywords(dicts, IssuerBeginner)), CountTerms(text, Keywords(dicts, IssuerAdvanced)),
               CountTerms(text, Keywords(dicts, Professional)))
  }

  /** A category whose dictionary is missing scores 0, and no score exceeds
      the size of its dictionary. */
  lemma MissingDictionaryScoresZero(text: string, dicts: map<string, seq<string>>, c: Category)
    ensures CategoryName(c) !in dicts ==> Score(ScoreTerms(text, dicts), c) == 0
    ensures Score(ScoreTerms(text, dicts), c) <= |Keywords(dicts, c)|
  {
  }

  /** `re.sub(r"\s+", " ", text)`: every run of whitespace becomes one space. */
  function CollapseWhitespace(s: string): (r: string)
    decreases |s|
    ensures |r| <= |s|
    ensures |r| == 0 <==> |s| == 0
    ensures |s| > 0 ==> r[0] == if IsSpace(s[0]) then ' ' else s[0]
    ensures forall i :: 0 <= i < |r| ==> r[i] == ' ' || !IsSpace(r[i])
    ensures forall i :: 0 <= i < |r| - 1 ==> r[i] != ' ' || r[i + 1] != ' '
  {
    if |s| == 0 then ""
    else if IsSpace(s[0]) then " " + CollapseWhitespace(TrimLeft(s))
    else [s[0]] + CollapseWhitespace(s[1..])
  }

  /** Collapsing twice is collapsing once. */
  lemma {:induction false} CollapseIdempotent(s: string)
    ensures CollapseWhitespace(CollapseWhitespace(s)) == CollapseWhitespace(s)
  {
    CollapsedIsFixed(CollapseWhitespace(s));
  }

  /** A string without whitespace other than single spaces is left as it is. */
  lemma {:induction false} CollapsedIsFixed(r: string)
    requires forall i :: 0 <= i < |r| ==> r[i] == ' ' || !IsSpace(r[i])
    requires forall i :: 0 <= i < |r| - 1 ==> r[i] != ' ' || r[i + 1] != ' '
    ensures CollapseWhitespace(r) == r
  {
    if |r| > 0 {
      var tail := r[1..];
      assert forall i :: 0 <= i < |tail| ==> tail[i] == r[i + 1];
      CollapsedIsFixed(tail);
      if IsSpace(r[0]) {
        assert |tail| > 0 ==> !IsSpace(tail[0]);
        assert TrimLeft(r) == tail;
      }
    }
  }

  /** `_extract_text`: the body text with whitespace collapsed, cut to
      `maxLength`; no body gives "". */
  function ExtractText(body: Option<string>, maxLength: nat): (t: string)
    ensures |t| <= maxLength
    ensures body.None? ==> t == ""
    ensures body.Some? ==> t <= CollapseWhitespace(body.value)
    ensures body.Some? && |CollapseWhitespace(body.value)| <= maxLength ==> t == CollapseWhitespace(body.value)
  {
    if body.None? then "" else Take(CollapseWhitespace(body.value), maxLength)
  }

  /** The texts `_key_paragraphs` keeps, before the count cap: those longer
      than 80 characters, each cut to 500. */
  function LongTexts(texts: seq<string>): (ps: seq<string>)
    ensures |ps| <= |texts|
    ensures forall i :: 0 <= i < |ps| ==> 80 < |ps[i]| <= 500
  {
    if |texts| == 0 then []
    else
      var t := texts[|texts| - 1];
      LongTexts(texts[..|texts| - 1]) + (if |t| > 80 then [Take(t, 500)] else [])
  }

  /** The kept texts appear in input order: the selection distributes over concatenation. */
  lemma {:induction false} LongTextsAppend(a: seq<string>, b: seq<string>)
    ensures LongTexts(a + b) == LongTexts(a) + LongTexts(b)
    decreases |b|
  {
    if |b| > 0 {
      var b' := b[..|b| - 1];
      assert (a + b)[..|a + b| - 1] == a + b';
      LongTextsAppend(a, b');
    } else {
      assert a + b == a;
    }
  }

  /** `_key_paragraphs(soup, max_count)` over the texts of the `p`, `article`
      and `section` elements in document order. */
  method KeyParagraphs(texts: seq<string>, maxCount: nat) returns (paras: seq<string>)
    ensures paras == Take(LongTexts(texts), maxCount)
    ensures |paras| <= maxCount
    ensures forall i :: 0 <= i < |paras| ==> 80 < |paras[i]| <= 500
  {
    var acc: seq<string> := [];
    for i := 0 to |texts|
      invariant acc == LongTexts(texts[..i])
    {
      var t := texts[i];
      assert texts[..i + 1][..i] == texts[..i];
      if |t| > 80 {
        acc := acc + [Take(t, 500)];
      }
    }
    assert texts[..|texts|] == texts;
    paras := Take(acc, maxCount);
  }

  /** The elements of `xs` that satisfy `p`, in order. */
  function Keep(xs: seq<string>, p: string -> bool): (r: seq<string>)
    ensures |r| <= |xs|
    ensures forall i :: 0 <= i < |r| ==> p(r[i])
    ensures forall x :: x in r ==> x in xs
  {
    if |xs| == 0 then []
    else Keep(xs[..|xs| - 1], p) + (if p(xs[|xs| - 1]) then [xs[|xs| - 1]] else [])
  }

  lemma {:induction false} KeepAppend(a: seq<string>, b: seq<string>, p: string -> bool)
    ensures Keep(a + b, p) == Keep(a, p) + Keep(b, p)
    decreases |b|
  {
    if |b| > 0 {
      var b' := b[..|b| - 1];
      assert (a + b)[..|a + b| - 1] == a + b';
      KeepAppend(a, b', p);
    } else {
      assert a + b == a;
    }
  }

  /** All strings of the groups, group after group. */
  function Flatten(groups: seq<seq<string>>): (r: seq<string>)
    ensures forall g, x :: g in groups && x in g ==> x in r
  {
    if |groups| == 0 then []
    else
      var init := groups[..|groups| - 1];
      assert forall g :: g in groups ==> g in init || g == groups[|groups| - 1];
      Flatten(init) + groups[|groups| - 1]
  }

  /** A navigation hint is non-empty and shorter than 100 characters. */
  predicate IsNavHint(t: string) {
    t != "" && |t| < 100
  }

  predicate NonEmpty(t: string) {
    t != ""
  }

  /** The breadcrumb loop: the stripped strings of every breadcrumb element, in order. */
  method CollectBreadcrumbs(groups: seq<seq<string>>) returns (breadcrumbs: seq<string>)
    ensures breadcrumbs == Flatten(groups)
  {
    breadcrumbs := [];
    for i := 0 to |groups|
      invariant breadcrumbs == Flatten(groups[..i])
    {
      assert groups[..i + 1][..i] == groups[..i];
      breadcrumbs := breadcrumbs + groups[i];
    }
    assert groups[..|groups|] == groups;
  }

  /** The navigation loop: the anchor texts of every `nav`/`aside` element
      that are non-empty and shorter than 100 characters. */
  method CollectNavHints(navs: seq<seq<string>>) returns (hints: seq<string>)
    ensures hints == Keep(Flatten(navs), IsNavHint)
    ensures forall i :: 0 <= i < |hints| ==> hints[i] != "" && |hints[i]| < 100
  {
    hints := [];
    for i := 0 to |navs|
      invariant hints == Keep(Flatten(navs[..i]), IsNavHint)
    {
      var anchors := navs[i];
      for j := 0 to |anchors|
        invariant hints == Keep(Flatten(navs[..i]), IsNavHint) + Keep(anchors[..j], IsNavHint)
      {
        var t := anchors[j];
        assert anchors[..j + 1][..j] == anchors[..j];
        if t != "" && |t| < 100 {
          hints := hints + [t];
        }
      }
      assert anchors[..|anchors|] == anchors;
      assert navs[..i + 1][..i] == navs[..i];
      KeepAppend(Flatten(navs[..i]), anchors, IsNavHint);
    }
    assert navs[..|navs|] == navs;
  }

  /** The call-to-action loop: the non-empty texts of matching buttons and links. */
  method CollectCtaTexts(texts: seq<string>) returns (ctas: seq<string>)
    ensures ctas == Keep(texts, NonEmpty)
    ensures forall i :: 0 <= i < |ctas| ==> ctas[i] != ""
  {
    ctas := [];
    for i := 0 to |texts|
      invariant ctas == Keep(texts[..i], NonEmpty)
    {
      var t := texts[i];
      assert texts[..i + 1][..i] == texts[..i];
      if t != "" {
        ctas := ctas + [t];
      }
    }
    assert texts[..|texts|] == texts;
  }

  /** The schema types one JSON-LD script contributes. */
  function SchemaHits(script: Option<string>): seq<string> {
    if script.Some? && script.value != "" then
      (if Contains(Lower(script.value), "organization") then ["Organization"] else [])
      + (if Contains(Lower(script.value), "article") then ["Article"] else [])
    else []
  }

  function AllSchemaHits(scripts: seq<Option<string>>): seq<string> {
    if |scripts| == 0 then [] else AllSchemaHits(scripts[..|scripts| - 1]) + SchemaHits(scripts[|scripts| - 1])
  }

  /** The JSON-LD loop over the `.string` of each `application/ld+json` script. */
  method CollectSchemaTypes(scripts: seq<Option<string>>) returns (types: seq<string>)
    ensures types == AllSchemaHits(scripts)
    ensures forall i :: 0 <= i < |types| ==> types[i] == "Organization" || types[i] == "Article"
  {
    types := [];
    for i := 0 to |scripts|
      invariant types == AllSchemaHits(scripts[..i])
      invariant forall k :: 0 <= k < |types| ==> types[k] == "Organization" || types[k] == "Article"
    {
      var s := scripts[i];
      assert scripts[..i + 1][..i] == scripts[..i];
      if s.Some? && s.value != "" && Contains(Lower(s.value), "organization") {
        types := types + ["Organization"];
      }
      if s.Some? && s.value != "" && Contains(Lower(s.value), "article") {
        types := types + ["Article"];
      }
    }
    assert scripts[..|scripts|] == scripts;
  }

  /** `is_doc`: ".pdf" in the URL (case-sensitive), or "document" in the
      lower-cased content type, or "doc" in the lower-cased URL. */
  function IsDocLike(url: string, contentType: string): (b: bool)
    ensures Contains(url, ".pdf") || Contains(Lower(url), "doc") ==> b
    ensures !Contains(url, ".pdf") && !Contains(Lower(url), "doc") ==> (b <==> Contains(Lower(contentType), "document"))
  {
    Contains(url, ".pdf") || Contains(Lower(contentType), "document") || Contains(Lower(url), "doc")
  }

  /** The content type is compared without regard to case. */
  lemma DocLikeIgnoresContentTypeCase(url: string, contentType: string)
    ensures IsDocLike(url, contentType) == IsDocLike(url, Lower(contentType))
  {
    LowerIdempotent(contentType);
  }

  const ApiKeywords: seq<string> :=
    ["api", "fix",
     "\U{0442}\U{043e}\U{0440}\U{0433}\U{043e}\U{0432}\U{044b}\U{0439} \U{0448}\U{043b}\U{044e}\U{0437}",
     "\U{043f}\U{043e}\U{0434}\U{043a}\U{043b}\U{044e}\U{0447}\U{0435}\U{043d}\U{0438}\U{0435} \U{043a} \U{0442}\U{043e}\U{0440}\U{0433}\U{0430}\U{043c}"]

  /** `has_api`: some API keyword occurs in the lower-cased text. */
  function HasApiKeywords(text: string): (b: bool)
    ensures b <==> exists i :: 0 <= i < |ApiKeywords| && Contains(Lower(text), ApiKeywords[i])
  {
    AnyOccurs(Lower(text), ApiKeywords)
  }

  /** What the HTML parser yields for one page. Texts are taken with
      `strip=True`; the body text and everything below are as found after
      `_extract_text` has removed the body's `script`, `style`, `nav` and
      `footer` elements. */
  datatype ParsedPage = ParsedPage(
    bodyText: Option<string>,
    headings: seq<string>,
    paragraphTexts: seq<string>,
    meta: PageMeta,
    breadcrumbGroups: seq<seq<string>>,
    navAnchorTexts: seq<seq<string>>,
    ctaTexts: seq<string>,
    hasForm: bool,
    ldJsonScripts: seq<Option<string>>,
    tagNames: seq<string>,
    tablesCount: nat,
    listsCount: nat)

  /** The parser, the dictionaries, the hash and the floating-point signals. */
  datatype ExtractEnv = ExtractEnv(
    parse: (string, bool) -> ParsedPage,
    dictionaries: map<string, seq<string>>,
    sha256Hex: string -> string,
    readability: string -> Option<real>,
    acronymRatio: string -> real)

  /** The number of ASCII digits in `s`. */
  function DigitCount(s: string): (n: nat)
    ensures n <= |s|
  {
    if |s| == 0 then 0 else DigitCount(s[..|s| - 1]) + (if '0' <= s[|s| - 1] <= '9' then 1 else 0)
  }

  /** `numbers_ratio`: the share of digits in the excerpt, absent for an empty excerpt. */
  function NumbersRatio(text: string): (r: Option<real>)
    ensures r.None? <==> text == ""
    ensures r.Some? ==> 0.0 <= r.value <= 1.0
  {
    if text == "" then None else Some(DigitCount(text) as real / |text| as real)
  }

  /** The scope the keyword counts search. */
  function SearchText(text: string, headings: seq<string>, ctas: seq<string>, navs: seq<string>, crumbs: seq<string>): string {
    Join(" ", [Take(text, 3000), Join(" ", headings), Join(" ", ctas), Join(" ", navs), Join(" ", crumbs)])
  }

  /** The XML parser is used when the content type mentions xml. */
  predicate UsesXmlParser(contentType: string) {
    contentType != "" && Contains(Lower(contentType), "xml")
  }

  /** `extract_tool`: a package whose construction fails exactly when a
      field constraint is violated (the excerpt can exceed 10000 characters
      only when the configured maximum does). */
  function PackageOf(url: string, html: string, finalUrl: string, httpStatus: int, fetchMode: string,
                     contentType: string, config: Config, env: ExtractEnv): (r: Result<PagePackage>)
    requires config.outputConfig.textExcerptMaxLength >= 0
    ensures var page := env.parse(html, UsesXmlParser(contentType));
      var text := ExtractText(page.bodyText, config.outputConfig.textExcerptMaxLength);
      (r.Ok? <==> (fetchMode == "http" || fetchMode == "render") && |text| <= MaxExcerptLength)
      && (r.Ok? ==>
        var p := r.value;
        ValidPackage(p)
        && p.url == url && p.finalUrl == finalUrl && p.status == Some(httpStatus) && p.fetchMode == fetchMode
        && p.contentType == Some(contentType) && p.meta == page.meta
        && p.contentHash == Some(Take(env.sha256Hex(html), 32))
        && p.content.textExcerpt == text && p.content.headings == page.headings
        && p.content.keyParagraphs == Take(LongTexts(page.paragraphTexts), MaxKeyParagraphs)
        && p.structure.breadcrumbs == Take(Flatten(page.breadcrumbGroups), 20)
        && p.structure.navSectionHints == Take(Keep(Flatten(page.navAnchorTexts), IsNavHint), 30)
        && p.structure.ctaTexts == Take(Keep(page.ctaTexts, NonEmpty), 20)
        && p.structure.formsDetected == page.hasForm
        && p.structure.schemaTypes == Distinct(AllSchemaHits(page.ldJsonScripts))
        && p.signals.termScores == ScoreTerms(
             SearchText(text, page.headings, Keep(page.ctaTexts, NonEmpty), Keep(Flatten(page.navAnchorTexts), IsNavHint),
                        Flatten(page.breadcrumbGroups)), env.dictionaries)
        && p.signals.isDocLike == IsDocLike(url, contentType)
        && p.signals.isArticleLike == ("article" in page.tagNames || "Article" in AllSchemaHits(page.ldJsonScripts))
        && p.signals.hasApiKeywords == HasApiKeywords(text)
        && p.signals.readabilityProxy == env.readability(text)
        && p.signals.tablesCount == page.tablesCount && p.signals.listsCount == page.listsCount
        && p.signals.acronymRatio == Some(env.acronymRatio(text))
        && p.signals.numbersRatio == NumbersRatio(text))
  {
    var page := env.parse(html, UsesXmlParser(contentType));
    var text := ExtractText(page.bodyText, config.outputConfig.textExcerptMaxLength);
    var ctaTexts := Keep(page.ctaTexts, NonEmpty);
    var navHints := Keep(Flatten(page.navAnchorTexts), IsNavHint);
    var breadcrumbs := Flatten(page.breadcrumbGroups);
    var schemaTypes := AllSchemaHits(page.ldJsonScripts);
    var package := PagePackage(
      url, finalUrl, Some(httpStatus), fetchMode, Some(contentType), Some(Take(env.sha256Hex(html), 32)), page.meta,
      PageContent(text, page.headings, Take(LongTexts(page.paragraphTexts), MaxKeyParagraphs)),
      PageStructure(Take(breadcrumbs, 20), Take(navHints, 30), Take(ctaTexts, 20), page.hasForm, Distinct(schemaTypes)),
      PageSignals(ScoreTerms(SearchText(text, page.headings, ctaTexts, navHints, breadcrumbs), env.dictionaries),
                  env.readability(text), page.tablesCount, page.listsCount, NumbersRatio(text),
                  Some(env.acronymRatio(text)), "article" in page.tagNames || "Article" in schemaTypes,
                  IsDocLike(url, contentType), HasApiKeywords(text)));
    MakePackage(package)
  }

  /** The extraction steps, with their loops, compute the package above. */
  method ExtractTool(url: string, html: string, finalUrl: string, httpStatus: int, fetchMode: string,
                     contentType: string, config: Config, env: ExtractEnv) returns (r: Result<PagePackage>)
    requires config.outputConfig.textExcerptMaxLength >= 0
    ensures r == PackageOf(url, html, finalUrl, httpStatus, fetchMode, contentType, config, env)
  {
    var page := env.parse(html, UsesXmlParser(contentType));
    var text := ExtractText(page.bodyText, config.outputConfig.textExcerptMaxLength);
    var keyParas := KeyParagraphs(page.paragraphTexts, MaxKeyParagraphs);
    var breadcrumbs := CollectBreadcrumbs(page.breadcrumbGroups);
    var navHints := CollectNavHints(page.navAnchorTexts);
    var ctaTexts := CollectCtaTexts(page.ctaTexts);
    var schemaTypes := CollectSchemaTypes(page.ldJsonScripts);
    var searchText := SearchText(text, page.headings, ctaTexts, navHints, breadcrumbs);
    var scores := ScoreTerms(searchText, env.dictionaries);
    var numbersRatio := NumbersRatio(text);
    var isArticle := "article" in page.tagNames || "Article" in schemaTypes;
    var isDoc := IsDocLike(url, contentType);
    var hasApi := HasApiKeywords(text);
    var contentHash := Take(env.sha256Hex(html), 32);
    var package := PagePackage(
      url, finalUrl, Some(httpStatus), fetchMode, Some(contentType), Some(contentHash), page.meta,
      PageContent(text, page.headings, keyParas),
      PageStructure(Take(breadcrumbs, 20), Take(navHints, 30), Take(ctaTexts, 20), page.hasForm, Distinct(schemaTypes)),
      PageSignals(scores, env.readability(text), page.tablesCount, page.listsCount, numbersRatio,
                  Some(env.acronymRatio(text)), isArticle, isDoc, hasApi));
    r := MakePackage(package);
  }
}
