# Page classification pipeline, modelled in Dafny

This project models the core of a page classification system. The system
crawls a site, classifies each page into audience labels, and stores the
results. The labels are INVESTOR_BEGINNER, INVESTOR_QUALIFIED,
ISSUER_BEGINNER, ISSUER_ADVANCED, PROFESSIONAL and OTHER.

The model covers these parts of the pipeline:

- **Frontier and Crawler** (`crawl_tool.py`):
  - URL normalisation, modelled twice: as written, and corrected (see Findings);
  - the seed set and the sitemap intake;
  - the bounded breadth-first walk over internal links;
  - the final deduplication by URL and the cut to `max_pages`.
- **Agent** (`mcp_agent.py`), the `MCPAgent` class:
  - the render escalation;
  - the per-URL pipeline (extract, classify, validate then fix, build the stored record, store);
  - the crawl-time callback;
  - the leftover sweep of `run`.
- **Validation** (`validate_tool.py`): rules 1, 2, 4 and 5, and the fix.
- **LlmClassification** (`classify_llm_tool.py`):
  - the fixed fallback results;
  - markdown fence stripping;
  - the brace-counting JSON object extraction;
  - label coercion;
  - confidence clamping.
- **Storage** (`storage_tool.py`): the output file as a value held by a `Store` object. The file is a JSON-lines log, a JSON array, or a SQLite table keyed on `url` with `INSERT OR REPLACE` semantics.
- **Extraction** (`extract_tool.py`): the helpers and the package assembly. They work over a parsed page that an oracle supplies.
- **Records**:
  - UrlRecords (`url_record.py`);
  - Classifications (`classification_result.py`);
  - PagePackages (`page_package.py`);
  - TermScoring (`term_scores.py`);
  - Settings (the config records of `loader.py`).

Four helper modules support these:

- **UrlParsing** models Python's `urllib.parse.urlsplit` and `urlparse`, which `normalize_url` relies on.
- **Text** holds the string helpers: substring, ASCII and basic Cyrillic case mapping, Python whitespace stripping, `rstrip`, `find`, `join`.
- **Wrappers** holds `Option` and `Result`.

The outside world comes in as parameters:

- fetches, renders, HTML parsing, the LLM answer, `json.loads`, SHA-256, the environment, the clock and write failures are function-valued fields of an `Env`;
- the crawler's web is a pair of finite maps (sitemap URL to `<loc>` list, page URL to status and hrefs) with `urljoin` as an oracle;
- an exception becomes an `Err` for the caller that catches it.

Where the docstrings and the code disagree, the model follows the code:

- `normalize_url` promises to sort the query and lower-case the host, and does neither (`crawl_tool.py:19` against `crawl_tool.py:26-29`);
- the sitemap is read flat, with no recursion into sitemap indexes;
- `rec.state` is never assigned by the agent, so every crawled record is `DISCOVERED`.

## Model

| member | source | states |
|---|---|---|
| UrlRecords.StatesEnumerated | src/page_classification/models/url_record.py:10-25 | There are exactly nine processing states with distinct names; the terminal set is {STORED, FAILED, SKIPPED} and DISCOVERED is not in it |
| UrlRecords.NewRecord | src/page_classification/models/url_record.py:28-38 | A new record keeps the given URL, origin, depth and time, is DISCOVERED (not terminal), and has no final URL, status or error |
| UrlRecords.DefaultRecord | src/page_classification/models/url_record.py:32-35 | With only a URL given, depth defaults to 0, origin to None and state to DISCOVERED |
| Classifications.PriorityRanksAllowedLabels | src/page_classification/models/classification_result.py:9-26 | The priority table ranks exactly the allowed labels, and there are six of them |
| Classifications.PriorityRanksDistinct | src/page_classification/models/classification_result.py:19-26 | Priorities are distinct, lie in 1..6, OTHER ranks lowest and PROFESSIONAL highest |
| Classifications.Label | src/page_classification/models/classification_result.py:40-45 | The `label` property is the first label, or OTHER for an empty list |
| Classifications.MakeResult | src/page_classification/models/classification_result.py:29-38 | A ClassificationResult can be built exactly when confidence is in [0,1]; its defaults are empty rules, evidence and missing signals, an empty rationale and no review flag |
| Classifications.StoredConfidenceUnchecked | src/page_classification/models/classification_result.py:48-64 | Unlike a ClassificationResult, a stored record accepts any confidence, including values outside [0,1] |
| TermScoring.ToDictForLlm | src/page_classification/models/term_scores.py:15-23 | The LLM dictionary has exactly the five category keys, each mapped to its own count |
| TermScoring.DictDeterminesScores | src/page_classification/models/term_scores.py:15-23 | The dictionary loses nothing: equal dictionaries come from equal scores |
| TermScoring.ZeroScoresDefault | src/page_classification/models/term_scores.py:9-13 | The default scores are all zero, in the record and in its dictionary |
| PagePackages.MakePackage | src/page_classification/models/page_package.py:20-70 | Building a package succeeds exactly when the fetch mode is http or render, the excerpt has at most 10000 characters and there are at most 7 key paragraphs; the package is then the given one |
| PagePackages.ToLlmInput | src/page_classification/models/page_package.py:72-96 | The LLM view copies URL, final URL, status, fetch mode, content type, meta, structure, headings, key paragraphs and the counts, and cuts the excerpt to its first min(2000, length) characters |
| PagePackages.LlmInputOmits | src/page_classification/models/page_package.py:72-96 | The hash, the numbers and acronym ratios and the excerpt beyond 2000 characters never reach the LLM: changing them leaves the view unchanged |
| Settings.DefaultsAreValid | src/page_classification/config/loader.py:11-66 | The default configuration satisfies every field bound (max_depth at least 0, max_pages at least 1, max_attempts at least 1, backoff at least 0, excerpt length at least 100) with the documented defaults 3, 1000, 300, four SPA markers, no forced render and 5000 |
| Settings.EffectiveFormat | src/page_classification/agent/mcp_agent.py:53 | The export format used is the configured one when that is set and non-empty, and `"jsonl"` otherwise (`or "jsonl"`) |
| Validation.ErrorsMatchRules | src/page_classification/tools/validate_tool.py:33-54 | Each error is reported iff its rule fires: invalid first label, confidence outside [0,1], non-OTHER without rules and not reviewed, confidence below 0.5 and not reviewed |
| Validation.LaterLabelsUnchecked | src/page_classification/tools/validate_tool.py:34-35 | Only the first label is checked: appending any labels after it leaves the errors unchanged |
| Validation.ValidateTool | src/page_classification/tools/validate_tool.py:10-56 | The errors are the rule errors in order, whatever rule IDs the ruleset holds, and the result is valid iff there are none |
| Validation.ApplyValidationFixes | src/page_classification/tools/validate_tool.py:59-65 | Only the review flag changes, and it is set iff it was set, or the first label is not OTHER with no matched rules, or confidence is below 0.5 |
| Validation.FixProperties | src/page_classification/tools/validate_tool.py:49-65 | The fix never clears the flag, is idempotent, and leaves only the label and confidence errors, so rules 4 and 5 cannot fire afterwards |
| Validation.FixIdentityWhenValid | src/page_classification/tools/validate_tool.py:59-65 | A result that passes validation is left unchanged by the fix |
| Validation.FixIfInvalid | src/page_classification/agent/mcp_agent.py:184-187 | Fixing only invalid results gives the same result as fixing every result |
| Storage.ModelDumpFields | src/page_classification/tools/storage_tool.py:49-51 | The dump of a stored record has exactly its fourteen field names as keys, each holding that field's value; there is no `label` key |
| Storage.Get | src/page_classification/tools/storage_tool.py:110-123 | Indexing a dump succeeds iff the key is present, and then gives its value; otherwise it raises KeyError |
| Storage.SqliteParams | src/page_classification/tools/storage_tool.py:109-124 | The insert parameters are fourteen values, and the label column is whatever the label lookup produced |
| Storage.SqliteRowAsWrittenAlwaysFails | src/page_classification/tools/storage_tool.py:97-113 | For every record the dump lacks `label`, so building the row raises `KeyError: 'label'` |
| Storage.SqliteRow | src/page_classification/tools/storage_tool.py:101-125 | The corrected row has the URL as key, the record's `label` property, the confidence, rules and evidence as JSON, and needs_review as 1 or 0 |
| Storage.SqliteRowIsParams | src/page_classification/tools/storage_tool.py:109-124 | The corrected row is the insert parameters taken from the dump with the `label` property supplied |
| Storage.Upsert | src/page_classification/tools/storage_tool.py:101-107 | INSERT OR REPLACE: the URL maps to the new row, every other key keeps its row, and at most one key is added |
| Storage.InitialState | src/page_classification/tools/storage_tool.py:10-34 | After initialisation the output is empty: an existing database keeps an empty table, anything else is removed |
| Storage.Store.InitStorage | src/page_classification/tools/storage_tool.py:10-34 | Initialising fails exactly when a `.db` path holds a file SQLite cannot open (the `DatabaseError` of the `DELETE`), and then leaves the file as it was; otherwise the file becomes `InitialState` of the old file |
| Storage.Store.StorageTool | src/page_classification/tools/storage_tool.py:37-65 | A successful write appends the record's dump after the old entries, as a log for jsonl and as a rewritten array otherwise, with a missing file read as empty; a failed write changes nothing |
| Storage.Store.StorageToolSqliteAsWritten | src/page_classification/tools/storage_tool.py:68-127 | The SQLite writer as written always fails with `KeyError: 'label'`, leaving the table (created if missing) without the row |
| Storage.Store.StorageToolSqlite | src/page_classification/tools/storage_tool.py:68-127 | The corrected writer upserts the record's row into the table, or changes nothing when the write fails |
| Storage.UpsertAll | src/page_classification/tools/storage_tool.py:79-107 | Upserting records one by one leaves keys for the old rows plus one per record URL |
| Storage.UpsertAllStep | src/page_classification/tools/storage_tool.py:101-107 | One more record upserts its row over the rows of the earlier ones |
| Storage.UpsertAllLastWins | src/page_classification/tools/storage_tool.py:81-107 | After a series of upserts a URL holds the row of its last record: one row per URL, last write wins |
| Extraction.SpaMarkersMatchDefaults | src/page_classification/tools/extract_tool.py:20 | The extractor's SPA markers are the render policy's default markers |
| Extraction.AnyOccurs | src/page_classification/tools/extract_tool.py:76 | `any(n in text for n in needles)` holds iff some needle is a substring of the text |
| Extraction.HasSpaMarkers | src/page_classification/tools/extract_tool.py:75-76 | `_has_spa_markers` holds iff some marker is a substring of the HTML |
| Extraction.SpaMarkersSurviveContext | src/page_classification/tools/extract_tool.py:75-76 | A page that has a marker still has it with any text around it (substring semantics) |
| Extraction.CountTerms | src/page_classification/tools/extract_tool.py:47-50 | The count is at most the number of keywords; it is zero iff no keyword occurs in the lower-cased text, and full iff every keyword occurs |
| Extraction.ScoreTerms | src/page_classification/tools/extract_tool.py:176-184 | Each category's score counts its dictionary's keywords in the search text |
| Extraction.MissingDictionaryScoresZero | src/page_classification/tools/extract_tool.py:179-184 | A category without a dictionary scores 0, and no score exceeds its dictionary's size |
| Extraction.CollapseWhitespace | src/page_classification/tools/extract_tool.py:61 | The result is no longer than the input, holds no whitespace other than single spaces, and never two spaces in a row |
| Extraction.CollapseIdempotent | src/page_classification/tools/extract_tool.py:61 | Collapsing whitespace twice is the same as once |
| Extraction.CollapsedIsFixed | src/page_classification/tools/extract_tool.py:61 | Any text that is already collapsed is left unchanged |
| Extraction.ExtractText | src/page_classification/tools/extract_tool.py:53-62 | The excerpt is at most max_length long and is a prefix of the collapsed body text; it is the whole collapsed text when that fits, and empty without a body |
| Extraction.LongTextsAppend | src/page_classification/tools/extract_tool.py:68-71 | The paragraph filter works element by element: filtering a concatenation concatenates the filtered parts, so order is kept |
| Extraction.KeyParagraphs | src/page_classification/tools/extract_tool.py:65-72 | The key paragraphs are the first seven texts longer than 80 characters, each cut to 500, in order |
| Extraction.KeepAppend | src/page_classification/tools/extract_tool.py:145-155 | The nav and CTA filters work element by element and keep order |
| Extraction.CollectBreadcrumbs | src/page_classification/tools/extract_tool.py:142-144 | The breadcrumbs are the strings of all breadcrumb elements, in order |
| Extraction.CollectNavHints | src/page_classification/tools/extract_tool.py:145-150 | The nav hints are the anchor texts of every nav or aside that are non-empty and shorter than 100 characters, in order |
| Extraction.CollectCtaTexts | src/page_classification/tools/extract_tool.py:151-155 | The CTA texts are the non-empty button texts, in order |
| Extraction.CollectSchemaTypes | src/page_classification/tools/extract_tool.py:157-162 | Each non-empty ld+json script gives Organization and then Article when it mentions them; nothing else is collected |
| Extraction.NumbersRatio | src/page_classification/tools/extract_tool.py:189-190 | The digit ratio is None exactly for an empty text, and otherwise lies in [0,1] |
| Extraction.IsDocLike | src/page_classification/tools/extract_tool.py:194 | A URL holding ".pdf" (case-sensitive) or "doc" (case-insensitive) is doc-like; any other URL is doc-like iff the lower-cased content type holds "document" |
| Extraction.DocLikeIgnoresContentTypeCase | src/page_classification/tools/extract_tool.py:194 | The doc flag does not depend on the case of the content type |
| Extraction.HasApiKeywords | src/page_classification/tools/extract_tool.py:195-196 | The API flag holds iff one of the four API keywords occurs in the lower-cased excerpt |
| Extraction.ExtractTool | src/page_classification/tools/extract_tool.py:93-231 | The extraction steps, with their loops, compute exactly `PackageOf` |
| Extraction.PackageOf | src/page_classification/tools/extract_tool.py:93-231 | Extraction fails exactly when the fetch mode is not http/render or the excerpt exceeds 10000 characters. Otherwise the package carries the inputs and the 32-character hash prefix, and each content, structure and signal field is the one defined for it: the excerpt, the long paragraphs, the capped lists (20, 30, 20), the deduplicated schema types, the term scores over the search text, the doc, article and API flags, the parser counts and the ratios |
| LlmClassification.Fallback | src/page_classification/tools/classify_llm_tool.py:105-115 | A fallback is OTHER with confidence 0, flagged for review, with no rules or evidence and a single missing signal |
| LlmClassification.FallbacksAreWellFormed | src/page_classification/tools/classify_llm_tool.py:105-231 | The four fallbacks (no key, empty answer, API error, parse error) share that shape and differ only in rationale and missing signal, which are llm_unavailable, empty_response, llm_error and parse_error |
| LlmClassification.DropOpeningFence | src/page_classification/tools/classify_llm_tool.py:198-199 | Text opening with a fence loses its first line, or only the three backticks when it has no newline; other text is unchanged |
| LlmClassification.DropClosingFence | src/page_classification/tools/classify_llm_tool.py:200-201 | Text ending with a fence loses the last fence and what follows is stripped; other text is unchanged |
| LlmClassification.StripFences | src/page_classification/tools/classify_llm_tool.py:195-201 | The answer is stripped, then loses an opening and a closing fence; an answer with no fence at either end is only stripped |
| LlmClassification.StripFencesOfFenced | src/page_classification/tools/classify_llm_tool.py:195-201 | A fenced answer reduces to its stripped body, whatever tag follows the opening fence |
| LlmClassification.StripFencesOfOpenOnly | src/page_classification/tools/classify_llm_tool.py:198-199 | An opening fence line with no closing fence leaves everything after the first line, as it is |
| LlmClassification.StripFencesOfOneLine | src/page_classification/tools/classify_llm_tool.py:198-201 | A one-line fenced answer keeps the text between the fences, stripped; with no closing fence it keeps everything after the three backticks |
| LlmClassification.ExtractedObject | src/page_classification/tools/classify_llm_tool.py:203-215 | If the first `{` has a point where its brace count returns to zero, the result is the slice up to the first such point; otherwise the text is unchanged |
| LlmClassification.FirstClose | src/page_classification/tools/classify_llm_tool.py:208-215 | The first end from a given point where the count is zero, or none when the count is non-zero up to the end of the text |
| LlmClassification.ExtractJsonObject | src/page_classification/tools/classify_llm_tool.py:203-215 | The brace-counting loop computes exactly the extracted object |
| LlmClassification.ClosedSliceIsObject | src/page_classification/tools/classify_llm_tool.py:205-215 | That slice starts with `{`, ends with `}`, is balanced, and its count is positive on every proper prefix |
| LlmClassification.LabelsRaw | src/page_classification/tools/classify_llm_tool.py:234 | The labels come from `labels`, else from `label`, else they default to OTHER |
| LlmClassification.RawLabels | src/page_classification/tools/classify_llm_tool.py:234-237 | A string label becomes a one-item list, upper-cased and trimmed when non-empty and dropped when empty; a list gives its truthy items cleaned; an object gives one label per distinct non-empty key, repeated keys counting once; iterating a number, a boolean or null raises |
| LlmClassification.CleanSingle | src/page_classification/tools/classify_llm_tool.py:237 | A falsy item is dropped, and any other item becomes its upper-cased, trimmed string |
| LlmClassification.AllowedUpperMembers | src/page_classification/tools/classify_llm_tool.py:242-247 | A label is kept iff it is allowed and is the upper-case form of some input label |
| LlmClassification.CoercedLabels | src/page_classification/tools/classify_llm_tool.py:239-257 | The coerced labels are non-empty and allowed, and a list containing OTHER is exactly [OTHER] |
| LlmClassification.CoercedOtherWins | src/page_classification/tools/classify_llm_tool.py:250-253 | Any OTHER among the inputs makes the result exactly [OTHER] |
| LlmClassification.CoercedNoneAllowed | src/page_classification/tools/classify_llm_tool.py:255-257 | With no allowed input the result defaults to [OTHER] |
| LlmClassification.CoercedKeepsAllowed | src/page_classification/tools/classify_llm_tool.py:242-247 | Without OTHER and with some allowed input, the result is the allowed inputs in order, duplicates kept |
| LlmClassification.CoerceLabels | src/page_classification/tools/classify_llm_tool.py:240-257 | The loop with its has_other flag computes the coerced labels |
| LlmClassification.Clamp | src/page_classification/tools/classify_llm_tool.py:259 | The clamped confidence is in [0,1], equals a value already in range, and saturates at the ends |
| LlmClassification.ToFloat | src/page_classification/tools/classify_llm_tool.py:259 | `float()` keeps a number and raises on null, a list or an object |
| LlmClassification.StringList | src/page_classification/tools/classify_llm_tool.py:260-264 | A missing or falsy field (`or []`) gives the empty list; a list must hold only strings and gives them in order; an object gives its distinct keys; a string gives its characters; a number or a boolean raises |
| LlmClassification.ResultFromObject | src/page_classification/tools/classify_llm_tool.py:259-274 | The result is Ok exactly when confidence converts and the three list fields are lists; it then carries the coerced labels, the clamped confidence, the converted lists and rationale, and the truthiness of needs_review; an answer with none of the optional fields gets the defaults |
| LlmClassification.Classification | src/page_classification/tools/classify_llm_tool.py:82-274 | No key gives the no-key fallback, an API error the error fallback and an empty answer the empty fallback; otherwise the extracted object is parsed: a parse error gives the parse fallback, a non-object raises, and an object gives the result built from it with its labels coerced. Every result has non-empty allowed labels, OTHER only alone, and confidence in [0,1] |
| LlmClassification.ClassifyLlmTool | src/page_classification/tools/classify_llm_tool.py:82-274 | The tool returns exactly the classification described above |
| UrlParsing.UrlSplit | src/page_classification/tools/crawl_tool.py:20 | The split parts of `urlsplit` hold no separator that ends them: no `/`, `?` or `#` in the network location, no `?` or `#` in the path, no `#` in the query, and the scheme, if any, is valid and lower-case |
| UrlParsing.SplitClean | src/page_classification/tools/crawl_tool.py:20 | No split part holds a tab, CR or LF, which `urlsplit` removes |
| UrlParsing.UrlParse | src/page_classification/tools/crawl_tool.py:20 | `urlparse` agrees with `urlsplit` on scheme, network location, query and fragment, and its path is a prefix of the split path (the `;params` cut off) |
| UrlParsing.SplitAssembled | src/page_classification/tools/crawl_tool.py:20-28 | Splitting `scheme://w?q` again gives back the scheme, the query and `w` as network location followed by path, with no fragment |
| Frontier.NormalizeUrlAsWritten | src/page_classification/tools/crawl_tool.py:14-29 | The normalised URL never ends in `/` and never holds `#` |
| Frontier.AsWrittenShape | src/page_classification/tools/crawl_tool.py:26-29 | The result is the assembled string with its trailing slashes stripped, so the `or result + "/"` branch is unreachable |
| Frontier.AsWrittenBaseOnlyWithoutNetloc | src/page_classification/tools/crawl_tool.py:21-23 | The base is consulted only for a URL without a network location |
| Frontier.AsWrittenOfAssembled | src/page_classification/tools/crawl_tool.py:26-29 | For an assembled `scheme://w?q` the parts parse back and the result is the reassembly with trailing slashes stripped |
| Frontier.AsWrittenNotIdempotent | src/page_classification/tools/crawl_tool.py:26-29 | For every `s://w?/` (for instance `http://a/b?/`) one pass gives `s://w?` and a second gives `s://w`, so normalising twice differs from normalising once |
| Frontier.NormalizeUrl | src/page_classification/tools/crawl_tool.py:14-29 | The corrected normalisation never yields a `#` |
| Frontier.NormalizeUrlParts | src/page_classification/tools/crawl_tool.py:26-29 | The corrected result parses back to the same scheme and query, no fragment, and the original network location and path, with trailing path slashes removed only when there is no query |
| Frontier.NormalizeUrlIdempotent | src/page_classification/tools/crawl_tool.py:14-29 | The corrected normalisation is idempotent on URLs with a scheme |
| Frontier.CorrectedAgreesAsWritten | src/page_classification/tools/crawl_tool.py:14-29 | Away from the defect (a network location, no `;params`, and a query that is empty or does not end in `/`) both normalisations agree |
| Crawler.AllowedHostsNonEmpty | src/page_classification/tools/crawl_tool.py:43-45 | With seeds present the allowed set is never empty: it is the configured domains, or the seeds' network locations when none are configured |
| Crawler.SeedFrontier | src/page_classification/tools/crawl_tool.py:53-57 | `seen` holds the normalised seeds, and the queue holds each distinct normalised seed once, at depth 0 and in first-occurrence order |
| Crawler.LinkTargetPadded | src/page_classification/tools/crawl_tool.py:115-119 | Surrounding whitespace of an href is ignored; empty, `#` and `mailto:` hrefs are dropped, and any other href is joined and normalised against its page |
| Crawler.IntakeSitemap | src/page_classification/tools/crawl_tool.py:66-83 | A well-formed sitemap adds depth-0 records with distinct, allowed, listed URLs, and every allowed `<loc>` ends up seen |
| Crawler.IntakeSitemaps | src/page_classification/tools/crawl_tool.py:60-85 | Over all seeds' sitemaps the records are valid depth-0 records with distinct URLs, and every allowed `<loc>` of a well-formed sitemap is seen; a failed fetch adds nothing |
| Crawler.LinkEntries | src/page_classification/tools/crawl_tool.py:114-122 | The entries a page enqueues have depth one more than the page and within the limit, come from the page, are allowed and not seen |
| Crawler.LinkEntriesFromHrefs | src/page_classification/tools/crawl_tool.py:114-122 | Every enqueued entry is the normalised target of one of the page's hrefs |
| Crawler.ExpandLinks | src/page_classification/tools/crawl_tool.py:114-122 | The href loop appends exactly those entries to the queue |
| Crawler.AddRecordKeepsFrontier | src/page_classification/tools/crawl_tool.py:93-107 | Recording an admitted, unseen entry keeps the frontier invariant |
| Crawler.AddLinksKeepsFrontier | src/page_classification/tools/crawl_tool.py:108-122 | Enqueueing a fetched page's links keeps the frontier invariant |
| Crawler.PageLinksWeighLess | src/page_classification/tools/crawl_tool.py:114-122 | The links a page adds weigh less than the entry that was taken off the queue, so the walk terminates |
| Crawler.VisitEntry | src/page_classification/tools/crawl_tool.py:92-124 | One entry: skipped when too deep or not allowed, recorded when unseen, expanded when its fetch returns 200, with fetch failures swallowed. The new seen set, records and queue are exactly `Visit` of the old ones; the invariant is kept and the queue's weight decreases |
| Crawler.GuardCountsRecordsTwice | src/page_classification/tools/crawl_tool.py:89 | With every record DISCOVERED, the loop guard is `2 * len(records) < max_pages` |
| Crawler.VisitBatch | src/page_classification/tools/crawl_tool.py:90-124 | A batch computes exactly `VisitAll`, `Visit` entry by entry in order. It keeps the invariant, only appends records (at most one per entry), and lowers the total weight by at least the batch size |
| Crawler.VisitWeighsLess | src/page_classification/tools/crawl_tool.py:108-122 | Visiting one entry adds links that weigh less than the entry, and every queued depth stays non-negative |
| Crawler.StepWeighsLess | src/page_classification/tools/crawl_tool.py:89-91 | One round of the `while` loop (`Step`: a batch of `max_pages - len(records)` entries cut off the front, then visited) leaves a queue of smaller weight, so the loop terminates |
| Crawler.StepIs | src/page_classification/tools/crawl_tool.py:90-91 | A step visits exactly the first `max_pages - len(records)` entries and keeps the rest of the queue behind what they add |
| Crawler.WalkUnfolds | src/page_classification/tools/crawl_tool.py:89-124 | While the guard holds, the walk is the walk from the next step's state |
| Crawler.WalkEnds | src/page_classification/tools/crawl_tool.py:89 | Once the queue is empty or the guard fails, the walk leaves the state as it is |
| Crawler.WalkStops | src/page_classification/tools/crawl_tool.py:89 | The walk stops only when the queue is empty or the guard `len(records) + discovered >= max_pages` holds |
| Crawler.CrawlLinks | src/page_classification/tools/crawl_tool.py:88-124 | The loop terminates and its records are exactly those of `Walk`, the batch-by-batch walk. They extend the sitemap ones, are valid, have distinct URLs with sitemap records first, and exceed max_pages only when nothing was added |
| Crawler.CrawlRound | src/page_classification/tools/crawl_tool.py:89-124 | One round of the loop computes exactly the walk's next step: the walk from the new state equals the walk from the old, the invariant is kept, records are only appended and stay within max_pages, and the queue's weight falls |
| Crawler.StartWalkInv | src/page_classification/tools/crawl_tool.py:53-87 | When the walk starts, every distinct seed is queued at depth 0 and what is seen is the seeds and the sitemap records, so the breadth-first invariant holds |
| Crawler.VisitKeepsWalkInv | src/page_classification/tools/crawl_tool.py:92-124 | Visiting the head of the pending entries keeps them in breadth-first order, keeps the seen set to the seeds, the sitemap finds and the visited URLs, and leaves every followed link of a visited page visited or pending |
| Crawler.WalkKeepsWalkInv | src/page_classification/tools/crawl_tool.py:88-124 | The whole walk keeps that invariant |
| Crawler.ReachedIsVisited | src/page_classification/tools/crawl_tool.py:88-124 | Once nothing is pending, every URL reached within n <= max_depth hops of an allowed seed, through 200 pages and allowed link targets, is a sitemap find or was visited at depth n or less |
| Crawler.WalkReachesAll | src/page_classification/tools/crawl_tool.py:88-124 | A walk that ends with an empty queue has recorded every URL within max_depth hops of an allowed seed that is not a seed |
| Crawler.WalkTail | src/page_classification/tools/crawl_tool.py:89-124 | A walk that ends with fewer than half of max_pages records ended on an empty queue, so it recorded everything it reaches |
| Crawler.SeedLinkRecorded | src/page_classification/tools/crawl_tool.py:108-124 | With max_depth at least 1, an allowed non-seed target linked from an allowed seed's 200 page is recorded unless half of max_pages records were already collected; either way the crawl records something |
| Crawler.DedupSpec | src/page_classification/tools/crawl_tool.py:127-131 | The first-wins deduplication keeps distinct URLs, loses no URL and invents no record |
| Crawler.DedupOfDistinct | src/page_classification/tools/crawl_tool.py:127-131 | Records that are already distinct come out unchanged |
| Crawler.DedupByUrl | src/page_classification/tools/crawl_tool.py:127-130 | The `by_url` loop computes that deduplication |
| Crawler.CrawlTool | src/page_classification/tools/crawl_tool.py:32-131 | With the corrected normaliser: no seeds give no records. Otherwise there are at most max_pages records, with distinct URLs and sitemap records first. Each is DISCOVERED and allowed, within max_depth and not a seed; it came from a seed's sitemap at depth 0 or from a link of a fetched page. Every allowed, non-seed `<loc>` of the seeds' well-formed sitemaps is recorded when there are at most max_pages of them; otherwise the records are max_pages of those `<loc>`s and nothing else. With fewer than half of max_pages records, every URL within max_depth hops of an allowed seed is a seed or recorded |
| Crawler.CrawlToolAsWritten | src/page_classification/tools/crawl_tool.py:14-131 | The same guarantees for the crawl that normalises with `normalize_url` as written |
| Crawler.CrawlWith | src/page_classification/tools/crawl_tool.py:32-131 | The same guarantees for a crawl with any normaliser |
| Crawler.CrawlIn | src/page_classification/tools/crawl_tool.py:53-131 | From non-empty seeds, the crawl's records satisfy everything stated for `CrawlTool` in the scope it is given |
| Crawler.CrawlInFacts | src/page_classification/tools/crawl_tool.py:127-131 | The first max_pages of the walk's records: every sitemap find when they fit, only sitemap finds when they do not, and the reach guarantee when the walk stopped short |
| Crawler.CutKeepsFinds | src/page_classification/tools/crawl_tool.py:131 | The `[: max_pages]` cut of records that begin with the sitemap records keeps every sitemap find when they fit, keeps only sitemap finds otherwise, and keeps at least min(finds, max_pages) records |
| Crawler.FoundAreSitemapFinds | src/page_classification/tools/crawl_tool.py:60-85 | The sitemap phase records exactly the normalised, allowed, non-seed `<loc>`s of the seeds' well-formed sitemaps |
| Agent.NeedsRender | src/page_classification/agent/mcp_agent.py:154-159 | A render is needed iff it is forced, the HTML is shorter than the minimum, or some SPA marker occurs in it |
| Agent.AfterRender | src/page_classification/agent/mcp_agent.py:151-165 | The fetch mode is render iff a render was needed and came back without error and with HTML, and the render then supplies the HTML and final URL. Otherwise the fetched page goes on untouched |
| Agent.ForcedRenderIgnoresContent | src/page_classification/agent/mcp_agent.py:155-159 | Under a forced render the page's content does not affect the decision |
| Agent.StoredPassesValidation | src/page_classification/agent/mcp_agent.py:184-206 | Every stored record would pass validation, whatever its missing signals were |
| Agent.FixedIsOk | src/page_classification/agent/mcp_agent.py:184-187 | A classification with non-empty allowed labels, OTHER only alone and confidence in range is review-flagged as rules 4 and 5 require once fixed if invalid |
| Agent.BuildStored | src/page_classification/agent/mcp_agent.py:191-206 | A record built from a classification that meets the stored-record guarantees (allowed labels, OTHER alone, confidence in range, review flag where rules 4 and 5 require it) meets them too |
| Agent.PageOutcome | src/page_classification/agent/mcp_agent.py:151-206 | The page yields a record iff its package (after the render policy) is valid and the classifier does not raise. The record carries the classification fixed only if invalid, passes validation, and has the record's URL, the rendered final URL and mode, the status, the hash, the versions and the clock |
| Agent.UrlOutcome | src/page_classification/agent/mcp_agent.py:116-140 | A closed gate (terminal state, fetch error, status other than 200) gives nothing; a record given has the record's URL, status 200, passes validation and carries the clock |
| Agent.Swept | src/page_classification/agent/mcp_agent.py:99-111 | The sweep keeps at most one record per leftover: every leftover's record is kept, every kept record is some leftover's, and distinct leftovers give distinct URLs |
| Agent.KeptDistinct | src/page_classification/agent/mcp_agent.py:101-107 | Appending the records of outcomes with distinct URLs gives distinct URLs |
| Agent.StoreAllEntries | src/page_classification/tools/storage_tool.py:53-65 | A file output holds the dumps of the stored records in order, after what it held before |
| Agent.StoreAllRows | src/page_classification/tools/storage_tool.py:101-125 | A database output holds the stored records upserted in order on their URLs |
| Agent.Unprocessed | src/page_classification/agent/mcp_agent.py:98 | The leftovers are exactly the records whose URL was not processed |
| Agent.UnprocessedDistinct | src/page_classification/agent/mcp_agent.py:98 | Filtering keeps the URLs distinct |
| Agent.BindCrawlArguments | src/page_classification/tools/crawl_tool.py:32-35 | Binding keyword arguments succeeds iff each is `config` or `start_urls` |
| Agent.CallbackRejected | src/page_classification/agent/mcp_agent.py:94 | The keyword `process_callback` raises `TypeError` |
| Agent.MCPAgent.constructor | src/page_classification/agent/mcp_agent.py:34-37 | The agent keeps the config, takes the model version from the LLM config, and starts with nothing stored or processed |
| Agent.MCPAgent.ClassifyAndFix | src/page_classification/agent/mcp_agent.py:180-187 | The step fails iff the classifier raises, with the classifier's error; otherwise it returns the classification fixed only when invalid, which has non-empty allowed labels, OTHER only alone, confidence in [0,1], and the review flag set where rules 4 and 5 require it |
| Agent.MCPAgent.StoreResult | src/page_classification/agent/mcp_agent.py:212-221 | The store call writes one record with the configured writer, or raises and leaves the output as it was |
| Agent.MCPAgent.Extract | src/page_classification/agent/mcp_agent.py:168-176 | Extraction fails iff the excerpt exceeds the package limit; on success the package has the record's URL and the hash of the HTML it was given |
| Agent.MCPAgent.ProcessUrlWithHtml | src/page_classification/agent/mcp_agent.py:142-223 | The method succeeds iff `PageOutcome` gives a record and its write does not fail, and then returns and stores exactly that record: the record's URL, the rendered page's final URL and mode, the fetched status, the versions, the clock, the page hash and the fixed classification, passing validation. An oversized excerpt or a failed write raises |
| Agent.MCPAgent.BuildPage | src/page_classification/agent/mcp_agent.py:151-206 | The render, extract, classify-and-fix and build steps compute exactly `PageOutcome` |
| Agent.MCPAgent.ProcessUrl | src/page_classification/agent/mcp_agent.py:116-140 | A terminal record, a fetch error or a status other than 200 gives None and stores nothing. Past that gate the result is `UrlOutcome`: the fetched page's record, stored, or an exception exactly when there is none |
| Agent.MCPAgent.ProcessDuringCrawl | src/page_classification/agent/mcp_agent.py:63-91 | A processed URL is skipped uncounted; any other call is counted and returns the outcome of the page under a fresh depth-0 record from "crawl". On success the record is kept, the URL marked processed and the output extended; an exception gives None and changes nothing but the count |
| Agent.MCPAgent.TryProcessUrlWithHtml | src/page_classification/agent/mcp_agent.py:72-91 | The callback's `try` gives `HtmlOutcome`: the record stored, with the record's URL and passing validation, or None with the output unchanged |
| Agent.MCPAgent.RunAsWritten | src/page_classification/agent/mcp_agent.py:46-94 | `run` as written raises the `DatabaseError` of `init_storage` when the `.db` file is not a database, leaving it unchanged; otherwise it clears storage and then always fails with the `TypeError` for `process_callback` |
| Agent.MCPAgent.Sweep | src/page_classification/agent/mcp_agent.py:99-111 | The sweep's records are exactly `Swept` of the leftovers, in order, valid and stamped with the clock, and the output holds exactly those records |
| Agent.MCPAgent.TryProcessUrl | src/page_classification/agent/mcp_agent.py:102-111 | The result is `UrlOutcome` of the record: an exception is swallowed as no result and no change to the output |
| Agent.MCPAgent.SweepOne | src/page_classification/agent/mcp_agent.py:101-111 | One leftover appends its outcome's record, if any, to what is kept and to the output |
| Agent.MCPAgent.Run | src/page_classification/agent/mcp_agent.py:46-114 | With the crawl called as `crawl_tool(config)`: `run` raises exactly when `init_storage` does, leaving the file. Otherwise no seeds give no results, there are at most max_pages results with distinct URLs, all valid, and they are exactly `Swept` of some crawl result satisfying the crawl's contract. The output is the cleared file with exactly those records stored |
| Agent.MCPAgent.CrawlAndSweep | src/page_classification/agent/mcp_agent.py:94-114 | After the clearing, the results are `Swept` of the crawled records, at most max_pages with distinct URLs, and exactly what the output holds |
| Agent.CrawlBounds | src/page_classification/agent/mcp_agent.py:94-98 | The leftovers of a crawl are no more than max_pages, and none without seeds |

## Left out

- Network, browser, HTML parsing, SHA-256, `json.loads`, `str()` and `float()` of JSON values, and the environment variable lookup are oracles: `fetch_tool.py` and `render_tool.py` are not part of this model.
- The tenacity retry around the fetch is not modelled: `fetch_tool` reports failures in its result instead of raising, so the retry never fires, and one fetch is modelled.
- `RetryPolicy` and `rate_per_second` are modelled only as bounded config fields, because nothing reads them.
- Logging, `mkdir`, real file and SQLite I/O, JSON encoding and `datetime.utcnow()` are left out. The output file is an abstract value, and the clock is one `now` value per call.
- The dead `isinstance(..., datetime)` branches at storage_tool.py:50 and :99 are not modelled, because `model_dump(mode="json")` already gives strings.
- A JSON array file that holds something other than an array is not modelled: the JSON array writer reads a missing file as empty, and any existing file as the entries it holds.
- `_load_term_dictionaries` (file I/O) is left out; the dictionaries are a parameter of the extraction oracle.
- `_load_ruleset`, the prompt templates and the OpenAI call are left out; the LLM answer is an oracle of the LLM view of the package.
- The ruleset mtime used as ruleset version is left out; the version is a constructor argument.
- The ruleset regex scan in `validate_tool` is left out; its rule IDs are a parameter that can never affect the outcome.
- `_compute_readability_proxy` and the acronym ratio are left out because they are floating point, and `numbers_ratio` is a real.
- `list(set(schema_types))` has hash-dependent order in Python; it is modelled as the first-occurrence order of the distinct types.
- `url_normalization_rules` is read but never consulted by `normalize_url`, so it is not modelled.
- UrlParsing.UrlSplit: the checks by which `urlsplit` raises are not modelled: unbalanced or invalid `[`/`]` in the network location, and network-location characters that NFKC normalisation turns into separators (`_checknetloc`). `urlsplit` does not check the port, so neither does the model.
- Crawler.CrawlTool: the crawl normalises seeds, `<loc>`s and links with the corrected `Frontier.NormalizeUrl`, as the Findings describe, and `Agent.MCPAgent.Run` uses it. Where the two differ the recorded URL differs from the source's: `http://a/b;x` is recorded as `http://a/b;x` where the source records `http://a/b`, and `http://a/p?/` as `http://a/p?/` where the source records `http://a/p?`. The crawl as written is `Crawler.CrawlToolAsWritten`, with the same guarantees.
- Crawler.CrawlTool: the reach guarantee covers walks that stop with fewer than half of max_pages records. A walk cut short by the guard records some breadth-first prefix of what it reaches, and the model does not say which.
- Storage.Store.StorageTool: a failed write is modelled as changing nothing. For the JSON array format the source opens the file with `"w"` before dumping, so a failure during the dump leaves the file truncated; the model does not capture that.
- Agent.MCPAgent.ProcessUrlWithHtml: its "a failed write leaves the output as it was" rests on the atomic write of `Storage.Store.StorageTool` above; the store on a `.db` path uses the corrected `Storage.Store.StorageToolSqlite`, where the source always raises `KeyError` (see Findings).
- Agent.MCPAgent.StoreResult: a `.db` path goes to the corrected `Storage.Store.StorageToolSqlite`, so the store succeeds there, where the source's `storage_tool_sqlite` always raises `KeyError: 'label'`.
- Agent.MCPAgent.ProcessUrl: through `ProcessUrlWithHtml`, a record is stored on a `.db` path with the corrected SQLite writer; the source raises `KeyError` there.
- Agent.MCPAgent.ProcessDuringCrawl: the same corrected SQLite writer; in the source every `.db` store raises and the call returns None.
- Agent.MCPAgent.TryProcessUrl: the same corrected SQLite writer; in the source every `.db` store raises and the sweep skips the record.
- Agent.MCPAgent.Sweep: the same corrected SQLite writer; in the source a `.db` output keeps no record.
- Text.Upper: case mapping covers ASCII and the basic Cyrillic block (U+0400..U+045F) only, not the full Unicode tables of `str.upper`/`str.lower`. For example `"professıonal".upper()` is `"PROFESSIONAL"` in Python, an allowed label, while the model keeps the dotless `ı` and the label is coerced to OTHER; the same gap reaches `Text.Lower` and through it the keyword counts, `Extraction.IsDocLike` and `Extraction.HasApiKeywords`.
- Extraction.DigitCount: counts the ASCII digits only, where `str.isdigit` also accepts other Unicode digits (superscripts, Arabic-Indic digits and others), so `Extraction.NumbersRatio` can be lower than the source's.
- `process_during_crawl` is never invoked, since the crawl call raises. It is modelled as a separate entry point (`Agent.MCPAgent.ProcessDuringCrawl`), and `Agent.MCPAgent.Run` sweeps every crawled record.
- The crawler's fetches and the agent's fetches use separate oracles (`Env.web` and `Env.fetch`).
- `Config.from_yaml`, `load_config`, the CLI entry points and the export script are left out.
- Agent.MCPAgent.Run: it uses the corrected SQLite writer (`Storage.Store.StorageToolSqlite`) and the corrected crawl call, as the Findings describe; the as-written run is `Agent.MCPAgent.RunAsWritten`.

## Findings

| source | as written | input that shows it | evidently intended | confidence | as-written member | corrected member |
|---|---|---|---|---|---|---|
| src/page_classification/tools/crawl_tool.py:26-29 | `rstrip("/")` on the whole assembled URL also eats slashes that end the query, and `urlparse` drops `;params` | `http://a/b?/` gives `http://a/b?`, which then gives `http://a/b` | a normalisation that is idempotent and keeps the query and the parameters: strip slashes from the path only when there is no query | not executed | Frontier.AsWrittenNotIdempotent | Frontier.NormalizeUrlIdempotent |
| src/page_classification/tools/storage_tool.py:113 | `data["label"]` indexes the `model_dump` of the record, which has no `label` key because `label` is a property | any StoredClassification written to a `.db` path | store the `label` property in the `label` column | not executed | Storage.SqliteRowAsWrittenAlwaysFails | Storage.SqliteRowIsParams |
| src/page_classification/agent/mcp_agent.py:94 | `crawl_tool(self.config, process_callback=...)` passes a keyword that `crawl_tool` does not declare (crawl_tool.py:32-35) | any call of `run` | crawl, then sweep the records not processed during the crawl | not executed | Agent.MCPAgent.RunAsWritten | Agent.MCPAgent.Run |
