/** Turning an LLM answer into a classification: the fixed fallback results,
    markdown-fence stripping, the brace-counting object extraction, label
    coercion and the clamping and coercion of the other fields. The LLM call
    and `json.loads` are oracles. */
module LlmClassification {
  import opened Wrappers
  import opened Text
  import opened Classifications

  /** The result returned when the LLM cannot be used or its answer cannot
      be read: OTHER with no confidence, flagged for review. */
  function Fallback(rationale: string, signal: string): (r: ClassificationResult)
    ensures r.labels == ["OTHER"] && r.confidence == 0.0 && r.needsReview
    ensures r.matchedRules == [] && r.evidence == [] && r.missingSignals == [signal]
    ensures Label(r.labels) == "OTHER"
  {
    ClassificationResult(["OTHER"], 0.0, [], rationale, [], true, [signal])
  }

  const NoApiKey := Fallback("No LLM API key configured. Manual review required.", "llm_unavailable")
  const EmptyResponse := Fallback("Empty response from LLM", "empty_response")

  function LlmError(errorType: string, errorMsg: string): ClassificationResult {
    Fallback("LLM error (" + errorType + "): " + errorMsg, "llm_error")
  }

  function ParseError(message: string): ClassificationResult {
    Fallback("Invalid JSON from LLM: " + Take(message, 100), "parse_error")
  }

  /** Every fallback is a well-formed result that validation accepts once the
      review flag it carries is taken into account. */
  lemma FallbacksAreWellFormed(errorType: string, errorMsg: string, message: string)
    ensures forall r :: r in [NoApiKey, EmptyResponse, LlmError(errorType, errorMsg), ParseError(message)] ==>
      r.labels == ["OTHER"] && r.confidence == 0.0 && r.needsReview && r.matchedRules == []
      && |r.missingSignals| == 1 && Label(r.labels) in AllowedLabels
    ensures NoApiKey.missingSignals == ["llm_unavailable"] && EmptyResponse.missingSignals == ["empty_response"]
    ensures LlmError(errorType, errorMsg).missingSignals == ["llm_error"]
    ensures ParseError(message).missingSignals == ["parse_error"]
  {
  }

  /** Line 199: an opening fence drops the first line, or the three backticks
      when there is no newline. */
  function DropOpeningFence(s: string): (r: string)
    ensures |r| <= |s|
    ensures !StartsWith(s, "```") ==> r == s
    ensures StartsWith(s, "```") && '\n' !in s ==> r == s[3..]
    ensures StartsWith(s, "```") && '\n' in s ==>
      exists n :: 0 <= n < |s| && s[n] == '\n' && '\n' !in s[..n] && r == s[n + 1..]
  {
    if StartsWith(s, "```") then
      var nl := Find(s, '\n', 0);
      if nl >= 0 then
        assert '\n' !in s[..nl] by {
          forall i | 0 <= i < nl ensures s[..nl][i] != '\n' { }
        }
        s[nl + 1..]
      else
        assert '\n' !in s by {
          forall i | 0 <= i < |s| ensures s[i] != '\n' { }
        }
        s[3..]
    else s
  }

  /** Line 201: a closing fence is cut off at its last occurrence, which for a
      string ending in the fence is its last three characters. */
  function DropClosingFence(s: string): (r: string)
    ensures |r| <= |s|
    ensures !EndsWith(s, "```") ==> r == s
    ensures EndsWith(s, "```") ==> |r| <= |s| - 3 && r == Strip(s[..|s| - 3])
  {
    if EndsWith(s, "```") then Strip(s[..|s| - 3]) else s
  }

  /** Lines 195-201: strip, drop an opening fence line, drop a closing fence.
      An answer with no fence at either end is only stripped. */
  function StripFences(content: string): (raw: string)
    ensures |raw| <= |content|
    ensures !StartsWith(Strip(content), "```") && !EndsWith(Strip(content), "```") ==> raw == Strip(content)
  {
    DropClosingFence(DropOpeningFence(Strip(content)))
  }

  lemma StripKeeps(s: string)
    requires |s| > 0 && !IsSpace(s[0]) && !IsSpace(s[|s| - 1])
    ensures Strip(s) == s
  {
  }

  /** A fenced answer `` ```tag\n<body>``` `` gives back the stripped body. */
  lemma {:induction false} StripFencesOfFenced(tag: string, body: string)
    requires '\n' !in tag
    ensures StripFences("```" + tag + "\n" + body + "```") == Strip(body)
  {
    var c := "```" + tag + "\n" + body + "```";
    StripKeeps(c);
    assert StartsWith(c, "```");
    var nl := Find(c, '\n', 0);
    assert c[3 + |tag|] == '\n';
    assert nl == 3 + |tag|;
    var unfenced := c[nl + 1..];
    assert unfenced == body + "```";
    assert DropOpeningFence(c) == unfenced;
    assert EndsWith(unfenced, "```");
    assert unfenced[..|unfenced| - 3] == body;
  }

  /** An opening fence line without a closing fence: everything after the
      first line is kept as it is. */
  lemma {:induction false} StripFencesOfOpenOnly(content: string, tag: string, body: string)
    requires '\n' !in tag && !EndsWith(body, "```")
    requires Strip(content) == "```" + tag + "\n" + body
    ensures StripFences(content) == body
  {
    var c := Strip(content);
    assert StartsWith(c, "```");
    assert c[3 + |tag|] == '\n';
    assert Find(c, '\n', 0) == 3 + |tag|;
    assert c[3 + |tag| + 1..] == body;
  }

  /** A one-line answer opening with a fence loses only the three backticks,
      and the closing fence when there is one (line 199's `raw[3:]`). */
  lemma {:induction false} StripFencesOfOneLine(content: string, body: string)
    requires '\n' !in body
    ensures Strip(content) == "```" + body + "```" ==> StripFences(content) == Strip(body)
    ensures Strip(content) == "```" + body && !EndsWith(body, "```") ==> StripFences(content) == body
  {
    var c := Strip(content);
    if c == "```" + body + "```" {
      OneLineOpening(c, body + "```");
      assert c[3..] == body + "```";
      assert (body + "```")[..|body|] == body;
    } else if c == "```" + body {
      OneLineOpening(c, body);
      assert c[3..] == body;
    }
  }

  /** An opening fence with no newline after it loses only the backticks. */
  lemma OneLineOpening(c: string, rest: string)
    requires c == "```" + rest && '\n' !in rest
    ensures DropOpeningFence(c) == rest
  {
    assert StartsWith(c, "```");
    assert forall i :: 0 <= i < |c| ==> c[i] == '`' || c[i] == rest[i - 3];
    assert '\n' !in c;
    assert c[3..] == rest;
  }

  /** The brace count of `s[start..end]`: `{` adds one, `}` takes one away. */
  function DepthUpTo(s: string, start: nat, end: nat): int
    requires start <= end <= |s|
    decreases end - start
  {
    if end == start then 0
    else DepthUpTo(s, start, end - 1) + (if s[end - 1] == '{' then 1 else if s[end - 1] == '}' then -1 else 0)
  }

  function Depth(s: string): int {
    DepthUpTo(s, 0, |s|)
  }

  lemma {:induction false} DepthFrom(s: string, start: nat, end: nat)
    requires start <= end <= |s|
    ensures DepthUpTo(s, start, end) == DepthUpTo(s[start..], 0, end - start)
    decreases end - start
  {
    if end > start {
      DepthFrom(s, start, end - 1);
      assert s[start..][end - start - 1] == s[end - 1];
    }
  }

  /** The count over a range is the count of the slice. */
  lemma DepthShift(s: string, start: nat, end: nat)
    requires start <= end <= |s|
    ensures DepthUpTo(s, start, end) == Depth(s[start..end])
  {
    DepthFrom(s, start, end);
    assert s[start..end][..end - start] == s[start..][..end - start];
    DepthSameText(s[start..end], s[start..], end - start);
  }

  lemma {:induction false} DepthSameText(t: string, u: string, k: nat)
    requires k <= |t| && k <= |u| && t[..k] == u[..k]
    ensures DepthUpTo(t, 0, k) == DepthUpTo(u, 0, k)
  {
    if k > 0 {
      assert t[..k - 1] == u[..k - 1] by {
        assert t[..k - 1] == t[..k][..k - 1];
        assert u[..k - 1] == u[..k][..k - 1];
      }
      assert t[k - 1] == t[..k][k - 1] == u[..k][k - 1] == u[k - 1];
      DepthSameText(t, u, k - 1);
    }
  }

  /** The brace count of `raw[start..end]` first returns to 0 at `end`. */
  predicate ClosesAt(raw: string, start: nat, end: nat)
    requires start < end <= |raw|
  {
    DepthUpTo(raw, start, end) == 0 && forall k :: start < k < end ==> DepthUpTo(raw, start, k) > 0
  }

  /** The first end at or after `k` where the brace count from `start` is 0. */
  function FirstClose(raw: string, start: nat, k: nat): (e: Option<nat>)
    requires start < k <= |raw| + 1
    decreases |raw| + 1 - k
    ensures e.Some? ==> k <= e.value <= |raw| && DepthUpTo(raw, start, e.value) == 0
    ensures e.Some? ==> forall j :: k <= j < e.value ==> DepthUpTo(raw, start, j) != 0
    ensures e.None? ==> forall j :: k <= j <= |raw| ==> DepthUpTo(raw, start, j) != 0
  {
    if k > |raw| then None
    else if DepthUpTo(raw, start, k) == 0 then Some(k)
    else FirstClose(raw, start, k + 1)
  }

  /** The count is positive up to the first place it is 0: it starts at 1
      after the opening brace and moves by one at a time. */
  lemma {:induction false} PositiveBeforeClose(raw: string, start: nat, k: nat)
    requires start < k <= |raw| && raw[start] == '{'
    requires forall j :: start < j <= k ==> DepthUpTo(raw, start, j) != 0
    ensures DepthUpTo(raw, start, k) > 0
    decreases k - start
  {
    if k > start + 1 {
      PositiveBeforeClose(raw, start, k - 1);
    }
  }

  /** Lines 205-215: from the first `{`, the slice up to where the brace
      count returns to 0; the text as it is when there is no `{` or the
      count never returns to 0. */
  function ExtractedObject(raw: string): (r: string)
    ensures var start := Find(raw, '{', 0);
      (start >= 0 && exists end :: start < end <= |raw| && ClosesAt(raw, start, end) && r == raw[start..end])
      || (r == raw && (start < 0 || forall end :: start < end <= |raw| ==> DepthUpTo(raw, start, end) > 0))
  {
    var start := Find(raw, '{', 0);
    if start < 0 then raw
    else
      match FirstClose(raw, start, start + 1)
      case Some(e) =>
        assert ClosesAt(raw, start, e) by {
          forall k | start < k < e ensures DepthUpTo(raw, start, k) > 0 {
            PositiveBeforeClose(raw, start, k);
          }
        }
        raw[start..e]
      case None =>
        assert forall end :: start < end <= |raw| ==> DepthUpTo(raw, start, end) > 0 by {
          forall end | start < end <= |raw| ensures DepthUpTo(raw, start, end) > 0 {
            PositiveBeforeClose(raw, start, end);
          }
        }
        raw
  }

  /** The loop of lines 205-215, computing the slice that ExtractedObject
      describes. */
  method ExtractJsonObject(raw: string) returns (r: string)
    ensures r == ExtractedObject(raw)
  {
    r := raw;
    var start := Find(raw, '{', 0);
    if start >= 0 {
      var count := 0;
      var i := start;
      while i < |raw|
        invariant start <= i <= |raw|
        invariant count == DepthUpTo(raw, start, i)
        invariant i > start ==> count > 0
        invariant FirstClose(raw, start, start + 1) == FirstClose(raw, start, i + 1)
        invariant r == raw
      {
        if raw[i] == '{' {
          count := count + 1;
        } else if raw[i] == '}' {
          count := count - 1;
          if count == 0 {
            r := raw[start..i + 1];
            return;
          }
        }
        assert i == start ==> raw[i] == '{';
        assert DepthUpTo(raw, start, i + 1) == count > 0;
        i := i + 1;
      }
    }
  }

  /** The slice the extraction keeps is a balanced object: it opens with `{`,
      closes with `}`, and its count is positive on every proper prefix. */
  lemma {:induction false} ClosedSliceIsObject(raw: string, start: nat, end: nat)
    requires start < end <= |raw| && raw[start] == '{'
    requires ClosesAt(raw, start, end)
    ensures var obj := raw[start..end];
      obj[0] == '{' && obj[|obj| - 1] == '}' && Depth(obj) == 0
      && forall k :: 0 < k < |obj| ==> Depth(obj[..k]) > 0
  {
    var obj := raw[start..end];
    DepthShift(raw, start, end);
    if end - 1 > start {
      assert DepthUpTo(raw, start, end - 1) > 0;
    }
    assert raw[end - 1] == '}';
    forall k | 0 < k < |obj| ensures Depth(obj[..k]) > 0 {
      DepthShift(raw, start, start + k);
      assert obj[..k] == raw[start..start + k];
    }
  }

  /** A parsed JSON value. Objects keep their members in text order. */
  datatype Json =
    | JNull
    | JBool(b: bool)
    | JNum(n: real)
    | JStr(s: string)
    | JArr(items: seq<Json>)
    | JObj(members: seq<(string, Json)>)

  /** `dict.get`: the last member with the key wins, as in `json.loads`. */
  function Get(members: seq<(string, Json)>, key: string): (v: Option<Json>)
    ensures v.Some? <==> exists i :: 0 <= i < |members| && members[i].0 == key
    ensures v.Some? ==> exists i :: 0 <= i < |members| && members[i] == (key, v.value)
  {
    if |members| == 0 then None
    else if members[|members| - 1].0 == key then Some(members[|members| - 1].1)
    else
      var v := Get(members[..|members| - 1], key);
      assert forall i :: 0 <= i < |members| - 1 ==> members[..|members| - 1][i] == members[i];
      v
  }

  /** The key of every member, in text order, repeats included. */
  function MemberKeys(members: seq<(string, Json)>): (ks: seq<string>)
    ensures |ks| == |members|
    ensures forall i :: 0 <= i < |members| ==> ks[i] == members[i].0
  {
    seq(|members|, i requires 0 <= i < |members| => members[i].0)
  }

  /** The keys of the dictionary `json.loads` builds: each key once, at its
      first occurrence. */
  function DictKeys(members: seq<(string, Json)>): (ks: seq<string>)
    ensures forall k :: k in ks <==> exists i :: 0 <= i < |members| && members[i].0 == k
    ensures forall i, j :: 0 <= i < j < |ks| ==> ks[i] != ks[j]
    ensures |ks| <= |members|
  {
    var all := MemberKeys(members);
    assert forall k :: k in all <==> exists i :: 0 <= i < |members| && members[i].0 == k by {
      forall k ensures k in all <==> exists i :: 0 <= i < |members| && members[i].0 == k {
        if k in all {
          var i :| 0 <= i < |all| && all[i] == k;
          assert members[i].0 == k;
        }
      }
    }
    Distinct(all)
  }

  /** Each key as a JSON string. */
  function KeyItems(ks: seq<string>): (items: seq<Json>)
    ensures |items| == |ks|
    ensures forall i :: 0 <= i < |ks| ==> items[i] == JStr(ks[i])
  {
    seq(|ks|, i requires 0 <= i < |ks| => JStr(ks[i]))
  }

  /** Python truthiness. */
  predicate Truthy(j: Json) {
    match j
    case JNull => false
    case JBool(b) => b
    case JNum(n) => n != 0.0
    case JStr(s) => s != ""
    case JArr(items) => items != []
    case JObj(members) => members != []
  }

  /** `str(x)`: a string is itself; other values by their printed form. */
  function StrOf(j: Json, repr: Json -> string): string {
    if j.JStr? then j.s else repr(j)
  }

  /** Iterating a value: a string yields its characters, a list its items,
      a dictionary its keys; anything else raises TypeError. */
  function Elements(j: Json): (r: Result<seq<Json>>)
    ensures r.Ok? <==> j.JStr? || j.JArr? || j.JObj?
    ensures j.JArr? ==> r == Ok(j.items)
    ensures j.JStr? ==> r.Ok? && |r.value| == |j.s| && forall i :: 0 <= i < |j.s| ==> r.value[i] == JStr([j.s[i]])
    ensures j.JObj? ==> r == Ok(KeyItems(DictKeys(j.members)))
  {
    match j
    case JStr(s) => Ok(seq(|s|, i requires 0 <= i < |s| => JStr([s[i]])))
    case JArr(items) => Ok(items)
    case JObj(members) => Ok(KeyItems(DictKeys(members)))
    case _ => Err("TypeError: object is not iterable")
  }

  /** `data.get("labels", data.get("label", "OTHER"))`. */
  function LabelsRaw(members: seq<(string, Json)>): (v: Json)
    ensures Get(members, "labels").Some? ==> v == Get(members, "labels").value
    ensures Get(members, "labels").None? && Get(members, "label").Some? ==> v == Get(members, "label").value
    ensures Get(members, "labels").None? && Get(members, "label").None? ==> v == JStr("OTHER")
  {
    Get(members, "labels").GetOr(Get(members, "label").GetOr(JStr("OTHER")))
  }

  /** The truthy entries of `items`, each as `str(l).upper().strip()`. */
  function CleanLabels(items: seq<Json>, repr: Json -> string): (ls: seq<string>)
    ensures |ls| <= |items|
  {
    if |items| == 0 then []
    else
      var l := items[|items| - 1];
      CleanLabels(items[..|items| - 1], repr) + (if Truthy(l) then [Strip(Upper(StrOf(l, repr)))] else [])
  }

  /** A single string stands for a one-element list; lists and dictionaries
      are iterated; anything else raises TypeError. */
  function LabelItems(raw: Json): (r: Result<seq<Json>>)
    ensures raw.JStr? ==> r == Ok([raw])
    ensures r.Err? <==> !(raw.JStr? || raw.JArr? || raw.JObj?)
  {
    if raw.JStr? then Ok([raw]) else Elements(raw)
  }

  lemma CleanSingle(l: Json, repr: Json -> string)
    ensures CleanLabels([l], repr) == if Truthy(l) then [Strip(Upper(StrOf(l, repr)))] else []
  {
    assert [l][..0] == [];
  }

  /** A label is kept exactly when it is the cleaned form of a truthy entry. */
  lemma {:induction false} CleanLabelsMembers(items: seq<Json>, repr: Json -> string, x: string)
    ensures x in CleanLabels(items, repr) <==>
            exists i :: 0 <= i < |items| && Truthy(items[i]) && x == Strip(Upper(StrOf(items[i], repr)))
    decreases |items|
  {
    if |items| > 0 {
      var init := items[..|items| - 1];
      CleanLabelsMembers(init, repr, x);
      if x in CleanLabels(init, repr) {
        var i :| 0 <= i < |init| && Truthy(init[i]) && x == Strip(Upper(StrOf(init[i], repr)));
        assert items[i] == init[i];
      }
      if exists j :: 0 <= j < |items| && Truthy(items[j]) && x == Strip(Upper(StrOf(items[j], repr))) {
        var j :| 0 <= j < |items| && Truthy(items[j]) && x == Strip(Upper(StrOf(items[j], repr)));
        if j < |items| - 1 {
          assert init[j] == items[j];
        }
      }
    }
  }

  /** The labels of a dictionary: one per non-empty key, each key counted once. */
  lemma ObjectLabels(ks: seq<string>, repr: Json -> string)
    ensures |CleanLabels(KeyItems(ks), repr)| <= |ks|
    ensures forall x :: x in CleanLabels(KeyItems(ks), repr) <==> exists k :: k in ks && k != "" && x == Strip(Upper(k))
  {
    forall x ensures x in CleanLabels(KeyItems(ks), repr) <==> exists k :: k in ks && k != "" && x == Strip(Upper(k)) {
      CleanLabelsMembers(KeyItems(ks), repr, x);
      if exists k :: k in ks && k != "" && x == Strip(Upper(k)) {
        ObjectLabelOfKey(ks, repr, x);
      }
      if x in CleanLabels(KeyItems(ks), repr) {
        ObjectLabelHasKey(ks, repr, x);
      }
    }
  }

  lemma ObjectLabelOfKey(ks: seq<string>, repr: Json -> string, x: string)
    requires exists k :: k in ks && k != "" && x == Strip(Upper(k))
    ensures exists i :: 0 <= i < |KeyItems(ks)| && Truthy(KeyItems(ks)[i]) && x == Strip(Upper(StrOf(KeyItems(ks)[i], repr)))
  {
    var items := KeyItems(ks);
    var k :| k in ks && k != "" && x == Strip(Upper(k));
    var i :| 0 <= i < |ks| && ks[i] == k;
    assert items[i] == JStr(k);
    assert Truthy(items[i]) && StrOf(items[i], repr) == k;
    assert 0 <= i < |items| && Truthy(items[i]) && x == Strip(Upper(StrOf(items[i], repr)));
  }

  lemma ObjectLabelHasKey(ks: seq<string>, repr: Json -> string, x: string)
    requires exists i :: 0 <= i < |KeyItems(ks)| && Truthy(KeyItems(ks)[i]) && x == Strip(Upper(StrOf(KeyItems(ks)[i], repr)))
    ensures exists k :: k in ks && k != "" && x == Strip(Upper(k))
  {
    var items := KeyItems(ks);
    var i :| 0 <= i < |items| && Truthy(items[i]) && x == Strip(Upper(StrOf(items[i], repr)));
    assert ks[i] in ks;
  }

  /** Lines 234-237: a single string becomes a one-element list, a list is
      taken entry by entry and a dictionary key by key; falsy entries are
      dropped and the rest are upper-cased and stripped. */
  function RawLabels(members: seq<(string, Json)>, repr: Json -> string): (r: Result<seq<string>>)
    ensures var raw := LabelsRaw(members);
      (raw.JStr? && raw.s != "" ==> r == Ok([Strip(Upper(raw.s))]))
      && (raw.JStr? && raw.s == "" ==> r == Ok([]))
      && (raw.JArr? ==> r == Ok(CleanLabels(raw.items, repr)))
      && (r.Err? <==> !(raw.JStr? || raw.JArr? || raw.JObj?))
    ensures var raw := LabelsRaw(members);
      raw.JObj? ==> r.Ok? && |r.value| <= |DictKeys(raw.members)|
                    && forall x :: x in r.value <==> exists k :: k in DictKeys(raw.members) && k != "" && x == Strip(Upper(k))
  {
    var raw := LabelsRaw(members);
    match LabelItems(raw)
    case Ok(items) =>
      CleanSingle(raw, repr);
      if raw.JObj? then ObjectLabels(DictKeys(raw.members), repr); Ok(CleanLabels(items, repr))
      else Ok(CleanLabels(items, repr))
    case Err(e) => Err(e)
  }

  /** A key repeated in a `labels` dictionary, as in
      `{"labels": {"PROFESSIONAL": 1, "PROFESSIONAL": 2}}`, is one key of
      the dictionary and gives one label. */
  lemma RepeatedKeyLabelledOnce(k: string, a: Json, b: Json, repr: Json -> string)
    requires k != ""
    ensures RawLabels([("labels", JObj([(k, a), (k, b)]))], repr) == Ok([Strip(Upper(k))])
  {
    var ms := [(k, a), (k, b)];
    assert LabelsRaw([("labels", JObj(ms))]) == JObj(ms);
    assert MemberKeys(ms) == [k, k];
    assert [k, k][..1] == [k];
    assert [k][..0] == [];
    assert DictKeys(ms) == [k];
    assert KeyItems([k]) == [JStr(k)];
    CleanSingle(JStr(k), repr);
  }

  /** The allowed labels among `labels`, each upper-cased, in input order with
      duplicates kept. */
  function AllowedUpper(labels: seq<string>): (vs: seq<string>)
    ensures |vs| <= |labels|
    ensures forall i :: 0 <= i < |vs| ==> vs[i] in AllowedLabels
  {
    if |labels| == 0 then []
    else
      var l := Upper(labels[|labels| - 1]);
      AllowedUpper(labels[..|labels| - 1]) + (if l in AllowedLabels then [l] else [])
  }

  lemma {:induction false} AllowedUpperAppend(a: seq<string>, b: seq<string>)
    ensures AllowedUpper(a + b) == AllowedUpper(a) + AllowedUpper(b)
    decreases |b|
  {
    if |b| > 0 {
      var b' := b[..|b| - 1];
      assert (a + b)[..|a + b| - 1] == a + b';
      AllowedUpperAppend(a, b');
    } else {
      assert a + b == a;
    }
  }

  /** A label survives exactly when its upper-cased form is allowed. */
  lemma {:induction false} AllowedUpperMembers(labels: seq<string>, x: string)
    ensures x in AllowedUpper(labels) <==> x in AllowedLabels && exists i :: 0 <= i < |labels| && Upper(labels[i]) == x
  {
    if |labels| > 0 {
      var init := labels[..|labels| - 1];
      AllowedUpperMembers(init, x);
      if x in AllowedLabels && (exists i :: 0 <= i < |labels| && Upper(labels[i]) == x) {
        var i :| 0 <= i < |labels| && Upper(labels[i]) == x;
        if i < |labels| - 1 {
          assert init[i] == labels[i];
        }
      }
      if exists i :: 0 <= i < |init| && Upper(init[i]) == x {
        var i :| 0 <= i < |init| && Upper(init[i]) == x;
        assert labels[i] == init[i];
      }
    }
  }

  /** The labels the result carries: exactly OTHER when any allowed label is
      OTHER or none is allowed, the allowed labels in order otherwise. */
  function CoercedLabels(labels: seq<string>): (vs: seq<string>)
    ensures |vs| > 0
    ensures forall i :: 0 <= i < |vs| ==> vs[i] in AllowedLabels
    ensures "OTHER" in vs ==> vs == ["OTHER"]
  {
    var valid := AllowedUpper(labels);
    if "OTHER" in valid || |valid| == 0 then ["OTHER"] else valid
  }

  /** An OTHER anywhere among the labels wins over every other label. */
  lemma CoercedOtherWins(labels: seq<string>)
    ensures (exists i :: 0 <= i < |labels| && Upper(labels[i]) == "OTHER") ==> CoercedLabels(labels) == ["OTHER"]
  {
    AllowedUpperMembers(labels, "OTHER");
  }

  /** Labels none of which is allowed coerce to OTHER. */
  lemma CoercedNoneAllowed(labels: seq<string>)
    ensures (forall i :: 0 <= i < |labels| ==> Upper(labels[i]) !in AllowedLabels) ==> CoercedLabels(labels) == ["OTHER"]
  {
    if AllowedUpper(labels) != [] {
      var x := AllowedUpper(labels)[0];
      AllowedUpperMembers(labels, x);
    }
  }

  /** Coercion keeps the allowed, upper-cased labels when none of them is OTHER. */
  lemma CoercedKeepsAllowed(labels: seq<string>)
    ensures (forall i :: 0 <= i < |labels| ==> Upper(labels[i]) != "OTHER")
            && (exists i :: 0 <= i < |labels| && Upper(labels[i]) in AllowedLabels)
            ==> CoercedLabels(labels) == AllowedUpper(labels)
  {
    AllowedUpperMembers(labels, "OTHER");
    if exists i :: 0 <= i < |labels| && Upper(labels[i]) in AllowedLabels {
      var i :| 0 <= i < |labels| && Upper(labels[i]) in AllowedLabels;
      AllowedUpperMembers(labels, Upper(labels[i]));
    }
  }

  /** Lines 240-257: the label loop with its `has_other` flag. */
  method CoerceLabels(labels: seq<string>) returns (validLabels: seq<string>)
    ensures validLabels == CoercedLabels(labels)
  {
    validLabels := [];
    var hasOther := false;
    for i := 0 to |labels|
      invariant validLabels == AllowedUpper(labels[..i])
      invariant hasOther <==> "OTHER" in validLabels
    {
      var lblUpper := Upper(labels[i]);
      assert labels[..i + 1][..i] == labels[..i];
      if lblUpper in AllowedLabels {
        if lblUpper == "OTHER" {
          hasOther := true;
        }
        validLabels := validLabels + [lblUpper];
      }
    }
    assert labels[..|labels|] == labels;
    if hasOther {
      validLabels := ["OTHER"];
    }
    if |validLabels| == 0 {
      validLabels := ["OTHER"];
    }
  }

  /** `max(0.0, min(1.0, x))`. */
  function Clamp(x: real): (c: real)
    ensures 0.0 <= c <= 1.0
    ensures 0.0 <= x <= 1.0 ==> c == x
    ensures x < 0.0 ==> c == 0.0
    ensures x > 1.0 ==> c == 1.0
  {
    if x > 1.0 then 1.0 else if x < 0.0 then 0.0 else x
  }

  /** `float(x)`: numbers and booleans convert, strings are parsed (ValueError
      when they do not parse), other values raise TypeError. */
  function ToFloat(j: Json, parseFloat: string -> Option<real>): (r: Result<real>)
    ensures j.JNum? ==> r == Ok(j.n)
    ensures j.JNull? || j.JArr? || j.JObj? ==> r.Err?
  {
    match j
    case JNum(n) => Ok(n)
    case JBool(b) => Ok(if b then 1.0 else 0.0)
    case JStr(s) => if parseFloat(s).Some? then Ok(parseFloat(s).value) else Err("ValueError: could not convert string to float")
    case _ => Err("TypeError: float() argument must be a string or a real number")
  }

  /** The strings of a list, or the validation error pydantic raises for a
      list[str] field holding something else. */
  function AllStrings(items: seq<Json>): (r: Result<seq<string>>)
    ensures r.Ok? <==> forall i :: 0 <= i < |items| ==> items[i].JStr?
    ensures r.Ok? ==> |r.value| == |items| && forall i :: 0 <= i < |items| ==> r.value[i] == items[i].s
  {
    if |items| == 0 then Ok([])
    else
      var last := items[|items| - 1];
      match AllStrings(items[..|items| - 1])
      case Ok(init) => if last.JStr? then Ok(init + [last.s]) else Err("ValidationError: Input should be a valid string")
      case Err(e) => Err(e)
  }

  /** `list(data.get(key, []) or [])` checked as a list[str] field. */
  function StringList(members: seq<(string, Json)>, key: string): (r: Result<seq<string>>)
    ensures Get(members, key).None? ==> r == Ok([])
    ensures Get(members, key).Some? && !Truthy(Get(members, key).value) ==> r == Ok([])
    ensures Get(members, key) == Some(JArr([])) ==> r == Ok([])
    ensures var v := Get(members, key);
      v.Some? && Truthy(v.value) ==>
        && (v.value.JArr? ==> r == AllStrings(v.value.items))
        && (v.value.JObj? ==> r == Ok(DictKeys(v.value.members)))
        && (v.value.JStr? ==> r.Ok? && |r.value| == |v.value.s| && forall i :: 0 <= i < |v.value.s| ==> r.value[i] == [v.value.s[i]])
        && (v.value.JNum? || v.value.JBool? ==> r.Err?)
  {
    var v := Get(members, key).GetOr(JArr([]));
    if !Truthy(v) then Ok([])
    else match Elements(v)
      case Ok(items) =>
        if v.JObj? then
          var ks := DictKeys(v.members);
          assert AllStrings(items).Ok? && AllStrings(items).value == ks;
          AllStrings(items)
        else AllStrings(items)
      case Err(e) => Err(e)
  }

  /** Lines 259-274: the result built from a parsed object. Exceptions the
      source does not catch become Err. */
  function ResultFromObject(members: seq<(string, Json)>, repr: Json -> string,
                            parseFloat: string -> Option<real>, labels: seq<string>): (r: Result<ClassificationResult>)
    ensures r.Ok? ==> r.value.labels == labels && 0.0 <= r.value.confidence <= 1.0
    ensures r.Ok? ==> r.value.needsReview == (Get(members, "needs_review").Some? && Truthy(Get(members, "needs_review").value))
    ensures var conf := ToFloat(Get(members, "confidence").GetOr(JNum(0.0)), parseFloat);
      var rules := StringList(members, "matched_rules");
      var evidence := StringList(members, "evidence");
      var missing := StringList(members, "missing_signals");
      && (r.Ok? <==> conf.Ok? && rules.Ok? && evidence.Ok? && missing.Ok?)
      && (r.Ok? ==> r.value.confidence == Clamp(conf.value) && r.value.matchedRules == rules.value
                    && r.value.evidence == evidence.value && r.value.missingSignals == missing.value
                    && r.value.rationale == StrOf(Get(members, "rationale").GetOr(JStr("")), repr))
    ensures Get(members, "confidence").None? && Get(members, "matched_rules").None? && Get(members, "evidence").None?
            && Get(members, "missing_signals").None? ==>
            r.Ok? && r.value.confidence == 0.0 && r.value.matchedRules == [] && r.value.evidence == []
            && r.value.missingSignals == []
  {
    var conf := ToFloat(Get(members, "confidence").GetOr(JNum(0.0)), parseFloat);
    var rules := StringList(members, "matched_rules");
    var rationale := StrOf(Get(members, "rationale").GetOr(JStr("")), repr);
    var evidence := StringList(members, "evidence");
    var needsReview := Truthy(Get(members, "needs_review").GetOr(JBool(false)));
    var missing := StringList(members, "missing_signals");
    if conf.Err? then Err(conf.error)
    else if rules.Err? then Err(rules.error)
    else if evidence.Err? then Err(evidence.error)
    else if missing.Err? then Err(missing.error)
    else Ok(ClassificationResult(labels, Clamp(conf.value), rules.value, rationale, evidence.value, needsReview, missing.value))
  }

  /** What the chat-completion call yields: an exception, or the content of
      the first choice (None when the message has no content). */
  datatype LlmAnswer =
    | Raised(errorType: string, errorMsg: string)
    | Answered(content: Option<string>)

  /** `json.loads` and the string conversions, as oracles. */
  datatype JsonEnv = JsonEnv(
    loads: string -> Result<Json>,
    repr: Json -> string,
    parseFloat: string -> Option<real>)

  /** What `classify_llm_tool` returns for a key and an answer: the
      fallbacks, the parse-error result, and otherwise the result built
      from the parsed object with its labels coerced. Err when the source
      raises: an answer that is JSON but not an object, or fields of the
      wrong type. */
  function Classification(apiKey: string, answer: LlmAnswer, env: JsonEnv): (r: Result<ClassificationResult>)
    ensures apiKey == "" ==> r == Ok(NoApiKey)
    ensures apiKey != "" && answer.Raised? ==> r == Ok(LlmError(answer.errorType, answer.errorMsg))
    ensures apiKey != "" && answer.Answered? && (answer.content.None? || answer.content.value == "") ==> r == Ok(EmptyResponse)
    ensures apiKey != "" && answer.Answered? && answer.content.Some? && answer.content.value != "" ==>
      var data := env.loads(ExtractedObject(StripFences(answer.content.value)));
      && (data.Err? ==> r == Ok(ParseError(data.error)))
      && (data.Ok? && !data.value.JObj? ==> r.Err?)
      && (data.Ok? && data.value.JObj? ==>
            var labels := RawLabels(data.value.members, env.repr);
            if labels.Err? then r.Err?
            else r == ResultFromObject(data.value.members, env.repr, env.parseFloat, CoercedLabels(labels.value)))
    ensures r.Ok? ==> |r.value.labels| > 0 && 0.0 <= r.value.confidence <= 1.0
    ensures r.Ok? ==> forall i :: 0 <= i < |r.value.labels| ==> r.value.labels[i] in AllowedLabels
    ensures r.Ok? && "OTHER" in r.value.labels ==> r.value.labels == ["OTHER"]
  {
    if apiKey == "" then Ok(NoApiKey)
    else if answer.Raised? then Ok(LlmError(answer.errorType, answer.errorMsg))
    else if answer.content.None? || answer.content.value == "" then Ok(EmptyResponse)
    else
      var data := env.loads(ExtractedObject(StripFences(answer.content.value)));
      if data.Err? then Ok(ParseError(data.error))
      else if !data.value.JObj? then Err("AttributeError: object has no attribute 'get'")
      else
        var labels := RawLabels(data.value.members, env.repr);
        if labels.Err? then Err(labels.error)
        else ResultFromObject(data.value.members, env.repr, env.parseFloat, CoercedLabels(labels.value))
  }

  /** `classify_llm_tool` from the key check on (lines 180-274). */
  method ClassifyLlmTool(apiKey: string, answer: LlmAnswer, env: JsonEnv) returns (r: Result<ClassificationResult>)
    ensures r == Classification(apiKey, answer, env)
  {
    if apiKey == "" {
      return Ok(NoApiKey);
    }
    if answer.Raised? {
      return Ok(LlmError(answer.errorType, answer.errorMsg));
    }
    if answer.content.None? || answer.content.value == "" {
      return Ok(EmptyResponse);
    }
    var raw := StripFences(answer.content.value);
    raw := ExtractJsonObject(raw);
    var data := env.loads(raw);
    if data.Err? {
      return Ok(ParseError(data.error));
    }
    if !data.value.JObj? {
      return Err("AttributeError: object has no attribute 'get'");
    }
    var members := data.value.members;
    var labels := RawLabels(members, env.repr);
    if labels.Err? {
      return Err(labels.error);
    }
    var validLabels := CoerceLabels(labels.value);
    r := ResultFromObject(members, env.repr, env.parseFloat, validLabels);
  }
}
