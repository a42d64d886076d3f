/** The result store: a JSON-lines log, a JSON array rewritten with one more
    element, or an SQLite table keyed by URL with `INSERT OR REPLACE`.
    Files are modelled by their decoded content. */
module Storage {
  import opened Wrappers
  import opened Text
  import opened Classifications

  /** A value of `model_dump(mode="json")`. */
  datatype DumpValue = DStr(s: string) | DInt(i: int) | DReal(r: real) | DBool(b: bool) | DNull | DList(items: seq<string>)

  type Dump = map<string, DumpValue>

  /** The keys `model_dump` emits: the declared fields. The `label` property is not among them. */
  const DumpKeys: set<string> :=
    {"url", "final_url", "http_status", "labels", "confidence", "matched_rules", "rationale", "evidence",
     "needs_review", "ruleset_version", "model_version", "processed_at", "fetch_mode", "content_hash"}

  function OptInt(o: Option<int>): DumpValue {
    if o.Some? then DInt(o.value) else DNull
  }

  function OptStr(o: Option<string>): DumpValue {
    if o.Some? then DStr(o.value) else DNull
  }

  /** `result.model_dump(mode="json")`: `processed_at` is already an ISO string,
      so the `isinstance(..., datetime)` conversions that follow never apply. */
  function ModelDump(r: StoredClassification): Dump
  {
    map["url" := DStr(r.url), "final_url" := DStr(r.finalUrl), "http_status" := OptInt(r.httpStatus),
        "labels" := DList(r.labels), "confidence" := DReal(r.confidence), "matched_rules" := DList(r.matchedRules),
        "rationale" := DStr(r.rationale), "evidence" := DList(r.evidence), "needs_review" := DBool(r.needsReview),
        "ruleset_version" := DStr(r.rulesetVersion), "model_version" := DStr(r.modelVersion),
        "processed_at" := DStr(r.processedAt), "fetch_mode" := DStr(r.fetchMode),
        "content_hash" := OptStr(r.contentHash)]
  }

  /** The dump has exactly the declared fields, each holding the record's value. */
  lemma ModelDumpFields(r: StoredClassification)
    ensures var d := ModelDump(r);
      && d.Keys == DumpKeys
      && d["url"] == DStr(r.url) && d["final_url"] == DStr(r.finalUrl) && d["http_status"] == OptInt(r.httpStatus)
      && d["labels"] == DList(r.labels) && d["confidence"] == DReal(r.confidence)
      && d["matched_rules"] == DList(r.matchedRules) && d["rationale"] == DStr(r.rationale)
      && d["evidence"] == DList(r.evidence) && d["needs_review"] == DBool(r.needsReview)
      && d["ruleset_version"] == DStr(r.rulesetVersion) && d["model_version"] == DStr(r.modelVersion)
      && d["processed_at"] == DStr(r.processedAt) && d["fetch_mode"] == DStr(r.fetchMode)
      && d["content_hash"] == OptStr(r.contentHash)
  {
    ModelDumpKeys(r);
    ModelDumpPageFields(r);
    ModelDumpLabelFields(r);
    ModelDumpRunFields(r);
  }

  lemma ModelDumpKeys(r: StoredClassification)
    ensures ModelDump(r).Keys == DumpKeys
  {
  }

  /** The fields that describe the page. */
  lemma ModelDumpPageFields(r: StoredClassification)
    ensures var d := ModelDump(r);
      d["url"] == DStr(r.url) && d["final_url"] == DStr(r.finalUrl) && d["http_status"] == OptInt(r.httpStatus)
  {
  }

  /** The fields that describe the classification. */
  lemma ModelDumpLabelFields(r: StoredClassification)
    ensures var d := ModelDump(r);
      && d["labels"] == DList(r.labels) && d["confidence"] == DReal(r.confidence)
      && d["matched_rules"] == DList(r.matchedRules) && d["rationale"] == DStr(r.rationale)
  {
  }

  /** The fields that describe the review flag and the run. */
  lemma ModelDumpRunFields(r: StoredClassification)
    ensures var d := ModelDump(r);
      && d["evidence"] == DList(r.evidence) && d["needs_review"] == DBool(r.needsReview)
      && d["ruleset_version"] == DStr(r.rulesetVersion) && d["model_version"] == DStr(r.modelVersion)
      && d["processed_at"] == DStr(r.processedAt) && d["fetch_mode"] == DStr(r.fetchMode)
      && d["content_hash"] == OptStr(r.contentHash)
  {
  }

  /** A bound SQLite parameter; `SqlJson` is the `json.dumps` text of a value. */
  datatype SqlValue = SqlText(text: string) | SqlInteger(n: int) | SqlReal(x: real) | SqlNull | SqlJson(json: DumpValue)

  /** The fourteen columns of `classifications`, in declaration order. */
  type Row = seq<SqlValue>

  const Columns: seq<string> :=
    ["url", "final_url", "http_status", "label", "confidence", "matched_rules", "rationale", "evidence",
     "needs_review", "ruleset_version", "model_version", "processed_at", "fetch_mode", "content_hash"]

  function ToSql(v: DumpValue): SqlValue {
    match v
    case DStr(s) => SqlText(s)
    case DInt(i) => SqlInteger(i)
    case DReal(r) => SqlReal(r)
    case DBool(b) => SqlInteger(if b then 1 else 0)
    case DNull => SqlNull
    case DList(_) => SqlJson(v)
  }

  /** Python truthiness of a dumped value. */
  predicate Truthy(v: DumpValue) {
    match v
    case DStr(s) => s != ""
    case DInt(i) => i != 0
    case DReal(r) => r != 0.0
    case DBool(b) => b
    case DNull => false
    case DList(xs) => |xs| > 0
  }

  /** The message of the `KeyError` a missing key `k` raises. */
  function KeyError(k: string): string {
    "KeyError: '" + k + "'"
  }

  /** `data[k]`: a `KeyError` when `k` is missing. */
  function Get(data: Dump, k: string): (r: Result<DumpValue>)
    ensures r.Ok? <==> k in data
    ensures r.Ok? ==> r.value == data[k]
  {
    if k in data then Ok(data[k]) else Err(KeyError(k))
  }

  /** `data.get(k)`. */
  function GetOpt(data: Dump, k: string): DumpValue {
    if k in data then data[k] else DNull
  }

  /** The first of `keys` that `data` lacks. */
  function FirstMissing(data: Dump, keys: seq<string>): (m: Option<string>)
    ensures m.None? <==> forall i :: 0 <= i < |keys| ==> keys[i] in data
    ensures m.None? ==> forall k :: k in keys ==> k in data
    ensures m.Some? ==> m.value in keys && m.value !in data
  {
    if |keys| == 0 then None
    else if keys[0] !in data then Some(keys[0])
    else FirstMissing(data, keys[1..])
  }

  /** The subscripted keys after `label` in the parameter tuple. */
  const LaterKeys: seq<string> :=
    ["confidence", "matched_rules", "rationale", "evidence", "needs_review", "ruleset_version", "model_version", "fetch_mode"]

  predicate HasLaterKeys(data: Dump) {
    "confidence" in data && "matched_rules" in data && "rationale" in data && "evidence" in data
    && "needs_review" in data && "ruleset_version" in data && "model_version" in data && "fetch_mode" in data
  }

  /** The parameter tuple of the `INSERT OR REPLACE`, evaluated left to right
      so that the first missing key raises; `label` is the value given for
      the `label` column. */
  function SqliteParams(data: Dump, labelValue: Result<DumpValue>): (r: Result<Row>)
    ensures r.Ok? ==> |r.value| == |Columns|
    ensures r.Ok? ==> labelValue.Ok? && r.value[3] == ToSql(labelValue.value)
  {
    if "url" !in data then Err(KeyError("url"))
    else if "final_url" !in data then Err(KeyError("final_url"))
    else if labelValue.Err? then Err(labelValue.error)
    else if !HasLaterKeys(data) then Err(KeyError(FirstMissing(data, LaterKeys).GetOr("")))
    else
      Ok([ToSql(data["url"]), ToSql(data["final_url"]), ToSql(GetOpt(data, "http_status")), ToSql(labelValue.value),
          ToSql(data["confidence"]), SqlJson(data["matched_rules"]), ToSql(data["rationale"]),
          SqlJson(data["evidence"]), SqlInteger(if Truthy(data["needs_review"]) then 1 else 0),
          ToSql(data["ruleset_version"]), ToSql(data["model_version"]), ToSql(GetOpt(data, "processed_at")),
          ToSql(data["fetch_mode"]), ToSql(GetOpt(data, "content_hash"))])
  }

  /** The row as written: the `label` column is read as `data["label"]`. */
  function SqliteRowAsWritten(r: StoredClassification): Result<Row> {
    var data := ModelDump(r);
    SqliteParams(data, Get(data, "label"))
  }

  /** The dump never has a `label` key, so building the row always raises. */
  lemma SqliteRowAsWrittenAlwaysFails(r: StoredClassification)
    ensures "label" !in ModelDump(r)
    ensures SqliteRowAsWritten(r) == Err(KeyError("label"))
  {
    ModelDumpKeys(r);
    ModelDumpPageFields(r);
    assert "label" !in DumpKeys;
  }

  /** The row as intended: the `label` column holds `result.label`. It keys the
      row by the record's URL, flags review as 1/0 and keeps the rule and
      evidence lists as JSON text. */
  function SqliteRow(r: StoredClassification): (row: Row)
    ensures |row| == |Columns|
    ensures row[0] == SqlText(r.url) && row[3] == SqlText(Label(r.labels))
    ensures row[4] == SqlReal(r.confidence)
    ensures row[5] == SqlJson(DList(r.matchedRules)) && row[7] == SqlJson(DList(r.evidence))
    ensures row[8] == SqlInteger(if r.needsReview then 1 else 0)
  {
    [SqlText(r.url), SqlText(r.finalUrl), ToSql(OptInt(r.httpStatus)), SqlText(Label(r.labels)),
     SqlReal(r.confidence), SqlJson(DList(r.matchedRules)), SqlText(r.rationale), SqlJson(DList(r.evidence)),
     SqlInteger(if r.needsReview then 1 else 0), SqlText(r.rulesetVersion), SqlText(r.modelVersion),
     SqlText(r.processedAt), SqlText(r.fetchMode), ToSql(OptStr(r.contentHash))]
  }

  /** The corrected row differs from the one as written only in where the label comes from. */
  lemma SqliteRowIsParams(r: StoredClassification)
    ensures SqliteParams(ModelDump(r), Ok(DStr(Label(r.labels)))) == Ok(SqliteRow(r))
  {
    var data := ModelDump(r);
    ModelDumpFields(r);
    assert HasLaterKeys(data);
  }

  /** `INSERT OR REPLACE` on the primary key in column 0. */
  function Upsert(table: map<SqlValue, Row>, row: Row): (t: map<SqlValue, Row>)
    requires |row| > 0
    ensures row[0] in t && t[row[0]] == row
    ensures forall k :: k != row[0] ==> (k in t <==> k in table) && (k in table ==> t[k] == table[k])
    ensures t.Keys == table.Keys + {row[0]}
    ensures |t| <= |table| + 1
  {
    table[row[0] := row]
  }

  /** The decoded content of the output file. `Database(None)` is an SQLite
      file that has no `classifications` table; `Unreadable` is any other
      content (neither a log, an array nor an SQLite database). An empty
      log is an empty file, which SQLite opens as a database without tables. */
  datatype FileState =
    | Missing
    | JsonLines(lines: seq<Dump>)
    | JsonArray(items: seq<Dump>)
    | Database(table: Option<map<SqlValue, Row>>)
    | Unreadable

  /** The records a log or array file holds. */
  function Entries(f: FileState): seq<Dump> {
    match f
    case JsonLines(lines) => lines
    case JsonArray(items) => items
    case _ => []
  }

  /** The rows a database file holds. */
  function Rows(f: FileState): map<SqlValue, Row> {
    if f.Database? && f.table.Some? then f.table.value else map[]
  }

  predicate IsDbPath(path: string) {
    EndsWith(path, ".db")
  }

  /** A non-empty file SQLite cannot open: `DELETE` then raises
      `sqlite3.DatabaseError`, which the `except OperationalError` of
      `init_storage` does not catch. */
  predicate NotADatabase(f: FileState) {
    f.JsonArray? || f.Unreadable? || (f.JsonLines? && f.lines != [])
  }

  /** `init_storage` raises exactly for such a file at a database path. */
  predicate InitFails(path: string, f: FileState) {
    IsDbPath(path) && NotADatabase(f)
  }

  /** `init_storage`: a database path keeps its table but empties it, or
      loses the file when the table is missing; any other path loses its file. */
  function InitialState(path: string, f: FileState): (g: FileState)
    ensures Entries(g) == [] && Rows(g) == map[]
    ensures IsDbPath(path) && f.Database? && f.table.Some? ==> g == Database(Some(map[]))
    ensures !(IsDbPath(path) && f.Database? && f.table.Some?) ==> g == Missing
  {
    if IsDbPath(path) && f.Database? && f.table.Some? then Database(Some(map[])) else Missing
  }

  /** The output file of one configured path and export format. */
  class Store {
    const path: string
    const format: string
    var file: FileState

    /** The content matches the configured format. */
    predicate Valid()
      reads this
    {
      (IsDbPath(path) ==> file.Missing? || file.Database?)
      && (!IsDbPath(path) && format == "jsonl" ==> file.Missing? || file.JsonLines?)
      && (!IsDbPath(path) && format != "jsonl" ==> file.Missing? || file.JsonArray?)
    }

    /** A store over whatever file sits at the path. */
    constructor(path: string, format: string, existing: FileState)
      ensures this.path == path && this.format == format && file == existing
    {
      this.path := path;
      this.format := format;
      file := existing;
    }

    /** `init_storage(path, format)`: the error it raises, if any, leaves the
        file as it was. */
    method InitStorage() returns (err: Option<string>)
      modifies this
      ensures err.Some? <==> InitFails(path, old(file))
      ensures err.Some? ==> file == old(file)
      ensures err.None? ==> file == InitialState(path, old(file)) && Valid()
    {
      err := None;
      if IsDbPath(path) {
        if NotADatabase(file) {
          err := Some("sqlite3.DatabaseError: file is not a database");
        } else if file != Missing {
          if file.Database? && file.table.Some? {
            file := Database(Some(map[]));
          } else {
            file := Missing;
          }
        }
      } else {
        if file != Missing {
          file := Missing;
        }
      }
    }

    /** `storage_tool(result, path, format)`: appends one line in JSON-lines
        format, and otherwise reads the array (none when the file is absent),
        appends and rewrites it. A failed write changes nothing. */
    method StorageTool(result: StoredClassification, writeFails: bool) returns (err: Option<string>)
      requires Valid() && !IsDbPath(path)
      modifies this
      ensures Valid()
      ensures writeFails ==> err.Some? && file == old(file)
      ensures !writeFails ==> err.None? && Entries(file) == Entries(old(file)) + [ModelDump(result)]
      ensures !writeFails ==> file == (if format == "jsonl" then JsonLines(Entries(file)) else JsonArray(Entries(file)))
    {
      if writeFails {
        return Some("OSError: write failed");
      }
      var data := ModelDump(result);
      if format == "jsonl" {
        var lines := if file.JsonLines? then file.lines else [];
        file := JsonLines(lines + [data]);
      } else {
        var arr := if file.JsonArray? then file.items else [];
        arr := arr + [data];
        file := JsonArray(arr);
      }
      err := None;
    }

    /** `storage_tool_sqlite` as written: the table is created if missing and
        then reading `data["label"]` raises, so no row is ever written. */
    method StorageToolSqliteAsWritten(result: StoredClassification) returns (err: Option<string>)
      requires Valid() && IsDbPath(path)
      modifies this
      ensures Valid()
      ensures err == Some(KeyError("label"))
      ensures file == Database(Some(Rows(old(file))))
    {
      var table := Rows(file);
      file := Database(Some(table));
      var row := SqliteRowAsWritten(result);
      SqliteRowAsWrittenAlwaysFails(result);
      err := Some(row.error);
    }

    /** `storage_tool_sqlite` with the label column taken from `result.label`:
        an upsert of the record's row on its URL. */
    method StorageToolSqlite(result: StoredClassification, writeFails: bool) returns (err: Option<string>)
      requires Valid() && IsDbPath(path)
      modifies this
      ensures Valid()
      ensures writeFails ==> err.Some? && file == old(file)
      ensures !writeFails ==> err.None? && file == Database(Some(Upsert(Rows(old(file)), SqliteRow(result))))
    {
      if writeFails {
        return Some("sqlite3.OperationalError: write failed");
      }
      var table := Rows(file);
      file := Database(Some(Upsert(table, SqliteRow(result))));
      err := None;
    }
  }

  /** After any sequence of upserts every URL has at most one row, and it is
      the last one written for that URL. */
  function UpsertAll(table: map<SqlValue, Row>, rs: seq<StoredClassification>): (t: map<SqlValue, Row>)
    ensures t.Keys == table.Keys + UrlKeys(rs)
  {
    if |rs| == 0 then table
    else
      var init := rs[..|rs| - 1];
      var row := SqliteRow(rs[|rs| - 1]);
      assert UrlKeys(rs) == UrlKeys(init) + {row[0]};
      Upsert(UpsertAll(table, init), row)
  }

  /** One more record upserts its row over the earlier ones. */
  lemma UpsertAllStep(table: map<SqlValue, Row>, ss: seq<StoredClassification>)
    requires ss != []
    ensures UpsertAll(table, ss) == Upsert(UpsertAll(table, ss[..|ss| - 1]), SqliteRow(ss[|ss| - 1]))
  {
  }

  /** The primary keys of the rows of `rs`. */
  function UrlKeys(rs: seq<StoredClassification>): (ks: set<SqlValue>)
    ensures forall i :: 0 <= i < |rs| ==> SqlText(rs[i].url) in ks
    ensures |ks| <= |rs|
  {
    if |rs| == 0 then {}
    else
      var init := rs[..|rs| - 1];
      assert forall i :: 0 <= i < |rs| - 1 ==> rs[i] == init[i];
      UrlKeys(init) + {SqlText(rs[|rs| - 1].url)}
  }

  /** The row stored for a URL is the one of its last write. */
  lemma {:induction false} UpsertAllLastWins(table: map<SqlValue, Row>, rs: seq<StoredClassification>, i: nat)
    requires i < |rs|
    requires forall j :: i < j < |rs| ==> rs[j].url != rs[i].url
    ensures UpsertAll(table, rs)[SqlText(rs[i].url)] == SqliteRow(rs[i])
  {
    if i < |rs| - 1 {
      var init := rs[..|rs| - 1];
      assert forall j :: i < j < |init| ==> init[j] == rs[j];
      UpsertAllLastWins(table, init, i);
      assert SqliteRow(rs[|rs| - 1])[0] != SqlText(rs[i].url);
    }
  }
}
