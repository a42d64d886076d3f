/** The URL record a crawl emits and the processing states of its lifecycle. */
module UrlRecords {
  import opened Wrappers

  datatype ProcessingState =
    | Discovered | Fetched | Rendered | Extracted | Classified | Validated
    | Stored | Failed | Skipped

  const AllStates: set<ProcessingState> :=
    {Discovered, Fetched, Rendered, Extracted, Classified, Validated, Stored, Failed, Skipped}

  /** No transition leaves these states. */
  const TerminalStates: set<ProcessingState> := {Stored, Failed, Skipped}

  /** The enum's string value. */
  function StateName(s: ProcessingState): string {
    match s
    case Discovered => "DISCOVERED"
    case Fetched => "FETCHED"
    case Rendered => "RENDERED"
    case Extracted => "EXTRACTED"
    case Classified => "CLASSIFIED"
    case Validated => "VALIDATED"
    case Stored => "STORED"
    case Failed => "FAILED"
    case Skipped => "SKIPPED"
  }

  /** There are exactly nine states, with distinct names, and three of them are terminal. */
  lemma StatesEnumerated()
    ensures forall s: ProcessingState :: s in AllStates
    ensures |AllStates| == 9
    ensures forall s, t :: StateName(s) == StateName(t) ==> s == t
    ensures TerminalStates <= AllStates && |TerminalStates| == 3
    ensures Discovered !in TerminalStates
  {
    forall s: ProcessingState ensures s in AllStates {
      match s
      case Discovered =>
      case Fetched =>
      case Rendered =>
      case Extracted =>
      case Classified =>
      case Validated =>
      case Stored =>
      case Failed =>
      case Skipped =>
    }
    assert forall s, t :: StateName(s) == StateName(t) ==> s == t by {
      forall s, t | StateName(s) == StateName(t) ensures s == t {
        assert StateName(s)[0] == StateName(t)[0];
        assert StateName(s)[1] == StateName(t)[1];
        assert StateName(s)[2] == StateName(t)[2];
      }
    }
  }

  /** `discovered_at` (an ISO timestamp string) is supplied by the caller. */
  datatype UrlRecord = UrlRecord(
    url: string,
    discoveredFrom: Option<string>,
    depth: int,
    discoveredAt: string,
    state: ProcessingState,
    finalUrl: Option<string>,
    httpStatus: Option<int>,
    error: Option<string>)

  /** `URLRecord(url=..., discovered_from=..., depth=..., discovered_at=...)`: every
      field not given takes its default. */
  function NewRecord(url: string, discoveredFrom: Option<string>, depth: int, at: string): (r: UrlRecord)
    ensures r.url == url && r.discoveredFrom == discoveredFrom && r.depth == depth && r.discoveredAt == at
    ensures r.state == Discovered && r.state !in TerminalStates
    ensures r.finalUrl.None? && r.httpStatus.None? && r.error.None?
  {
    UrlRecord(url, discoveredFrom, depth, at, Discovered, None, None, None)
  }

  /** `URLRecord(url=...)` alone: depth 0, no origin, state DISCOVERED. */
  function DefaultRecord(url: string, at: string): (r: UrlRecord)
    ensures r.depth == 0 && r.discoveredFrom.None? && r.state == Discovered
  {
    NewRecord(url, None, 0, at)
  }
}
