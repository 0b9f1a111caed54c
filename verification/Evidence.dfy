/** The documents the release gate reads and publishes. */
module Evidence {
  import opened Prelude
  import opened SupportMatrix

  type Octet = n: nat | n < 256

  /** An entry of a JSON object; the names of one object are pairwise different. */
  datatype Named<T> = Named(name: string, value: T)

  predicate DistinctNames<T>(entries: seq<Named<T>>) {
    forall i, j :: 0 <= i < j < |entries| ==> entries[i].name != entries[j].name
  }

  function Lookup<T>(entries: seq<Named<T>>, name: string): Option<T> {
    if entries == [] then None
    else if entries[0].name == name then Some(entries[0].value)
    else Lookup(entries[1..], name)
  }

  // ---------------------------------------------------------- correctness

  datatype History = History(category: string, exercised: bool)

  datatype Backend = Backend(predictions: Option<seq<Octet>>, checkedRows: Option<int>, uniqueRows: Option<int>,
                             tieRows: Option<int>, invariance: Option<bool>, digest: string, rejectedRows: bool,
                             flippedRejected: bool)

  /** A case of the correctness suite; `allowed` gives for every row how many answers are allowed. */
  datatype Case = Case(name: string, level: string, status: string, identity: map<string, string>, params: string,
                       histories: seq<History>, channels: set<string>, detectors: int, placeholderPairs: int,
                       rows: Option<int>, seed: string, backends: seq<Named<Backend>>, allowed: map<string, seq<nat>>,
                       mismatches: set<string>)

  datatype Point = Point(name: string, detectors: int, level: string)

  datatype FieldName =
    | HistoryCategories | SingleLossHistories | NoiseChannels | CircuitPoints | PlaceholderPairs | TotalRows
    | CheckedRows | AllowedTieRows | Seeds

  datatype Field = Count(n: int) | Counts(counts: map<string, int>) | Channels(names: set<string>)
                 | Points(points: seq<Point>) | SeedList(seeds: seq<string>)

  datatype Correctness = Correctness(cases: seq<Case>, declared: map<FieldName, Field>)

  /** A generated document: what binds it, and its contents. */
  datatype Generated<T> = Generated(schema: string, revision: string, status: string, body: T)

  // ------------------------------------------------------------ resources

  datatype ResourceCase = ResourceCase(decoder: string, kind: string, exitCode: int, outputProblems: bool)

  datatype MleRecord = MleRecord(id: string, exitCode: int, outputProblems: bool, wallSeconds: Option<real>,
                                 realCircuit: bool, params: map<string, string>, errorCode: string,
                                 completedShots: int, outsideTimeout: bool)

  // ------------------------------------------------------------ MLE scope

  datatype RequiredCase =
    | EndToEndCase(caseName: string, identity: map<string, string>, caseParams: string)
    | CompilerCase(caseName: string, identity: map<string, string>, caseParams: string)
    | ControlCase(control: string)
    | WorkloadCase(workload: string, realCircuit: bool, params: map<string, string>)
    | FailureCase(workload: string)
    | PlatformCase(target: string)

  /** The scope plan of the MLE decoder. */
  datatype Plan = Plan(sourceRevision: string, current: string, proposed: string, promotionRelease: string,
                       noInterpolation: string, cases: seq<RequiredCase>)

  // ------------------------------------------------------------ installed

  datatype Archive = Archive(path: string, filename: string, sha256: string)

  datatype Binary = Binary(path: Option<string>, sha256: string, version: string, advertised: seq<string>)

  datatype MatrixRef = MatrixRef(path: Option<string>, sha256: string, schema: string)

  datatype Ilp = Ilp(expected: bool, available: bool)

  /** The report of a test of an installed archive, as recorded or, without machine-local paths, as published. */
  datatype Installed = Installed(schema: string, target: string, binDir: Option<string>, sourceRevision: string,
                                 ilp: Ilp, matrix: MatrixRef, binary: Binary, archive: Archive,
                                 controls: seq<Record>, semantics: string, status: string, problems: seq<string>,
                                 redacted: seq<string>)

  /** The parts of a path, without empty ones and dots. */
  function Parts(path: string, part: string): seq<string>
    decreases |path|
  {
    if path == "" then KeepPart(part)
    else if path[0] == '/' then KeepPart(part) + Parts(path[1..], "")
    else Parts(path[1..], part + [path[0]])
  }

  function KeepPart(part: string): seq<string> {
    if part == "" || part == "." then [] else [part]
  }

  /** `Path(path).name` */
  function BaseName(path: string): string {
    var parts := Parts(path, "");
    if parts == [] then "" else parts[|parts| - 1]
  }

  predicate PlainName(name: string) {
    name == "" || ('/' !in name && name != ".")
  }

  lemma {:induction false} PartsArePlain(path: string, part: string)
    requires '/' !in part
    ensures forall p :: p in Parts(path, part) ==> PlainName(p)
    decreases |path|
  {
    if path != "" {
      if path[0] == '/' {
        PartsArePlain(path[1..], "");
      } else {
        PartsArePlain(path[1..], part + [path[0]]);
      }
    }
  }

  lemma {:induction false} PlainParts(path: string, part: string)
    requires '/' !in path
    ensures Parts(path, part) == KeepPart(part + path)
    decreases |path|
  {
    if path == "" {
      assert part + path == part;
    } else {
      assert path[0] in path;
      PlainParts(path[1..], part + [path[0]]);
      assert part + [path[0]] + path[1..] == part + path;
    }
  }

  lemma {:induction false} BaseNameTwice(path: string)
    ensures BaseName(BaseName(path)) == BaseName(path)
  {
    var name := BaseName(path);
    PartsArePlain(path, "");
    var parts := Parts(path, "");
    if parts != [] {
      assert parts[|parts| - 1] in parts;
    }
    PlainParts(name, "");
    assert "" + name == name;
  }

  /** The machine-independent part of an installed report. */
  function Portable(r: Installed): Installed {
    r.(binDir := None,
       matrix := r.matrix.(path := None),
       binary := r.binary.(path := None),
       archive := Archive("", BaseName(if r.archive.path != "" then r.archive.path else r.archive.filename),
                          r.archive.sha256),
       redacted := [])
  }

  const REDACTED: seq<string> := ["bin_dir", "binary.path", "archive.path", "matrix.path"]

  function Sanitized(r: Installed): Installed {
    Portable(r).(redacted := REDACTED)
  }

  /** What is published of a report has the same machine-independent part as the report. */
  lemma {:induction false} SanitizedIsPortable(r: Installed)
    ensures Portable(Sanitized(r)) == Portable(r)
    ensures Portable(Portable(r)) == Portable(r)
  {
    BaseNameTwice(if r.archive.path != "" then r.archive.path else r.archive.filename);
  }

  // ------------------------------------------------------------- the gate

  datatype RetainedRecord = RetainedRecord(present: bool, binding: string, sha256: string, checkoutRevision: string)

  datatype InstalledRef = InstalledRef(sha256: string, portableSha256: string)

  /** What a gap is about. */
  datatype Problem =
    | InvarianceFlag | PredictionHash | PredictionCount | CheckedRowCount | UniqueCount | TieCount
    | RejectedRowsFound | FlippedAnswerMissing | InvarianceNotShown | MismatchesRecorded | NotExecuted
    | RowCountMissing | AllowedCount | NoEndToEndCase | DeclaredCoverageDiffers | HistoriesMissing
    | ChannelsMissing | CircuitPointsMissing | PlaceholderPairsMissing | NoCheckedRows | NoSeeds | EvidenceMissing
    | EvidenceSchema | EvidenceRevision | EvidenceStatus | ReportMissing | ReportSchema | ReportTarget
    | ReportRevision | ReportStatus | ReportIlp | MatrixRevisionMissing | MatrixAncestryUnknown
    | MatrixNotAnAncestor | PolicySectionMissing | PolicyMissing | PlanMissing | PlanInvalid | PlanRevisionMissing
    | PlanNotAnAncestor | ProposalWithoutPlan | PromotedAheadOfPlan | NoSuccessfulWorkload | NoEvictionWorkload
    | SupportUnavailable | CorrectnessUnavailable | ResourcesUnavailable | InstalledUnavailable | IdentityDiffers
    | ParamsDiffer | RequiredCaseNotExecuted | NotEndToEnd | MleNotExecuted | CaseNotPassing
    | CompilerCaseNotExecuted | NotCompilerOnly | ControlNotPassing | WorkloadNotMeasured | WorkloadFailed
    | WorkloadTooSlow | RealCircuitDiffers | WorkloadParamsDiffer | FailureCaseNotExecuted | FailureOutcomeDiffers
    | TimeoutCoversCompilation | ReportNotIlpCapable | MleReportUnavailable | ReplayProblem | WorkloadsDrift
    | HeldAtBeta

  /** A blocking gap: a problem and the file, case, target or decoder that has it. */
  datatype Gap =
    | Incomplete(source: string, decoder: string, executed: nat, expected: nat, missing: set<string>)
    | Failing(source: string, decoder: string, failing: set<string>)
    | OnCase(problem: Problem, decoder: string, name: string)
    | Note(problem: Problem, subject: string)

  datatype Decision = Decision(current: string, proposed: string, decision: string, coverageGaps: seq<Gap>,
                               blocking: seq<Gap>)

  /** The generated evidence documents. */
  datatype EvidenceName = SupportEvidence | CorrectnessEvidence | ResourcesEvidence | MleEvidence

  const NAMES: seq<EvidenceName> := [SupportEvidence, CorrectnessEvidence, ResourcesEvidence, MleEvidence]

  function FileOf(name: EvidenceName): string {
    match name
    case SupportEvidence => "support.json"
    case CorrectnessEvidence => "correctness.json"
    case ResourcesEvidence => "resources.json"
    case MleEvidence => "mle-resources.json"
  }

  /** The report of the release gate; evidence and installed reports that could not be used have no entry. */
  datatype GateReport = GateReport(schema: string, candidate: string, requiredTargets: seq<string>, matrixSha: string,
                                   policySha: string, retained: RetainedRecord, planSha: string,
                                   evidence: map<EvidenceName, string>, installed: map<string, InstalledRef>,
                                   decoders: seq<Named<Decision>>, status: string, gaps: seq<Gap>)
}
