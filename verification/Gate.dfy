/** The release gate: from the files of an evidence directory to one decision per decoder. */
module Gate {
  import opened Prelude
  import opened Text
  import opened SupportMatrix
  import opened SupportGate
  import opened Evidence
  import opened Coverage

  const GATE_SCHEMA := "rustqec.envelope-release-report.v1"
  const SUPPORT_SCHEMA := "rustqec.envelope-support-result.v1"
  const CORRECTNESS_SCHEMA := "rustqec.envelope-readiness-correctness.v1"
  const RESOURCES_SCHEMA := "rustqec.envelope-readiness-resources.v1"
  const MLE_SCHEMA := "rustqec.envelope-mle-candidate-resources.v1"
  const INSTALLED_SCHEMA := "rustqec.installed-envelope-report.v1"
  const PROPOSED := "supported-candidate"
  const WALL_BUDGET: real := 900.0

  const WORKLOADS: set<string> :=
    {"mle-d3r2-p002-b1024", "mle-d3r2-p002-b16384", "mle-d3r1-p010-b1024", "mle-d3r1-p010-b16384",
     "mle-eviction-wires24"}

  const POLICY_SECTIONS: seq<string> :=
    ["## Frozen CLI arguments", "## Dataset interpretation", "## Prediction packing", "## Structured error codes",
     "## Statistics semantics", "## Compatible evolution", "## Breaking changes", "## Deprecation notices"]

  function FailureCode(workload: string): string {
    if workload == "fail-mle-candidate-limit" then "unsupported_circuit"
    else if workload == "fail-mle-solve-timeout" then "decode_timeout"
    else if workload == "fail-mle-infeasible" then "decode_infeasible"
    else ""
  }

  type SupportDoc = Generated<seq<Record>>
  type CorrectnessDoc = Generated<Correctness>
  type ResourcesDoc = Generated<seq<ResourceCase>>
  type MleDoc = Generated<seq<MleRecord>>

  /** What the bytes of a file mean, and the outside world: hashes, history, the replay of an MLE report. */
  datatype World = World(
    hash: string -> string,
    digest: Digest,
    portableText: Installed -> string,
    matrixOf: string -> Option<Matrix>,
    planOf: string -> Option<Plan>,
    supportOf: string -> Option<SupportDoc>,
    correctnessOf: string -> Option<CorrectnessDoc>,
    resourcesOf: string -> Option<ResourcesDoc>,
    mleOf: string -> Option<MleDoc>,
    installedOf: string -> Option<Installed>,
    isAncestor: (string, string) -> Option<bool>,
    replay: (MleDoc, string) -> Option<seq<string>>)

  datatype Pair = Pair(evidence: string, candidate: string)

  /** The files by name; the outcome of the retained-report check comes with its gaps. */
  datatype Inputs = Inputs(dir: map<string, string>, matrix: string, policy: Option<string>, plan: Option<string>,
                           planGiven: bool, retained: RetainedRecord, retainedGaps: seq<Gap>, candidate: string,
                           targets: seq<string>, pairs: seq<Pair>)

  datatype Crash =
    | InvalidMatrix
    | BadMatrix(error: MatrixError)
    | Malformed(file: string)
    | ReplayFailed
    | NoWallTime(workload: string)

  // ------------------------------------------------------- one document

  predicate EquivalenceCovers(pairs: seq<Pair>, evidence: string, candidate: string) {
    Pair(evidence, candidate) in pairs
  }

  /** The revision is the candidate, or recorded as equivalent to it. */
  predicate Bound(revision: string, candidate: string, pairs: seq<Pair>) {
    revision == candidate || (revision != "" && EquivalenceCovers(pairs, revision, candidate))
  }

  function Read<T>(dir: map<string, string>, file: string, parse: string -> Option<T>): Result<Option<T>, Crash> {
    if file !in dir then Ok(None)
    else match parse(dir[file])
      case None => Err(Malformed(file))
      case Some(document) => Ok(Some(document))
  }

  function GeneratedGaps<T>(name: string, document: Option<Generated<T>>, schema: string, candidate: string,
                            pairs: seq<Pair>): seq<Gap> {
    if document.None? then [Note(EvidenceMissing, name)]
    else if document.value.schema != schema then [Note(EvidenceSchema, name)]
    else
      Require(Bound(document.value.revision, candidate, pairs), Note(EvidenceRevision, name))
      + Require(document.value.status == "pass", Note(EvidenceStatus, name))
  }

  function Usable<T>(document: Option<Generated<T>>, schema: string): Option<Generated<T>> {
    if document.Some? && document.value.schema == schema then document else None
  }

  function InstalledGaps(target: string, report: Option<Installed>, candidate: string, pairs: seq<Pair>): seq<Gap> {
    if report.None? then [Note(ReportMissing, target)]
    else if report.value.schema != INSTALLED_SCHEMA then [Note(ReportSchema, target)]
    else
      Require(report.value.target == target, Note(ReportTarget, target))
      + Require(Bound(report.value.sourceRevision, candidate, pairs), Note(ReportRevision, target))
      + Require(report.value.status == "pass", Note(ReportStatus, target))
      + Require(report.value.ilp.expected == report.value.ilp.available, Note(ReportIlp, target))
  }

  function UsableReport(report: Option<Installed>): Option<Installed> {
    if report.Some? && report.value.schema == INSTALLED_SCHEMA then report else None
  }

  function BindingGaps(w: World, pinned: string, candidate: string): seq<Gap> {
    if pinned == "" then [Note(MatrixRevisionMissing, "")]
    else if pinned == candidate then []
    else match w.isAncestor(pinned, candidate)
      case None => [Note(MatrixAncestryUnknown, "")]
      case Some(yes) => Require(yes, Note(MatrixNotAnAncestor, ""))
  }

  function MissingSection(text: string, section: string): seq<Gap> {
    Require(Contains(text, section), Note(PolicySectionMissing, section))
  }

  function MissingSections(text: string, sections: seq<string>): seq<Gap> {
    if sections == [] then []
    else MissingSection(text, sections[0]) + MissingSections(text, sections[1..])
  }

  function PolicyGaps(policy: Option<string>): seq<Gap> {
    match policy
    case None => [Note(PolicyMissing, "")]
    case Some(text) => MissingSections(text, POLICY_SECTIONS)
  }

  // ------------------------------------------------------------- MLE plan

  function LoadedPlan(w: World, i: Inputs): Option<Plan> {
    if i.planGiven && i.plan.Some? then w.planOf(i.plan.value) else None
  }

  function PlanBindingGaps(w: World, i: Inputs): seq<Gap> {
    if !i.planGiven then []
    else if i.plan.None? then [Note(PlanMissing, "")]
    else match w.planOf(i.plan.value)
      case None => [Note(PlanInvalid, "")]
      case Some(plan) =>
        if plan.sourceRevision == "" then [Note(PlanRevisionMissing, "")]
        else Require(plan.sourceRevision == i.candidate || w.isAncestor(plan.sourceRevision, i.candidate) == Some(true),
                     Note(PlanNotAnAncestor, ""))
  }

  function DecoderNamed(decoders: seq<Decoder>, name: string): Option<Decoder> {
    if decoders == [] then None
    else if decoders[0].name == name then Some(decoders[0])
    else DecoderNamed(decoders[1..], name)
  }

  predicate MatrixProposesMle(m: Matrix) {
    var d := DecoderNamed(m.decoders, MLE);
    d.Some? && d.value.proposed == PROPOSED
  }

  predicate MatrixPromotesMle(m: Matrix) {
    var d := DecoderNamed(m.decoders, MLE);
    d.Some? && d.value.currentMaturity == "supported"
  }

  predicate MleEnforced(w: World, i: Inputs, m: Matrix) {
    MatrixProposesMle(m) || (LoadedPlan(w, i).Some? && LoadedPlan(w, i).value.proposed == PROPOSED)
  }

  function PlanStateGaps(w: World, i: Inputs, m: Matrix): seq<Gap> {
    Require(!MleEnforced(w, i, m) || LoadedPlan(w, i).Some?, Note(ProposalWithoutPlan, ""))
    + Require(LoadedPlan(w, i).None? || !MatrixPromotesMle(m) || LoadedPlan(w, i).value.current == "supported",
              Note(PromotedAheadOfPlan, ""))
  }

  // ------------------------------------------------------ what was loaded

  /** Everything the decisions depend on; `gaps` blocks every promotion, `mleGaps` only the one of the MLE decoder. */
  datatype Loaded = Loaded(matrix: Matrix, gaps: seq<Gap>, support: Option<SupportDoc>,
                           correctness: Option<CorrectnessDoc>, resources: Option<ResourcesDoc>,
                           targets: seq<string>, installed: map<string, Installed>,
                           plan: Option<Plan>, planText: string, mleEnforced: bool, mleGaps: seq<Gap>,
                           mle: Option<MleDoc>)

  // ------------------------------------------------------------- coverage

  function Successful(cases: seq<ResourceCase>, decoder: string): bool {
    exists c :: c in cases && c.decoder == decoder && c.kind != "failure-semantics" && c.exitCode == 0
      && !c.outputProblems
  }

  function Evicting(cases: seq<ResourceCase>, decoder: string): bool {
    exists c :: c in cases && c.decoder == decoder && c.kind == "cache-eviction"
  }

  function ResourcesGaps(decoder: string, cases: seq<ResourceCase>): seq<Gap> {
    Require(Successful(cases, decoder), Note(NoSuccessfulWorkload, decoder))
    + Require(Evicting(cases, decoder), Note(NoEvictionWorkload, decoder))
  }

  /** Both lists of gaps, unless one of the two computations stops. */
  function Join(a: Result<seq<Gap>, Crash>, b: Result<seq<Gap>, Crash>): Result<seq<Gap>, Crash> {
    match a
    case Err(e) => Err(e)
    case Ok(x) =>
      match b
      case Err(e) => Err(e)
      case Ok(y) => Ok(x + y)
  }

  function ControlGaps(decoder: string, results: seq<Record>, m: Matrix, source: string): Result<seq<Gap>, Crash> {
    match SupportGapsOf(decoder, results, m.controls, source)
    case Err(e) => Err(BadMatrix(e))
    case Ok(gaps) => Ok(gaps)
  }

  function SupportPart(l: Loaded, decoder: string): Result<seq<Gap>, Crash> {
    match l.support
    case None => Ok([Note(SupportUnavailable, "")])
    case Some(report) => ControlGaps(decoder, report.body, l.matrix, "support-matrix")
  }

  function CorrectnessPart(l: Loaded, decoder: string, digest: Digest): seq<Gap> {
    match l.correctness
    case None => [Note(CorrectnessUnavailable, "")]
    case Some(report) => CaseGapsOf(decoder, report.body.cases, digest)
  }

  function ResourcesPart(l: Loaded, decoder: string): seq<Gap> {
    match l.resources
    case None => [Note(ResourcesUnavailable, "")]
    case Some(report) => ResourcesGaps(decoder, report.body)
  }

  function TargetPart(l: Loaded, decoder: string, target: string): Result<seq<Gap>, Crash> {
    if target !in l.installed then Ok([Note(InstalledUnavailable, target)])
    else ControlGaps(decoder, l.installed[target].controls, l.matrix, "installed:" + target)
  }

  function TargetsPart(l: Loaded, decoder: string, targets: seq<string>): Result<seq<Gap>, Crash> {
    if targets == [] then Ok([])
    else Join(TargetsPart(l, decoder, targets[..|targets| - 1]), TargetPart(l, decoder, targets[|targets| - 1]))
  }

  /** What is missing before the evidence exercises this decoder in full. */
  function DecoderCoverageOf(l: Loaded, decoder: string, digest: Digest): Result<seq<Gap>, Crash> {
    Join(Join(SupportPart(l, decoder), Ok(CorrectnessPart(l, decoder, digest) + ResourcesPart(l, decoder))),
         TargetsPart(l, decoder, l.targets))
  }

  method DecoderCoverage(l: Loaded, decoder: string, digest: Digest) returns (r: Result<seq<Gap>, Crash>)
    ensures r == DecoderCoverageOf(l, decoder, digest)
  {
    hide SupportPart, CorrectnessPart, ResourcesPart, TargetPart;
    var support := SupportPart(l, decoder);
    if support.Err? {
      return support;
    }
    var missing := support.value + (CorrectnessPart(l, decoder, digest) + ResourcesPart(l, decoder));
    ghost var second := missing;
    for i := 0 to |l.targets|
      invariant TargetsPart(l, decoder, l.targets[..i]).Ok?
      invariant missing == second + TargetsPart(l, decoder, l.targets[..i]).value
    {
      assert l.targets[..i + 1][..i] == l.targets[..i];
      var part := TargetPart(l, decoder, l.targets[i]);
      if part.Err? {
        TargetsStop(l, decoder, l.targets, i + 1);
        return part;
      }
      missing := missing + part.value;
    }
    assert l.targets[..|l.targets|] == l.targets;
    r := Ok(missing);
  }

  /** The first report that stops the computation stops it for good. */
  lemma {:induction false} TargetsStop(l: Loaded, decoder: string, targets: seq<string>, n: nat)
    requires n <= |targets| && TargetsPart(l, decoder, targets[..n]).Err?
    ensures TargetsPart(l, decoder, targets) == TargetsPart(l, decoder, targets[..n])
    decreases |targets| - n
  {
    hide TargetPart;
    if n == |targets| {
      assert targets[..n] == targets;
    } else {
      assert targets[..n + 1][..n] == targets[..n];
      TargetsStop(l, decoder, targets, n + 1);
    }
  }

  // -------------------------------------------------------- the MLE evidence

  function LastCase(cases: seq<Case>, name: string): Option<Case> {
    if cases == [] then None
    else if cases[|cases| - 1].name == name then Some(cases[|cases| - 1])
    else LastCase(cases[..|cases| - 1], name)
  }

  function LastRecord(records: seq<MleRecord>, id: string): Option<MleRecord> {
    if records == [] then None
    else if records[|records| - 1].id == id then Some(records[|records| - 1])
    else LastRecord(records[..|records| - 1], id)
  }

  function LastResult(results: seq<Record>, control: string): Option<Record> {
    if results == [] then None
    else if results[|results| - 1].control == control && results[|results| - 1].decoder == MLE then
      Some(results[|results| - 1])
    else LastResult(results[..|results| - 1], control)
  }

  function Value(values: map<string, string>, key: string): Option<string> {
    if key in values then Some(values[key]) else None
  }

  predicate AgreeOn(keys: seq<string>, a: map<string, string>, b: map<string, string>) {
    forall key :: key in keys ==> Value(a, key) == Value(b, key)
  }

  const IDENTITY: seq<string> := ["source", "circuit_sha256", "seed"]

  const PARAMS: seq<string> := ["distance", "rounds", "loss_rate", "batch"]

  function CasesOf(l: Loaded): seq<Case> {
    if l.correctness.Some? then l.correctness.value.body.cases else []
  }

  function IdentityGaps(found: Case, identity: map<string, string>, params: string): seq<Gap> {
    Require(AgreeOn(IDENTITY, found.identity, identity), Note(IdentityDiffers, found.name))
    + Require(found.params == params, Note(ParamsDiffer, found.name))
  }

  function EndToEndPart(l: Loaded, c: RequiredCase): seq<Gap>
    requires c.EndToEndCase?
  {
    var found := LastCase(CasesOf(l), c.caseName);
    if found.None? then [Note(RequiredCaseNotExecuted, c.caseName)]
    else if found.value.level != END_TO_END then [Note(NotEndToEnd, c.caseName)]
    else if Lookup(found.value.backends, MLE).None? then [Note(MleNotExecuted, c.caseName)]
    else if found.value.status != "pass" then [Note(CaseNotPassing, c.caseName)]
    else IdentityGaps(found.value, c.identity, c.caseParams)
  }

  function CompilerPart(l: Loaded, c: RequiredCase): seq<Gap>
    requires c.CompilerCase?
  {
    var found := LastCase(CasesOf(l), c.caseName);
    if found.None? then [Note(CompilerCaseNotExecuted, c.caseName)]
    else if found.value.level != "compiler-output-only" then [Note(NotCompilerOnly, c.caseName)]
    else IdentityGaps(found.value, c.identity, c.caseParams)
  }

  function ControlPart(l: Loaded, control: string): seq<Gap> {
    var found := if l.support.Some? then LastResult(l.support.value.body, control) else None;
    Require(found.Some? && found.value.status == "pass", Note(ControlNotPassing, control))
  }

  /** A measured workload; a record without a wall time cannot be reported and stops the gate. */
  function WorkloadPart(l: Loaded, c: RequiredCase): Result<seq<Gap>, Crash>
    requires c.WorkloadCase? && l.mle.Some?
  {
    var found := LastRecord(l.mle.value.body, c.workload);
    if found.None? then Ok([Note(WorkloadNotMeasured, c.workload)])
    else if found.value.wallSeconds.None? then Err(NoWallTime(c.workload))
    else Ok(
      Require(found.value.exitCode == 0 && !found.value.outputProblems, Note(WorkloadFailed, c.workload))
      + Require(found.value.wallSeconds.value <= WALL_BUDGET, Note(WorkloadTooSlow, c.workload))
      + Require(found.value.realCircuit == c.realCircuit, Note(RealCircuitDiffers, c.workload))
      + Require(AgreeOn(PARAMS, found.value.params, c.params), Note(WorkloadParamsDiffer, c.workload)))
  }

  function FailurePart(l: Loaded, workload: string): seq<Gap> {
    var found := if l.mle.Some? then LastRecord(l.mle.value.body, workload) else None;
    if found.None? then [Note(FailureCaseNotExecuted, workload)]
    else if found.value.errorCode != FailureCode(workload) || found.value.completedShots != 0 then
      [Note(FailureOutcomeDiffers, workload)]
    else Require(workload != "fail-mle-solve-timeout" || found.value.outsideTimeout,
                 Note(TimeoutCoversCompilation, workload))
  }

  function PlatformPart(l: Loaded, target: string): seq<Gap> {
    Require(target !in l.installed || (l.installed[target].ilp.expected && l.installed[target].ilp.available),
            Note(ReportNotIlpCapable, target))
  }

  function CasePart(l: Loaded, c: RequiredCase): Result<seq<Gap>, Crash>
    requires c.WorkloadCase? ==> l.mle.Some?
  {
    match c
    case EndToEndCase(_, _, _) => Ok(EndToEndPart(l, c))
    case CompilerCase(_, _, _) => Ok(CompilerPart(l, c))
    case ControlCase(control) => Ok(ControlPart(l, control))
    case WorkloadCase(_, _, _) => WorkloadPart(l, c)
    case FailureCase(workload) => Ok(FailurePart(l, workload))
    case PlatformCase(target) => Ok(PlatformPart(l, target))
  }

  /** The required cases in order; without an MLE report the first workload ends the list. */
  function CasesPart(l: Loaded, cases: seq<RequiredCase>): Result<seq<Gap>, Crash> {
    if cases == [] then Ok([])
    else if cases[0].WorkloadCase? && l.mle.None? then Ok([Note(MleReportUnavailable, "")])
    else Join(CasePart(l, cases[0]), CasesPart(l, cases[1..]))
  }

  function ReplayPart(w: World, l: Loaded): Result<seq<Gap>, Crash> {
    if l.mle.None? then Ok([])
    else match w.replay(l.mle.value, l.planText)
      case None => Err(ReplayFailed)
      case Some(problems) => Ok(seq(|problems|, i requires 0 <= i < |problems| => Note(ReplayProblem, problems[i])))
  }

  function DeclaredWorkloads(plan: Plan): set<string> {
    set c | c in plan.cases && c.WorkloadCase? :: c.workload
  }

  function MlePlanGapsOf(w: World, l: Loaded, plan: Plan): Result<seq<Gap>, Crash> {
    Join(Join(ReplayPart(w, l), Ok(Require(DeclaredWorkloads(plan) == WORKLOADS, Note(WorkloadsDrift, "")))),
         CasesPart(l, plan.cases))
  }

  method MlePlanGaps(w: World, l: Loaded, plan: Plan) returns (r: Result<seq<Gap>, Crash>)
    ensures r == MlePlanGapsOf(w, l, plan)
  {
    hide ReplayPart, DeclaredWorkloads, CasePart;
    var replayed := ReplayPart(w, l);
    if replayed.Err? {
      return replayed;
    }
    var gaps := replayed.value + Require(DeclaredWorkloads(plan) == WORKLOADS, Note(WorkloadsDrift, ""));
    ghost var first := gaps;
    var i := 0;
    while i < |plan.cases|
      invariant i <= |plan.cases|
      invariant Join(Ok(first), CasesPart(l, plan.cases)) == Join(Ok(gaps), CasesPart(l, plan.cases[i..]))
    {
      var c := plan.cases[i];
      assert plan.cases[i..][0] == c && plan.cases[i..][1..] == plan.cases[i + 1..];
      if c.WorkloadCase? && l.mle.None? {
        return Ok(gaps + [Note(MleReportUnavailable, "")]);
      }
      var part := CasePart(l, c);
      JoinAssociates(Ok(gaps), part, CasesPart(l, plan.cases[i + 1..]));
      if part.Err? {
        return part;
      }
      gaps := gaps + part.value;
      i := i + 1;
    }
    assert gaps + [] == gaps;
    r := Ok(gaps);
  }

  lemma {:induction false} JoinAssociates(a: Result<seq<Gap>, Crash>, b: Result<seq<Gap>, Crash>,
                                          c: Result<seq<Gap>, Crash>)
    ensures Join(a, Join(b, c)) == Join(Join(a, b), c)
  {
    if a.Ok? && b.Ok? && c.Ok? {
      assert a.value + (b.value + c.value) == a.value + b.value + c.value;
    }
  }
}
