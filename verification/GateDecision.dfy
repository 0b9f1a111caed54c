/** `evaluate`: the decision of the release gate for every decoder of the matrix. */
module GateDecision {
  import opened Prelude
  import opened SupportMatrix
  import opened Evidence
  import opened Coverage
  import opened Gate

  const MLE_FILE := "mle-resources.json"

  function InstalledFile(target: string): string {
    "installed-" + target + ".json"
  }

  // -------------------------------------------------------------- loading

  function ReadReport(w: World, dir: map<string, string>, target: string): Result<Option<Installed>, Crash> {
    Read(dir, InstalledFile(target), w.installedOf)
  }

  function Keep(reports: map<string, Installed>, target: string, report: Option<Installed>): map<string, Installed> {
    match UsableReport(report)
    case None => reports
    case Some(r) => reports[target := r]
  }

  /** The usable reports by target, with the gaps of all of them. */
  datatype Reports = Reports(reports: map<string, Installed>, gaps: seq<Gap>)

  function ReadReports(w: World, i: Inputs, targets: seq<string>): Result<Reports, Crash> {
    if targets == [] then Ok(Reports(map[], []))
    else match ReadReports(w, i, targets[..|targets| - 1])
      case Err(e) => Err(e)
      case Ok(before) =>
        var target := targets[|targets| - 1];
        match ReadReport(w, i.dir, target)
        case Err(e) => Err(e)
        case Ok(report) => Ok(Reports(Keep(before.reports, target, report),
                                      before.gaps + InstalledGaps(target, report, i.candidate, i.pairs)))
  }

  function SummaryPart(correctness: Option<CorrectnessDoc>): seq<Gap> {
    if correctness.Some? then SummaryGaps(correctness.value.body) else []
  }

  /** The gaps that every decoder shares. */
  function SharedGaps(w: World, i: Inputs, m: Matrix, support: Option<SupportDoc>, correctness: Option<CorrectnessDoc>,
                      resources: Option<ResourcesDoc>, reports: Reports): seq<Gap> {
    BindingGaps(w, m.sourceRevision, i.candidate) + PolicyGaps(i.policy) + i.retainedGaps
    + GeneratedGaps("support", support, SUPPORT_SCHEMA, i.candidate, i.pairs)
    + GeneratedGaps("correctness", correctness, CORRECTNESS_SCHEMA, i.candidate, i.pairs)
    + GeneratedGaps("resources", resources, RESOURCES_SCHEMA, i.candidate, i.pairs)
    + SummaryPart(Usable(correctness, CORRECTNESS_SCHEMA))
    + reports.gaps
  }

  function MleOnlyGaps(w: World, i: Inputs, m: Matrix, mle: Option<MleDoc>): seq<Gap> {
    PlanBindingGaps(w, i) + PlanStateGaps(w, i, m)
    + if MleEnforced(w, i, m) then GeneratedGaps("mle-resources", mle, MLE_SCHEMA, i.candidate, i.pairs) else []
  }

  function ReadMle(w: World, i: Inputs, m: Matrix): Result<Option<MleDoc>, Crash> {
    if MleEnforced(w, i, m) then Read(i.dir, MLE_FILE, w.mleOf) else Ok(None)
  }

  function ReadMatrix(w: World, i: Inputs): Result<Matrix, Crash> {
    match w.matrixOf(i.matrix)
    case None => Err(Malformed("matrix"))
    case Some(m) => if Valid(m) then Ok(m) else Err(InvalidMatrix)
  }

  datatype Generic = Generic(support: Option<SupportDoc>, correctness: Option<CorrectnessDoc>,
                             resources: Option<ResourcesDoc>)

  function ReadGeneric(w: World, i: Inputs): Result<Generic, Crash> {
    match Read(i.dir, "support.json", w.supportOf)
    case Err(e) => Err(e)
    case Ok(support) =>
      match Read(i.dir, "correctness.json", w.correctnessOf)
      case Err(e) => Err(e)
      case Ok(correctness) =>
        match Read(i.dir, "resources.json", w.resourcesOf)
        case Err(e) => Err(e)
        case Ok(resources) => Ok(Generic(support, correctness, resources))
  }

  function Assemble(w: World, i: Inputs, m: Matrix, g: Generic, mle: Option<MleDoc>, reports: Reports): Loaded {
    Loaded(m, SharedGaps(w, i, m, g.support, g.correctness, g.resources, reports),
           Usable(g.support, SUPPORT_SCHEMA), Usable(g.correctness, CORRECTNESS_SCHEMA),
           Usable(g.resources, RESOURCES_SCHEMA), i.targets, reports.reports,
           LoadedPlan(w, i), if LoadedPlan(w, i).Some? then i.plan.value else "", MleEnforced(w, i, m),
           MleOnlyGaps(w, i, m, mle), Usable(mle, MLE_SCHEMA))
  }

  function Load(w: World, i: Inputs): Result<Loaded, Crash> {
    match ReadMatrix(w, i)
    case Err(e) => Err(e)
    case Ok(m) =>
      match ReadGeneric(w, i)
      case Err(e) => Err(e)
      case Ok(g) =>
        match ReadMle(w, i, m)
        case Err(e) => Err(e)
        case Ok(mle) =>
          match ReadReports(w, i, i.targets)
          case Err(e) => Err(e)
          case Ok(reports) => Ok(Assemble(w, i, m, g, mle, reports))
  }

  // ------------------------------------------------------------- deciding

  /** The MLE decoder is also proposed by its scope plan. */
  function Proposal(l: Loaded, d: Decoder): string {
    if d.name == MLE && l.mleEnforced then PROPOSED else d.proposed
  }

  function MlePart(w: World, l: Loaded): Result<seq<Gap>, Crash> {
    match l.plan
    case None => Ok(l.mleGaps)
    case Some(plan) => Join(Ok(l.mleGaps), MlePlanGapsOf(w, l, plan))
  }

  function OwnPart(w: World, l: Loaded, name: string): Result<seq<Gap>, Crash> {
    if name == MLE then MlePart(w, l) else Ok([])
  }

  function Verdict(l: Loaded, d: Decoder, coverage: seq<Gap>, own: seq<Gap>): Decision {
    if Proposal(l, d) != PROPOSED then Decision(d.currentMaturity, Proposal(l, d), "beta", coverage, [])
    else
      var blocking := coverage + l.gaps + own;
      Decision(d.currentMaturity, PROPOSED, if blocking == [] then "supported" else "beta", coverage, blocking)
  }

  function DecisionOf(w: World, l: Loaded, d: Decoder): Result<Decision, Crash> {
    match DecoderCoverageOf(l, d.name, w.digest)
    case Err(e) => Err(e)
    case Ok(coverage) =>
      match if Proposal(l, d) == PROPOSED then OwnPart(w, l, d.name) else Ok([])
      case Err(e) => Err(e)
      case Ok(own) => Ok(Verdict(l, d, coverage, own))
  }

  function Decide(w: World, l: Loaded, decoders: seq<Decoder>): Result<seq<Named<Decision>>, Crash> {
    if decoders == [] then Ok([])
    else match Decide(w, l, decoders[..|decoders| - 1])
      case Err(e) => Err(e)
      case Ok(before) =>
        var d := decoders[|decoders| - 1];
        match DecisionOf(w, l, d)
        case Err(e) => Err(e)
        case Ok(decision) => Ok(before + [Named(d.name, decision)])
  }

  function HeldGap(d: Named<Decision>): seq<Gap> {
    Require(d.value.blocking == [], Note(HeldAtBeta, d.name))
  }

  function HeldGaps(decisions: seq<Named<Decision>>): seq<Gap> {
    if decisions == [] then []
    else HeldGaps(decisions[..|decisions| - 1]) + HeldGap(decisions[|decisions| - 1])
  }

  predicate HasUsable(l: Loaded, name: EvidenceName) {
    match name
    case SupportEvidence => l.support.Some?
    case CorrectnessEvidence => l.correctness.Some?
    case ResourcesEvidence => l.resources.Some?
    case MleEvidence => l.mle.Some?
  }

  function EvidenceShas(w: World, i: Inputs, l: Loaded): map<EvidenceName, string> {
    map name | name in NAMES && HasUsable(l, name) && FileOf(name) in i.dir :: w.hash(i.dir[FileOf(name)])
  }

  function InstalledRefs(w: World, i: Inputs, l: Loaded): map<string, InstalledRef> {
    map target | target in l.installed && InstalledFile(target) in i.dir ::
      InstalledRef(w.hash(i.dir[InstalledFile(target)]), w.hash(w.portableText(Portable(l.installed[target]))))
  }

  function ReportFor(w: World, i: Inputs, l: Loaded, decisions: seq<Named<Decision>>): GateReport {
    var gaps := l.gaps + HeldGaps(decisions);
    GateReport(GATE_SCHEMA, i.candidate, i.targets, w.hash(i.matrix),
               if i.policy.Some? then w.hash(i.policy.value) else "", i.retained,
               if l.plan.Some? then w.hash(l.planText) else "",
               EvidenceShas(w, i, l), InstalledRefs(w, i, l), decisions, if gaps == [] then "pass" else "fail", gaps)
  }

  function EvaluateOf(w: World, i: Inputs): Result<GateReport, Crash> {
    match Load(w, i)
    case Err(e) => Err(e)
    case Ok(l) =>
      match Decide(w, l, l.matrix.decoders)
      case Err(e) => Err(e)
      case Ok(decisions) => Ok(ReportFor(w, i, l, decisions))
  }

  // ------------------------------------------------------------ the method

  method LoadReports(w: World, i: Inputs) returns (r: Result<Reports, Crash>)
    ensures r == ReadReports(w, i, i.targets)
  {
    hide InstalledGaps, ReadReport;
    var reports: map<string, Installed> := map[];
    var gaps: seq<Gap> := [];
    for k := 0 to |i.targets|
      invariant ReadReports(w, i, i.targets[..k]) == Ok(Reports(reports, gaps))
    {
      var target := i.targets[k];
      assert i.targets[..k + 1][..k] == i.targets[..k];
      var read := ReadReport(w, i.dir, target);
      if read.Err? {
        ReportsStop(w, i, k + 1);
        return Err(read.error);
      }
      var usable := UsableReport(read.value);
      if usable.Some? {
        reports := reports[target := usable.value];
      }
      gaps := gaps + InstalledGaps(target, read.value, i.candidate, i.pairs);
    }
    assert i.targets[..|i.targets|] == i.targets;
    r := Ok(Reports(reports, gaps));
  }

  lemma {:induction false} ReportsStop(w: World, i: Inputs, n: nat)
    requires n <= |i.targets| && ReadReports(w, i, i.targets[..n]).Err?
    ensures ReadReports(w, i, i.targets) == ReadReports(w, i, i.targets[..n])
    decreases |i.targets| - n
  {
    hide InstalledGaps, ReadReport;
    if n == |i.targets| {
      assert i.targets[..n] == i.targets;
    } else {
      assert i.targets[..n + 1][..n] == i.targets[..n];
      ReportsStop(w, i, n + 1);
    }
  }

  method Evaluate(w: World, i: Inputs) returns (r: Result<GateReport, Crash>)
    ensures r == EvaluateOf(w, i)
  {
    hide Valid, ReadGeneric, ReadMle, ReadReports, Assemble, ReportFor, MlePlanGapsOf, DecoderCoverageOf, HeldGap;
    var parsed := w.matrixOf(i.matrix);
    if parsed.None? {
      return Err(Malformed("matrix"));
    }
    var m := parsed.value;
    var valid := ValidateMatrix(m);
    if valid.Err? {
      return Err(InvalidMatrix);
    }
    var generic := ReadGeneric(w, i);
    if generic.Err? {
      return Err(generic.error);
    }
    var mle := ReadMle(w, i, m);
    if mle.Err? {
      return Err(mle.error);
    }
    var reports := LoadReports(w, i);
    if reports.Err? {
      return Err(reports.error);
    }
    var l := Assemble(w, i, m, generic.value, mle.value, reports.value);
    assert Load(w, i) == Ok(l);
    AssembledMatrix(w, i, m, generic.value, mle.value, reports.value);
    var decisions: seq<Named<Decision>> := [];
    for k := 0 to |m.decoders|
      invariant Decide(w, l, m.decoders[..k]) == Ok(decisions)
    {
      var d := m.decoders[k];
      assert m.decoders[..k + 1][..k] == m.decoders[..k];
      var decision := DecideOne(w, l, d);
      if decision.Err? {
        DecideStops(w, l, m.decoders, k + 1);
        return Err(decision.error);
      }
      decisions := decisions + [Named(d.name, decision.value)];
    }
    assert m.decoders[..|m.decoders|] == m.decoders;
    r := Ok(ReportFor(w, i, l, decisions));
  }

  method DecideOne(w: World, l: Loaded, d: Decoder) returns (r: Result<Decision, Crash>)
    ensures r == DecisionOf(w, l, d)
  {
    hide MlePlanGapsOf, DecoderCoverageOf;
    var coverage := DecoderCoverage(l, d.name, w.digest);
    if coverage.Err? {
      return Err(coverage.error);
    }
    var own: seq<Gap> := [];
    if Proposal(l, d) == PROPOSED && d.name == MLE {
      own := l.mleGaps;
      if l.plan.Some? {
        var gaps := MlePlanGaps(w, l, l.plan.value);
        if gaps.Err? {
          return Err(gaps.error);
        }
        own := own + gaps.value;
      }
    }
    r := Ok(Verdict(l, d, coverage.value, own));
  }

  lemma {:induction false} AssembledMatrix(w: World, i: Inputs, m: Matrix, g: Generic, mle: Option<MleDoc>,
                                           reports: Reports)
    ensures Assemble(w, i, m, g, mle, reports).matrix == m
  {
  }

  lemma {:induction false} DecideStops(w: World, l: Loaded, decoders: seq<Decoder>, n: nat)
    requires n <= |decoders| && Decide(w, l, decoders[..n]).Err?
    ensures Decide(w, l, decoders) == Decide(w, l, decoders[..n])
    decreases |decoders| - n
  {
    hide DecisionOf;
    if n == |decoders| {
      assert decoders[..n] == decoders;
    } else {
      assert decoders[..n + 1][..n] == decoders[..n];
      DecideStops(w, l, decoders, n + 1);
    }
  }
}
