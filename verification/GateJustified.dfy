/** What a supported decision means: the exact evidence behind it, document by document and case by case. */
module GateJustified {
  import opened Prelude
  import opened Text
  import opened SupportMatrix
  import opened Evidence
  import opened Coverage
  import opened Gate
  import opened GateDecision
  import opened GateLaws

  // ---------------------------------------------------------- one document

  /** A document of the evidence directory that passed and was made for the candidate. */
  predicate DocumentAccepted<T(==)>(document: Option<Generated<T>>, schema: string, i: Inputs) {
    document.Some? && document.value.schema == schema && document.value.status == "pass"
    && Bound(document.value.revision, i.candidate, i.pairs)
  }

  lemma {:induction false} NoGeneratedGapIff<T>(name: string, document: Option<Generated<T>>, schema: string, i: Inputs)
    ensures GeneratedGaps(name, document, schema, i.candidate, i.pairs) == [] <==> DocumentAccepted(document, schema, i)
  {
  }

  /** A revision that is the candidate or one of its ancestors. */
  predicate Precedes(w: World, revision: string, candidate: string) {
    revision != "" && (revision == candidate || w.isAncestor(revision, candidate) == Some(true))
  }

  lemma {:induction false} NoBindingGapIff(w: World, pinned: string, candidate: string)
    ensures BindingGaps(w, pinned, candidate) == [] <==> Precedes(w, pinned, candidate)
  {
  }

  predicate PolicyComplete(policy: Option<string>) {
    policy.Some? && forall section :: section in POLICY_SECTIONS ==> Contains(policy.value, section)
  }

  lemma {:induction false} SectionThereIff(text: string, section: string)
    ensures MissingSection(text, section) == [] <==> Contains(text, section)
  {
    hide Contains;
  }

  lemma {:induction false} NoSectionMissingIff(text: string, sections: seq<string>)
    ensures MissingSections(text, sections) == [] <==> forall section :: section in sections ==> Contains(text, section)
  {
    hide Contains, MissingSection;
    if sections != [] {
      var rest := sections[1..];
      NoSectionMissingIff(text, rest);
      SectionThereIff(text, sections[0]);
      var first, others := MissingSection(text, sections[0]), MissingSections(text, rest);
      assert |first + others| == |first| + |others|;
      assert MissingSections(text, sections) == first + others;
      assert forall s :: s in sections <==> s == sections[0] || s in rest;
    }
  }

  lemma {:induction false} NoPolicyGapIff(policy: Option<string>)
    ensures PolicyGaps(policy) == [] <==> PolicyComplete(policy)
  {
    hide Contains, MissingSections;
    if policy.Some? {
      NoSectionMissingIff(policy.value, POLICY_SECTIONS);
    }
  }

  // ------------------------------------------------------ installed reports

  function InstalledAt(w: World, i: Inputs, target: string): Option<Installed> {
    if InstalledFile(target) in i.dir then w.installedOf(i.dir[InstalledFile(target)]) else None
  }

  /** A report for the target that passed, was made for the candidate, and found the decoders it expected. */
  predicate InstalledAccepted(w: World, i: Inputs, target: string) {
    var report := InstalledAt(w, i, target);
    && report.Some? && report.value.schema == INSTALLED_SCHEMA && report.value.target == target
    && Bound(report.value.sourceRevision, i.candidate, i.pairs) && report.value.status == "pass"
    && report.value.ilp.expected == report.value.ilp.available
  }

  lemma {:induction false} NoReportGapIff(w: World, i: Inputs, target: string)
    requires ReadReport(w, i.dir, target).Ok?
    ensures ReadReport(w, i.dir, target).value == InstalledAt(w, i, target)
    ensures InstalledGaps(target, InstalledAt(w, i, target), i.candidate, i.pairs) == [] <==>
      InstalledAccepted(w, i, target)
  {
    hide InstalledFile, Bound;
  }

  lemma {:induction false} NoReportGapsIff(w: World, i: Inputs, targets: seq<string>)
    requires ReadReports(w, i, targets).Ok?
    ensures ReadReports(w, i, targets).value.gaps == [] <==> forall t :: t in targets ==> InstalledAccepted(w, i, t)
  {
    hide InstalledGaps, InstalledAt, ReadReport, InstalledAccepted, Keep;
    if targets != [] {
      var front, t := targets[..|targets| - 1], targets[|targets| - 1];
      NoReportGapsIff(w, i, front);
      NoReportGapIff(w, i, t);
      assert forall x :: x in targets <==> x in front || x == t;
    }
  }

  // ------------------------------------------------------ the shared evidence

  /** Everything that every promotion rests on. */
  ghost predicate SharedEvidence(w: World, i: Inputs, l: Loaded) {
    && Precedes(w, l.matrix.sourceRevision, i.candidate) && PolicyComplete(i.policy) && i.retainedGaps == []
    && DocumentAccepted(l.support, SUPPORT_SCHEMA, i) && DocumentAccepted(l.correctness, CORRECTNESS_SCHEMA, i)
    && DocumentAccepted(l.resources, RESOURCES_SCHEMA, i)
    && SummaryOk(l.correctness.value.body)
    && forall t :: t in i.targets ==> InstalledAccepted(w, i, t)
  }

  lemma {:induction false} UsableIsAccepted<T>(document: Option<Generated<T>>, schema: string, i: Inputs)
    ensures DocumentAccepted(Usable(document, schema), schema, i) <==> DocumentAccepted(document, schema, i)
    ensures DocumentAccepted(document, schema, i) ==> Usable(document, schema) == document
  {
  }

  lemma {:induction false} AllEmpty(a: seq<Gap>, b: seq<Gap>, c: seq<Gap>, d: seq<Gap>, e: seq<Gap>, f: seq<Gap>,
                                    g: seq<Gap>, h: seq<Gap>)
    ensures a + b + c + d + e + f + g + h == [] <==>
      a == [] && b == [] && c == [] && d == [] && e == [] && f == [] && g == [] && h == []
  {
    assert |a + b + c + d + e + f + g + h| == |a| + |b| + |c| + |d| + |e| + |f| + |g| + |h|;
  }

  lemma {:induction false} NoSharedGapIff(w: World, i: Inputs, m: Matrix, g: Generic, reports: Reports)
    requires ReadReports(w, i, i.targets) == Ok(reports)
    ensures SharedGaps(w, i, m, g.support, g.correctness, g.resources, reports) == [] <==>
      && Precedes(w, m.sourceRevision, i.candidate) && PolicyComplete(i.policy) && i.retainedGaps == []
      && DocumentAccepted(g.support, SUPPORT_SCHEMA, i) && DocumentAccepted(g.correctness, CORRECTNESS_SCHEMA, i)
      && DocumentAccepted(g.resources, RESOURCES_SCHEMA, i)
      && SummaryOk(g.correctness.value.body)
      && forall t :: t in i.targets ==> InstalledAccepted(w, i, t)
  {
    hide BindingGaps, PolicyGaps, GeneratedGaps, SummaryGaps, Bound, ReadReports, InstalledAccepted, Precedes;
    hide PolicyComplete, SummaryOk;
    var binding, policy := BindingGaps(w, m.sourceRevision, i.candidate), PolicyGaps(i.policy);
    var a := GeneratedGaps("support", g.support, SUPPORT_SCHEMA, i.candidate, i.pairs);
    var b := GeneratedGaps("correctness", g.correctness, CORRECTNESS_SCHEMA, i.candidate, i.pairs);
    var c := GeneratedGaps("resources", g.resources, RESOURCES_SCHEMA, i.candidate, i.pairs);
    var summary := SummaryPart(Usable(g.correctness, CORRECTNESS_SCHEMA));
    AllEmpty(binding, policy, i.retainedGaps, a, b, c, summary, reports.gaps);
    NoBindingGapIff(w, m.sourceRevision, i.candidate);
    NoPolicyGapIff(i.policy);
    NoGeneratedGapIff("support", g.support, SUPPORT_SCHEMA, i);
    NoGeneratedGapIff("correctness", g.correctness, CORRECTNESS_SCHEMA, i);
    NoGeneratedGapIff("resources", g.resources, RESOURCES_SCHEMA, i);
    NoReportGapsIff(w, i, i.targets);
    if g.correctness.Some? {
      NoSummaryGapIff(g.correctness.value.body);
    }
  }

  /** The shared evidence has no gap exactly when all of it is there, passed and belongs to the candidate. */
  lemma {:induction false} SharedEvidenceIff(w: World, i: Inputs, l: Loaded)
    requires Load(w, i) == Ok(l)
    ensures l.gaps == [] <==> SharedEvidence(w, i, l)
  {
    hide ReadMatrix, ReadGeneric, ReadMle, ReadReports, SharedGaps, MleOnlyGaps, Bound, LoadedPlan, MleEnforced;
    hide DocumentAccepted;
    hide Precedes, PolicyComplete, SummaryOk, InstalledAccepted, Usable;
    var m, g, reports := ReadMatrix(w, i).value, ReadGeneric(w, i).value, ReadReports(w, i, i.targets).value;
    NoSharedGapIff(w, i, m, g, reports);
    UsableIsAccepted(g.support, SUPPORT_SCHEMA, i);
    UsableIsAccepted(g.correctness, CORRECTNESS_SCHEMA, i);
    UsableIsAccepted(g.resources, RESOURCES_SCHEMA, i);
    SomeIfAccepted(g.correctness, CORRECTNESS_SCHEMA, i);
  }

  lemma {:induction false} SomeIfAccepted<T>(document: Option<Generated<T>>, schema: string, i: Inputs)
    ensures DocumentAccepted(document, schema, i) ==> document.Some?
  {
  }

  // ------------------------------------------------------------- the MLE plan

  predicate Identified(found: Case, identity: map<string, string>, params: string) {
    AgreeOn(IDENTITY, found.identity, identity) && found.params == params
  }

  /** An end-to-end case that ran the MLE decoder, passed, and is the pinned one. */
  predicate EndToEndMet(l: Loaded, c: RequiredCase)
    requires c.EndToEndCase?
  {
    var found := LastCase(CasesOf(l), c.caseName);
    && found.Some? && found.value.level == END_TO_END && Lookup(found.value.backends, MLE).Some?
    && found.value.status == "pass" && Identified(found.value, c.identity, c.caseParams)
  }

  predicate CompilerMet(l: Loaded, c: RequiredCase)
    requires c.CompilerCase?
  {
    var found := LastCase(CasesOf(l), c.caseName);
    found.Some? && found.value.level == "compiler-output-only" && Identified(found.value, c.identity, c.caseParams)
  }

  predicate ControlMet(l: Loaded, control: string) {
    var found := if l.support.Some? then LastResult(l.support.value.body, control) else None;
    found.Some? && found.value.status == "pass"
  }

  /** A workload that was measured cleanly, within the budget, with the pinned parameters. */
  predicate WorkloadMet(l: Loaded, c: RequiredCase)
    requires c.WorkloadCase? && l.mle.Some?
  {
    var found := LastRecord(l.mle.value.body, c.workload);
    && found.Some? && found.value.exitCode == 0 && !found.value.outputProblems
    && found.value.wallSeconds.Some? && found.value.wallSeconds.value <= WALL_BUDGET
    && found.value.realCircuit == c.realCircuit && AgreeOn(PARAMS, found.value.params, c.params)
  }

  predicate FailureMet(l: Loaded, workload: string) {
    var found := if l.mle.Some? then LastRecord(l.mle.value.body, workload) else None;
    && found.Some? && found.value.errorCode == FailureCode(workload) && found.value.completedShots == 0
    && (workload == "fail-mle-solve-timeout" ==> found.value.outsideTimeout)
  }

  predicate PlatformMet(l: Loaded, target: string) {
    target in l.installed ==> l.installed[target].ilp.expected && l.installed[target].ilp.available
  }

  /** The required case is met by evidence of its own kind. */
  predicate CaseMet(l: Loaded, c: RequiredCase)
    requires l.mle.Some?
  {
    match c
    case EndToEndCase(_, _, _) => EndToEndMet(l, c)
    case CompilerCase(_, _, _) => CompilerMet(l, c)
    case ControlCase(control) => ControlMet(l, control)
    case WorkloadCase(_, _, _) => WorkloadMet(l, c)
    case FailureCase(workload) => FailureMet(l, workload)
    case PlatformCase(target) => PlatformMet(l, target)
  }

  lemma {:induction false} WorkloadMetIff(l: Loaded, c: RequiredCase)
    requires c.WorkloadCase? && l.mle.Some?
    ensures WorkloadPart(l, c) == Ok([]) <==> WorkloadMet(l, c)
  {
    hide AgreeOn, LastRecord;
  }

  lemma {:induction false} CorrectnessMetIff(l: Loaded, c: RequiredCase)
    ensures c.EndToEndCase? ==> (EndToEndPart(l, c) == [] <==> EndToEndMet(l, c))
    ensures c.CompilerCase? ==> (CompilerPart(l, c) == [] <==> CompilerMet(l, c))
  {
    hide AgreeOn, LastCase, Lookup;
  }

  lemma {:induction false} OthersMetIff(l: Loaded, c: RequiredCase)
    ensures c.ControlCase? ==> (ControlPart(l, c.control) == [] <==> ControlMet(l, c.control))
    ensures c.FailureCase? ==> (FailurePart(l, c.workload) == [] <==> FailureMet(l, c.workload))
    ensures c.PlatformCase? ==> (PlatformPart(l, c.target) == [] <==> PlatformMet(l, c.target))
  {
    hide LastRecord, LastResult, FailureCode;
  }

  lemma {:induction false} CaseMetIff(l: Loaded, c: RequiredCase)
    requires l.mle.Some?
    ensures CasePart(l, c) == Ok([]) <==> CaseMet(l, c)
  {
    hide EndToEndPart, EndToEndMet, CompilerPart, CompilerMet, ControlPart, ControlMet, WorkloadPart, WorkloadMet;
    hide FailurePart, FailureMet, PlatformPart, PlatformMet;
    CorrectnessMetIff(l, c);
    OthersMetIff(l, c);
    if c.WorkloadCase? {
      WorkloadMetIff(l, c);
    }
  }

  lemma {:induction false} CasesMetIff(l: Loaded, cases: seq<RequiredCase>)
    requires l.mle.Some?
    ensures CasesPart(l, cases) == Ok([]) <==> forall c :: c in cases ==> CaseMet(l, c)
  {
    hide CasePart, CaseMet;
    if cases != [] {
      CasesMetIff(l, cases[1..]);
      CaseMetIff(l, cases[0]);
      JoinNothingIff(CasePart(l, cases[0]), CasesPart(l, cases[1..]));
      assert forall c :: c in cases <==> c == cases[0] || c in cases[1..];
    }
  }

  /** Without an MLE report a required workload leaves a gap. */
  lemma {:induction false} WorkloadNeedsReport(l: Loaded, cases: seq<RequiredCase>)
    requires l.mle.None? && exists c :: c in cases && c.WorkloadCase?
    ensures CasesPart(l, cases) != Ok([])
  {
    hide CasePart;
    if cases != [] && !cases[0].WorkloadCase? {
      var c :| c in cases && c.WorkloadCase?;
      assert c in cases[1..];
      WorkloadNeedsReport(l, cases[1..]);
      JoinNothingIff(CasePart(l, cases[0]), CasesPart(l, cases[1..]));
    }
  }

  /** The plan is fulfilled: the report replays without a problem, and every required case is met. */
  predicate Fulfilled(w: World, l: Loaded, plan: Plan) {
    && DeclaredWorkloads(plan) == WORKLOADS && l.mle.Some?
    && w.replay(l.mle.value, l.planText) == Some([])
    && forall c :: c in plan.cases ==> CaseMet(l, c)
  }

  lemma {:induction false} NoReplayGapIff(w: World, l: Loaded)
    ensures ReplayPart(w, l) == Ok([]) <==> (l.mle.Some? ==> w.replay(l.mle.value, l.planText) == Some([]))
  {
    if l.mle.Some? && w.replay(l.mle.value, l.planText).Some? {
      var problems := w.replay(l.mle.value, l.planText).value;
      assert |ReplayPart(w, l).value| == |problems|;
    }
  }

  lemma {:induction false} DeclaredMeansRequired(plan: Plan)
    requires DeclaredWorkloads(plan) == WORKLOADS
    ensures exists c :: c in plan.cases && c.WorkloadCase?
  {
    assert "mle-eviction-wires24" in WORKLOADS;
    assert "mle-eviction-wires24" in DeclaredWorkloads(plan);
  }

  /** The MLE plan has no gap exactly when it is fulfilled, every required case by evidence of its own kind. */
  lemma {:induction false} NoPlanGapIff(w: World, l: Loaded, plan: Plan)
    ensures MlePlanGapsOf(w, l, plan) == Ok([]) <==> Fulfilled(w, l, plan)
  {
    hide CasesPart, CaseMet, DeclaredWorkloads, ReplayPart;
    var second: Result<seq<Gap>, Crash> := Ok(Require(DeclaredWorkloads(plan) == WORKLOADS, Note(WorkloadsDrift, "")));
    JoinNothingIff(ReplayPart(w, l), second);
    JoinNothingIff(Join(ReplayPart(w, l), second), CasesPart(l, plan.cases));
    NoReplayGapIff(w, l);
    if l.mle.Some? {
      CasesMetIff(l, plan.cases);
    } else if DeclaredWorkloads(plan) == WORKLOADS {
      DeclaredMeansRequired(plan);
      WorkloadNeedsReport(l, plan.cases);
    }
  }

  // ------------------------------------------------------------- MLE alone

  /** The plan of the MLE decoder can be read and belongs to the candidate. */
  predicate PlanAccepted(w: World, i: Inputs) {
    i.planGiven ==> LoadedPlan(w, i).Some? && Precedes(w, LoadedPlan(w, i).value.sourceRevision, i.candidate)
  }

  predicate MleAccepted(w: World, i: Inputs, m: Matrix, mle: Option<MleDoc>) {
    && PlanAccepted(w, i)
    && (MleEnforced(w, i, m) ==> LoadedPlan(w, i).Some? && DocumentAccepted(mle, MLE_SCHEMA, i))
    && (LoadedPlan(w, i).Some? && MatrixPromotesMle(m) ==> LoadedPlan(w, i).value.current == "supported")
  }

  lemma {:induction false} NoPlanBindingGapIff(w: World, i: Inputs)
    ensures PlanBindingGaps(w, i) == [] <==> PlanAccepted(w, i)
  {
  }

  lemma {:induction false} NoMleGapIff(w: World, i: Inputs, m: Matrix, mle: Option<MleDoc>)
    ensures MleOnlyGaps(w, i, m, mle) == [] <==> MleAccepted(w, i, m, mle)
  {
    hide PlanBindingGaps, PlanAccepted, GeneratedGaps, DocumentAccepted, MleEnforced, MatrixPromotesMle, LoadedPlan;
    NoPlanBindingGapIff(w, i);
    NoGeneratedGapIff("mle-resources", mle, MLE_SCHEMA, i);
    var a, b := PlanBindingGaps(w, i), PlanStateGaps(w, i, m);
    var c := if MleEnforced(w, i, m) then GeneratedGaps("mle-resources", mle, MLE_SCHEMA, i.candidate, i.pairs) else [];
    assert |a + b + c| == |a| + |b| + |c|;
  }

  /** What the gate loaded for the MLE decoder. */
  ghost predicate MleLoaded(w: World, i: Inputs, l: Loaded, mle: Option<MleDoc>) {
    && l.mleEnforced == MleEnforced(w, i, l.matrix) && ReadMle(w, i, l.matrix) == Ok(mle)
    && l.mleGaps == MleOnlyGaps(w, i, l.matrix, mle) && l.mle == Usable(mle, MLE_SCHEMA)
    && l.plan == LoadedPlan(w, i)
  }

  lemma {:induction false} LoadsMle(w: World, i: Inputs, l: Loaded) returns (mle: Option<MleDoc>)
    requires Load(w, i) == Ok(l)
    ensures MleLoaded(w, i, l, mle)
  {
    hide ReadMatrix, ReadGeneric, ReadMle, ReadReports, SharedGaps, MleOnlyGaps, LoadedPlan, MleEnforced;
    mle := ReadMle(w, i, l.matrix).value;
  }

  // ----------------------------------------------------------- the decision

  /** The plan, the MLE report and every case they require. */
  ghost predicate MleJustified(w: World, i: Inputs, l: Loaded) {
    && PlanAccepted(w, i)
    && (MleEnforced(w, i, l.matrix) ==> LoadedPlan(w, i).Some? && DocumentAccepted(l.mle, MLE_SCHEMA, i))
    && (LoadedPlan(w, i).Some? && MatrixPromotesMle(l.matrix) ==> LoadedPlan(w, i).value.current == "supported")
    && (LoadedPlan(w, i).Some? ==> Fulfilled(w, l, LoadedPlan(w, i).value))
  }

  lemma {:induction false} MleJustifiedIff(w: World, i: Inputs, l: Loaded)
    requires Load(w, i) == Ok(l)
    ensures l.mleGaps == [] && (l.plan.Some? ==> MlePlanGapsOf(w, l, l.plan.value) == Ok([])) <==> MleJustified(w, i, l)
  {
    hide Load, MleOnlyGaps, PlanAccepted, MleEnforced, MatrixPromotesMle, LoadedPlan, DocumentAccepted, Fulfilled;
    hide MlePlanGapsOf;
    hide Usable, ReadMle;
    var mle := LoadsMle(w, i, l);
    NoMleGapIff(w, i, l.matrix, mle);
    UsableIsAccepted(mle, MLE_SCHEMA, i);
    if l.plan.Some? {
      NoPlanGapIff(w, l, l.plan.value);
    }
  }

  /** Everything that stands behind a supported decision. */
  ghost predicate Justified(w: World, i: Inputs, l: Loaded, d: Decoder) {
    && Proposal(l, d) == PROPOSED
    && SharedEvidence(w, i, l)
    && FullyCovered(l, d.name, w.digest)
    && (d.name == MLE ==> MleJustified(w, i, l))
  }

  /**
   A decoder is supported exactly when it is proposed, every document is there, passed and belongs to the candidate,
   every control of every report passed, every correctness case is sound, and for envelope-mle its plan is fulfilled.
  */
  lemma {:induction false} SupportedIffJustified(w: World, i: Inputs, l: Loaded, k: nat)
    requires Load(w, i) == Ok(l) && EvaluateOf(w, i).Ok? && k < |l.matrix.decoders|
    ensures |EvaluateOf(w, i).value.decoders| == |l.matrix.decoders|
    ensures EvaluateOf(w, i).value.decoders[k].value.decision == "supported" <==>
      Justified(w, i, l, l.matrix.decoders[k])
  {
    hide Load, DecisionOf, Decide, SharedEvidence, FullyCovered, DecoderCoverageOf, MlePlanGapsOf, MleJustified;
    hide Proposal;
    hide EvidenceShas, InstalledRefs;
    var d := l.matrix.decoders[k];
    Decided(w, l, l.matrix.decoders);
    SupportedIff(w, l, d);
    SharedEvidenceIff(w, i, l);
    NoCoverageGapIff(l, d.name, w.digest);
    MleJustifiedIff(w, i, l);
  }
}
