/** Laws of the release gate: what a supported decision means, and what it does not depend on. */
module GateLaws {
  import opened Prelude
  import opened SupportMatrix
  import opened SupportGate
  import opened Evidence
  import opened Coverage
  import opened Gate
  import opened GateDecision

  lemma {:induction false} JoinNothingIff(a: Result<seq<Gap>, Crash>, b: Result<seq<Gap>, Crash>)
    ensures Join(a, b) == Ok([]) <==> a == Ok([]) && b == Ok([])
    ensures Join(a, b).Ok? <==> a.Ok? && b.Ok?
  {
    if a.Ok? && b.Ok? {
      assert |a.value + b.value| == |a.value| + |b.value|;
    }
  }

  // --------------------------------------------------------------- soundness

  /** Nothing that concerns this decoder alone stands in the way. */
  predicate OwnEvidence(w: World, l: Loaded, d: Decoder) {
    && DecoderCoverageOf(l, d.name, w.digest) == Ok([])
    && (d.name == MLE ==> l.mleGaps == [] && (l.plan.Some? ==> MlePlanGapsOf(w, l, l.plan.value) == Ok([])))
  }

  /** A decoder is supported exactly when it is proposed, the shared evidence has no gap and its own has none. */
  lemma {:induction false} SupportedIff(w: World, l: Loaded, d: Decoder)
    requires DecisionOf(w, l, d).Ok?
    ensures DecisionOf(w, l, d).value.decision == "supported" <==>
      Proposal(l, d) == PROPOSED && l.gaps == [] && OwnEvidence(w, l, d)
  {
    hide DecoderCoverageOf, MlePlanGapsOf;
    if l.plan.Some? {
      JoinNothingIff(Ok(l.mleGaps), MlePlanGapsOf(w, l, l.plan.value));
    }
    var v := DecisionOf(w, l, d).value;
    assert v.decision == "supported" || v.decision == "beta";
    if Proposal(l, d) == PROPOSED {
      assert v.decision == "supported" <==> v.blocking == [];
    }
  }

  lemma {:induction false} BlockedIff(w: World, l: Loaded, d: Decoder)
    requires DecisionOf(w, l, d).Ok?
    ensures var v := DecisionOf(w, l, d).value;
      v.blocking == [] <==> (Proposal(l, d) == PROPOSED ==> v.decision == "supported")
  {
    hide DecoderCoverageOf, MlePlanGapsOf;
    var v := DecisionOf(w, l, d).value;
    assert "supported" != "beta";
  }

  lemma {:induction false} Decided(w: World, l: Loaded, decoders: seq<Decoder>)
    requires Decide(w, l, decoders).Ok?
    ensures |Decide(w, l, decoders).value| == |decoders|
    ensures forall k :: 0 <= k < |decoders| ==>
      DecisionOf(w, l, decoders[k]).Ok?
      && Decide(w, l, decoders).value[k] == Named(decoders[k].name, DecisionOf(w, l, decoders[k]).value)
  {
    hide DecisionOf;
    if decoders != [] {
      Decided(w, l, decoders[..|decoders| - 1]);
    }
  }

  lemma {:induction false} NothingHeldIff(decisions: seq<Named<Decision>>)
    ensures HeldGaps(decisions) == [] <==> forall k :: 0 <= k < |decisions| ==> decisions[k].value.blocking == []
  {
    hide HeldGap;
    if decisions != [] {
      NothingHeldIff(decisions[..|decisions| - 1]);
      HeldIff(decisions[|decisions| - 1]);
    }
  }

  lemma {:induction false} HeldIff(d: Named<Decision>)
    ensures HeldGap(d) == [] <==> d.value.blocking == []
  {
  }

  predicate AllProposedAreSupported(l: Loaded, decisions: seq<Named<Decision>>)
    requires |decisions| == |l.matrix.decoders|
  {
    forall k :: 0 <= k < |decisions| ==>
      Proposal(l, l.matrix.decoders[k]) == PROPOSED ==> decisions[k].value.decision == "supported"
  }

  /** The gate passes exactly when the shared evidence has no gap and every proposed decoder is supported. */
  lemma {:induction false} GatePassesIff(w: World, i: Inputs)
    requires EvaluateOf(w, i).Ok?
    ensures Load(w, i).Ok? && |EvaluateOf(w, i).value.decoders| == |Load(w, i).value.matrix.decoders|
    ensures EvaluateOf(w, i).value.status == "pass" <==>
      Load(w, i).value.gaps == [] && AllProposedAreSupported(Load(w, i).value, EvaluateOf(w, i).value.decoders)
  {
    hide Load, DecisionOf, EvidenceShas, InstalledRefs, Proposal;
    var l := Load(w, i).value;
    var decisions := Decide(w, l, l.matrix.decoders).value;
    Decided(w, l, l.matrix.decoders);
    NothingHeldIff(decisions);
    forall k | 0 <= k < |decisions|
      ensures decisions[k].value.blocking == [] <==>
        (Proposal(l, l.matrix.decoders[k]) == PROPOSED ==> decisions[k].value.decision == "supported")
    {
      BlockedIff(w, l, l.matrix.decoders[k]);
    }
    assert "pass" != "fail";
  }

  // ------------------------------------------- what a supported decoder has

  /** Every declared control has a record for the decoder whose first one passed. */
  ghost predicate AllControlsPassed(m: Matrix, decoder: string, results: seq<Record>) {
    && Expand(m.controls).Ok?
    && forall id :: id in IdsFor(Expand(m.controls).value, decoder) ==> FirstPasses(decoder, id, results)
  }

  lemma {:induction false} NoControlGapIff(m: Matrix, decoder: string, results: seq<Record>, source: string)
    ensures ControlGaps(decoder, results, m, source) == Ok([]) <==> AllControlsPassed(m, decoder, results)
  {
    hide SupportGapsOf, IdsFor, FirstPasses, Expand;
    NoSupportGapIff(decoder, results, m.controls, source);
  }

  lemma {:induction false} NoTargetGapIff(l: Loaded, decoder: string, targets: seq<string>)
    ensures TargetsPart(l, decoder, targets) == Ok([]) <==>
      forall t :: t in targets ==> t in l.installed && AllControlsPassed(l.matrix, decoder, l.installed[t].controls)
  {
    hide AllControlsPassed, ControlGaps;
    if targets != [] {
      var front, t := targets[..|targets| - 1], targets[|targets| - 1];
      NoTargetGapIff(l, decoder, front);
      JoinNothingIff(TargetsPart(l, decoder, front), TargetPart(l, decoder, t));
      if t in l.installed {
        NoControlGapIff(l.matrix, decoder, l.installed[t].controls, "installed:" + t);
      }
      assert forall x :: x in targets <==> x in front || x == t;
    }
  }

  /** The evidence exercises the decoder in full. */
  ghost predicate FullyCovered(l: Loaded, decoder: string, digest: Digest) {
    && l.support.Some? && AllControlsPassed(l.matrix, decoder, l.support.value.body)
    && l.correctness.Some? && AnyEndToEnd(l.correctness.value.body.cases)
    && (forall c :: c in l.correctness.value.body.cases && EndToEnd(c) ==> Sound(decoder, c, digest))
    && l.resources.Some? && Successful(l.resources.value.body, decoder) && Evicting(l.resources.value.body, decoder)
    && forall t :: t in l.targets ==> t in l.installed && AllControlsPassed(l.matrix, decoder, l.installed[t].controls)
  }

  /** The coverage of a decoder has no gap exactly when all of its evidence is there and passes. */
  lemma {:induction false} NoCoverageGapIff(l: Loaded, decoder: string, digest: Digest)
    ensures DecoderCoverageOf(l, decoder, digest) == Ok([]) <==> FullyCovered(l, decoder, digest)
  {
    hide AllControlsPassed, ControlGaps, Sound, EndToEnd, AnyEndToEnd, CaseGapsOf, Successful, Evicting, TargetsPart;
    var middle := CorrectnessPart(l, decoder, digest) + ResourcesPart(l, decoder);
    JoinNothingIff(SupportPart(l, decoder), Ok(middle));
    JoinNothingIff(Join(SupportPart(l, decoder), Ok(middle)), TargetsPart(l, decoder, l.targets));
    NoTargetGapIff(l, decoder, l.targets);
    if l.support.Some? {
      NoControlGapIff(l.matrix, decoder, l.support.value.body, "support-matrix");
    }
    if l.correctness.Some? {
      NoCaseGapIff(decoder, l.correctness.value.body.cases, digest);
    }
    assert middle == [] <==> CorrectnessPart(l, decoder, digest) == [] && ResourcesPart(l, decoder) == [];
  }

  // ------------------------------------------------------- non-interference

  /** The inputs differ at most in the scope plan and in the MLE resource report. */
  predicate SameButMle(i: Inputs, i': Inputs) {
    i' == i.(dir := i'.dir, plan := i'.plan, planGiven := i'.planGiven) && i'.dir - {MLE_FILE} == i.dir - {MLE_FILE}
  }

  /** What was loaded differs at most in the MLE part. */
  predicate SameButMleLoaded(l: Loaded, l': Loaded) {
    l' == l.(plan := l'.plan, planText := l'.planText, mleEnforced := l'.mleEnforced, mleGaps := l'.mleGaps,
             mle := l'.mle)
  }

  lemma {:induction false} NotTheMleFile(target: string)
    ensures InstalledFile(target) != MLE_FILE
  {
    assert InstalledFile(target)[0] == 'i' && MLE_FILE[0] == 'm';
  }

  lemma {:induction false} SameFile(i: Inputs, i': Inputs, file: string)
    requires SameButMle(i, i') && file != MLE_FILE
    ensures file in i.dir <==> file in i'.dir
    ensures file in i.dir ==> i.dir[file] == i'.dir[file]
  {
    assert file in i.dir <==> file in i.dir - {MLE_FILE};
    assert file in i'.dir <==> file in i'.dir - {MLE_FILE};
    if file in i.dir {
      assert (i.dir - {MLE_FILE})[file] == i.dir[file] && (i'.dir - {MLE_FILE})[file] == i'.dir[file];
    }
  }

  lemma {:induction false} ReportsUnchanged(w: World, i: Inputs, i': Inputs, targets: seq<string>)
    requires SameButMle(i, i')
    ensures ReadReports(w, i, targets) == ReadReports(w, i', targets)
  {
    hide InstalledGaps, Keep, InstalledFile;
    if targets != [] {
      ReportsUnchanged(w, i, i', targets[..|targets| - 1]);
      NotTheMleFile(targets[|targets| - 1]);
      SameFile(i, i', InstalledFile(targets[|targets| - 1]));
    }
  }

  lemma {:induction false} SameGeneric(w: World, i: Inputs, i': Inputs)
    requires SameButMle(i, i')
    ensures ReadGeneric(w, i) == ReadGeneric(w, i')
  {
    assert "support.json" != MLE_FILE && "correctness.json" != MLE_FILE && "resources.json" != MLE_FILE by {
      assert MLE_FILE[0] == 'm';
    }
    SameFile(i, i', "support.json");
    SameFile(i, i', "correctness.json");
    SameFile(i, i', "resources.json");
  }

  lemma {:induction false} AssembledSame(w: World, i: Inputs, i': Inputs, m: Matrix, g: Generic, mle: Option<MleDoc>,
                                         mle': Option<MleDoc>, reports: Reports)
    requires SameButMle(i, i')
    ensures SameButMleLoaded(Assemble(w, i, m, g, mle, reports), Assemble(w, i', m, g, mle', reports))
  {
    hide BindingGaps, PolicyGaps, GeneratedGaps, SummaryPart, MleOnlyGaps, MleEnforced, LoadedPlan;
  }

  /** Loading the other MLE files changes nothing but the MLE part, and fails only if the other report is no JSON. */
  lemma {:induction false} LoadedSame(w: World, i: Inputs, i': Inputs)
    requires SameButMle(i, i') && Load(w, i).Ok?
    ensures Load(w, i').Ok? <==> ReadMle(w, i', Load(w, i).value.matrix).Ok?
    ensures Load(w, i').Ok? ==> SameButMleLoaded(Load(w, i).value, Load(w, i').value)
  {
    hide Valid, ReadGeneric, ReadMle, ReadReports, Assemble, SameButMleLoaded;
    ReportsUnchanged(w, i, i', i.targets);
    SameGeneric(w, i, i');
    var m, g := ReadMatrix(w, i).value, ReadGeneric(w, i).value;
    var reports := ReadReports(w, i, i.targets).value;
    AssembledMatrix(w, i, m, g, ReadMle(w, i, m).value, reports);
    assert ReadMatrix(w, i') == ReadMatrix(w, i);
    if ReadMle(w, i', m).Ok? {
      AssembledSame(w, i, i', m, g, ReadMle(w, i, m).value, ReadMle(w, i', m).value, reports);
    }
  }

  lemma {:induction false} SameTargets(l: Loaded, l': Loaded, decoder: string, targets: seq<string>)
    requires SameButMleLoaded(l, l')
    ensures TargetsPart(l, decoder, targets) == TargetsPart(l', decoder, targets)
  {
    hide ControlGaps;
    if targets != [] {
      SameTargets(l, l', decoder, targets[..|targets| - 1]);
    }
  }

  lemma {:induction false} SameCoverage(l: Loaded, l': Loaded, decoder: string, digest: Digest)
    requires SameButMleLoaded(l, l')
    ensures DecoderCoverageOf(l, decoder, digest) == DecoderCoverageOf(l', decoder, digest)
  {
    hide TargetsPart, ControlGaps, CaseGapsOf, ResourcesGaps;
    SameTargets(l, l', decoder, l.targets);
  }

  lemma {:induction false} SameDecision(w: World, l: Loaded, l': Loaded, d: Decoder)
    requires SameButMleLoaded(l, l') && d.name != MLE
    ensures DecisionOf(w, l, d) == DecisionOf(w, l', d)
  {
    hide DecoderCoverageOf, MlePart;
    SameCoverage(l, l', d.name, w.digest);
  }

  /**
   Non-interference: the decision on every decoder other than envelope-mle is the same for every scope plan and every
   MLE resource report with which the gate reaches its decisions.
  */
  lemma {:induction false} MleFilesDoNotInterfere(w: World, i: Inputs, i': Inputs)
    requires SameButMle(i, i') && EvaluateOf(w, i).Ok? && EvaluateOf(w, i').Ok?
    ensures |EvaluateOf(w, i).value.decoders| == |EvaluateOf(w, i').value.decoders|
    ensures forall k :: 0 <= k < |EvaluateOf(w, i).value.decoders| ==>
      var d, d' := EvaluateOf(w, i).value.decoders[k], EvaluateOf(w, i').value.decoders[k];
      d.name == d'.name && (d.name != MLE ==> d == d')
  {
    hide Load, DecisionOf, SameButMleLoaded, SameButMle;
    LoadedSame(w, i, i');
    var l, l' := Load(w, i).value, Load(w, i').value;
    assert l'.matrix == l.matrix by { SameMatrix(l, l'); }
    Decided(w, l, l.matrix.decoders);
    Decided(w, l', l.matrix.decoders);
    forall k | 0 <= k < |l.matrix.decoders| && l.matrix.decoders[k].name != MLE
      ensures DecisionOf(w, l, l.matrix.decoders[k]) == DecisionOf(w, l', l.matrix.decoders[k])
    {
      SameDecision(w, l, l', l.matrix.decoders[k]);
    }
  }

  lemma {:induction false} SameMatrix(l: Loaded, l': Loaded)
    requires SameButMleLoaded(l, l')
    ensures l'.matrix == l.matrix && l'.targets == l.targets && l'.support == l.support && l'.installed == l.installed
    ensures l'.gaps == l.gaps
  {
  }

  // ------------------------------------------------ when the gate stops short

  lemma {:induction false} ControlGapsOkIff(decoder: string, results: seq<Record>, m: Matrix, source: string)
    ensures ControlGaps(decoder, results, m, source).Ok? <==> Expand(m.controls).Ok?
  {
    hide Expand, GapsIn;
  }

  predicate AnyReport(l: Loaded, targets: seq<string>) {
    exists t :: t in targets && t in l.installed
  }

  lemma {:induction false} TargetsOkIff(l: Loaded, decoder: string, targets: seq<string>)
    ensures TargetsPart(l, decoder, targets).Ok? <==> (AnyReport(l, targets) ==> Expand(l.matrix.controls).Ok?)
  {
    hide Expand, ControlGaps;
    if targets != [] {
      var front, t := targets[..|targets| - 1], targets[|targets| - 1];
      TargetsOkIff(l, decoder, front);
      JoinNothingIff(TargetsPart(l, decoder, front), TargetPart(l, decoder, t));
      if t in l.installed {
        ControlGapsOkIff(decoder, l.installed[t].controls, l.matrix, "installed:" + t);
      }
      assert forall x :: x in targets <==> x in front || x == t;
    }
  }

  /** No report of a run was read, or the matrix expands. */
  predicate Readable(l: Loaded) {
    l.support.Some? || AnyReport(l, l.targets) ==> Expand(l.matrix.controls).Ok?
  }

  lemma {:induction false} CoverageOkIff(l: Loaded, decoder: string, digest: Digest)
    ensures DecoderCoverageOf(l, decoder, digest).Ok? <==> Readable(l)
  {
    hide Expand, ControlGaps, TargetsPart, CaseGapsOf, ResourcesGaps;
    TargetsOkIff(l, decoder, l.targets);
    if l.support.Some? {
      ControlGapsOkIff(decoder, l.support.value.body, l.matrix, "support-matrix");
    }
    var middle := CorrectnessPart(l, decoder, digest) + ResourcesPart(l, decoder);
    JoinNothingIff(SupportPart(l, decoder), Ok(middle));
    JoinNothingIff(Join(SupportPart(l, decoder), Ok(middle)), TargetsPart(l, decoder, l.targets));
  }

  /** Every required workload that was measured has a wall time. */
  predicate Timed(records: seq<MleRecord>, cases: seq<RequiredCase>) {
    forall c :: c in cases && c.WorkloadCase? && LastRecord(records, c.workload).Some? ==>
      LastRecord(records, c.workload).value.wallSeconds.Some?
  }

  lemma {:induction false} CasesOkIff(l: Loaded, cases: seq<RequiredCase>)
    ensures CasesPart(l, cases).Ok? <==> (l.mle.Some? ==> Timed(l.mle.value.body, cases))
  {
    hide EndToEndPart, CompilerPart, ControlPart, FailurePart, PlatformPart, LastRecord, AgreeOn;
    if cases != [] && !(cases[0].WorkloadCase? && l.mle.None?) {
      CasesOkIff(l, cases[1..]);
      JoinNothingIff(CasePart(l, cases[0]), CasesPart(l, cases[1..]));
      assert forall c :: c in cases <==> c == cases[0] || c in cases[1..];
    }
  }

  /** The MLE evidence can be judged: its replay ends, and every required workload that was measured has a wall time. */
  predicate Judgeable(w: World, l: Loaded, plan: Plan) {
    l.mle.Some? ==> w.replay(l.mle.value, l.planText).Some? && Timed(l.mle.value.body, plan.cases)
  }

  lemma {:induction false} MlePlanOkIff(w: World, l: Loaded, plan: Plan)
    ensures MlePlanGapsOf(w, l, plan).Ok? <==> Judgeable(w, l, plan)
  {
    hide CasesPart, Timed, DeclaredWorkloads;
    CasesOkIff(l, plan.cases);
    var second: Result<seq<Gap>, Crash> := Ok(Require(DeclaredWorkloads(plan) == WORKLOADS, Note(WorkloadsDrift, "")));
    JoinNothingIff(ReplayPart(w, l), second);
    JoinNothingIff(Join(ReplayPart(w, l), second), CasesPart(l, plan.cases));
  }

  predicate MleJudgeable(w: World, l: Loaded, d: Decoder) {
    d.name == MLE && Proposal(l, d) == PROPOSED && l.plan.Some? ==> Judgeable(w, l, l.plan.value)
  }

  predicate Decidable(w: World, l: Loaded, d: Decoder) {
    Readable(l) && MleJudgeable(w, l, d)
  }

  lemma {:induction false} DecisionOkIff(w: World, l: Loaded, d: Decoder)
    ensures DecisionOf(w, l, d).Ok? <==> Decidable(w, l, d)
  {
    hide DecoderCoverageOf, MlePlanGapsOf, Readable, Judgeable, Proposal, Verdict;
    CoverageOkIff(l, d.name, w.digest);
    if l.plan.Some? {
      MlePlanOkIff(w, l, l.plan.value);
      JoinNothingIff(Ok(l.mleGaps), MlePlanGapsOf(w, l, l.plan.value));
    }
  }

  lemma {:induction false} DecideOkIff(w: World, l: Loaded, decoders: seq<Decoder>)
    ensures Decide(w, l, decoders).Ok? <==> forall d :: d in decoders ==> Decidable(w, l, d)
  {
    hide DecisionOf, Decidable;
    if decoders != [] {
      var front, d := decoders[..|decoders| - 1], decoders[|decoders| - 1];
      DecideOkIff(w, l, front);
      DecisionOkIff(w, l, d);
      assert forall x :: x in decoders <==> x in front || x == d;
    }
  }

  predicate AllDecidable(w: World, l: Loaded) {
    forall d :: d in l.matrix.decoders ==> Decidable(w, l, d)
  }

  /** The gate reaches its decisions exactly when everything can be loaded and every decoder can be decided. */
  lemma {:induction false} EvaluateOkIff(w: World, i: Inputs)
    ensures EvaluateOf(w, i).Ok? <==> Load(w, i).Ok? && AllDecidable(w, Load(w, i).value)
  {
    hide Load, Decide, ReportFor, Decidable;
    if Load(w, i).Ok? {
      DecideOkIff(w, Load(w, i).value, Load(w, i).value.matrix.decoders);
    }
  }

  predicate AllMleJudgeable(w: World, r: Result<Loaded, Crash>) {
    r.Ok? && forall d :: d in r.value.matrix.decoders ==> MleJudgeable(w, r.value, d)
  }

  lemma {:induction false} SameDecidable(w: World, l: Loaded, r: Result<Loaded, Crash>)
    requires AllDecidable(w, l) && l.matrix.decoders != []
    requires r.Ok? ==> SameButMleLoaded(l, r.value)
    ensures r.Ok? && AllDecidable(w, r.value) <==> AllMleJudgeable(w, r)
  {
    hide Readable, MleJudgeable;
    assert l.matrix.decoders[0] in l.matrix.decoders;
    if r.Ok? {
      SameReadable(l, r.value);
    }
  }

  /**
   MLE files can still stop the whole gate, so that no decoder gets a decision: exactly when the resource report is no
   JSON, or a proposed and declared envelope-mle has a plan with evidence that cannot be judged.
  */
  lemma {:induction false} MleFilesStopTheGateIff(w: World, i: Inputs, i': Inputs, l: Loaded)
    requires SameButMle(i, i') && Load(w, i) == Ok(l) && AllDecidable(w, l)
    ensures EvaluateOf(w, i').Ok? <==> ReadMle(w, i', l.matrix).Ok? && AllMleJudgeable(w, Load(w, i'))
  {
    hide *;
    EvaluateOkIff(w, i');
    LoadedSame(w, i, i');
    LoadedIsValid(w, i);
    SameDecidable(w, l, Load(w, i'));
  }

  lemma {:induction false} LoadedIsValid(w: World, i: Inputs)
    requires Load(w, i).Ok?
    ensures Valid(Load(w, i).value.matrix) && Load(w, i).value.matrix.decoders != []
  {
    hide ReadGeneric, ReadMle, ReadReports, SharedGaps, MleOnlyGaps, IdsOk, DecodersOk, RequiredOk;
  }

  lemma {:induction false} SameReadable(l: Loaded, l': Loaded)
    requires SameButMleLoaded(l, l')
    ensures Readable(l) <==> Readable(l')
  {
    hide Expand;
  }

  /** One measured workload without a wall time is enough: the gate ends without any decision. */
  lemma {:induction false} UntimedWorkloadStopsTheGate(w: World, i: Inputs, l: Loaded, d: Decoder, c: RequiredCase)
    requires Load(w, i) == Ok(l) && d in l.matrix.decoders
    requires d.name == MLE && Proposal(l, d) == PROPOSED && l.plan.Some? && l.mle.Some?
    requires c in l.plan.value.cases && c.WorkloadCase? && LastRecord(l.mle.value.body, c.workload).Some?
    requires LastRecord(l.mle.value.body, c.workload).value.wallSeconds.None?
    ensures EvaluateOf(w, i).Err?
  {
    hide EvaluateOf, Load, Readable, Proposal, LastRecord;
    EvaluateOkIff(w, i);
    assert !Timed(l.mle.value.body, l.plan.value.cases);
    assert !Decidable(w, l, d);
  }

  /** A required workload that was measured without a wall time. */
  predicate Untimed(records: seq<MleRecord>, c: RequiredCase) {
    c.WorkloadCase? && LastRecord(records, c.workload).Some? && LastRecord(records, c.workload).value.wallSeconds.None?
  }

  /** The first of them is the one that is named. */
  lemma {:induction false} CasesStopAt(l: Loaded, cases: seq<RequiredCase>, k: nat)
    requires l.mle.Some? && k < |cases| && Untimed(l.mle.value.body, cases[k])
    requires forall j :: 0 <= j < k ==> !Untimed(l.mle.value.body, cases[j])
    ensures cases[k].WorkloadCase? && CasesPart(l, cases) == Err(NoWallTime(cases[k].workload))
  {
    hide EndToEndPart, CompilerPart, ControlPart, FailurePart, PlatformPart, LastRecord, AgreeOn;
    if k > 0 {
      CasesStopAt(l, cases[1..], k - 1);
      assert CasePart(l, cases[0]).Ok?;
    }
  }

  lemma {:induction false} DecideStopsAt(w: World, l: Loaded, decoders: seq<Decoder>, n: nat)
    requires n < |decoders| && DecisionOf(w, l, decoders[n]).Err?
    requires forall j :: 0 <= j < n ==> DecisionOf(w, l, decoders[j]).Ok?
    ensures Decide(w, l, decoders) == Err(DecisionOf(w, l, decoders[n]).error)
  {
    hide DecisionOf;
    var front := decoders[..n];
    forall d | d in front ensures Decidable(w, l, d) {
      DecisionOkIff(w, l, d);
    }
    DecideOkIff(w, l, front);
    assert decoders[..n + 1][..n] == front;
    DecideStops(w, l, decoders, n + 1);
  }

  /**
   What the gate then ends with: where the matrix can be read and the replay of the report ends, the crash on the first
   required workload that was measured without a wall time.
  */
  lemma {:induction false} UntimedWorkloadIsNamed(w: World, i: Inputs, l: Loaded, n: nat, k: nat)
    requires Load(w, i) == Ok(l) && Readable(l) && n < |l.matrix.decoders|
    requires l.matrix.decoders[n].name == MLE && Proposal(l, l.matrix.decoders[n]) == PROPOSED
    requires forall j :: 0 <= j < n ==> l.matrix.decoders[j].name != MLE
    requires l.plan.Some? && l.mle.Some? && w.replay(l.mle.value, l.planText).Some?
    requires k < |l.plan.value.cases| && Untimed(l.mle.value.body, l.plan.value.cases[k])
    requires forall j :: 0 <= j < k ==> !Untimed(l.mle.value.body, l.plan.value.cases[j])
    ensures EvaluateOf(w, i) == Err(NoWallTime(l.plan.value.cases[k].workload))
  {
    hide Load, Readable, Proposal, Untimed, DecoderCoverageOf, CasesPart, Verdict, Decide, DeclaredWorkloads;
    CasesStopAt(l, l.plan.value.cases, k);
    CoverageOkIff(l, MLE, w.digest);
    var d := l.matrix.decoders[n];
    assert DecisionOf(w, l, d) == Err(NoWallTime(l.plan.value.cases[k].workload));
    forall j | 0 <= j < n ensures DecisionOf(w, l, l.matrix.decoders[j]).Ok? {
      DecisionOkIff(w, l, l.matrix.decoders[j]);
    }
    DecideStopsAt(w, l, l.matrix.decoders, n);
  }

  // ---------------------------------------------------------- decoder order

  predicate UniqueDecoders(decoders: seq<Decoder>) {
    forall i, j :: 0 <= i < j < |decoders| ==> decoders[i].name != decoders[j].name
  }

  lemma {:induction false} NamedIffMember(decoders: seq<Decoder>, d: Decoder)
    requires UniqueDecoders(decoders)
    ensures DecoderNamed(decoders, d.name) == Some(d) <==> d in decoders
  {
    if decoders != [] {
      NamedIffMember(decoders[1..], d);
      if decoders[0].name == d.name && d in decoders {
        var j :| 0 <= j < |decoders| && decoders[j] == d;
        assert j == 0;
      }
    }
  }

  lemma {:induction false} NamedNowhere(decoders: seq<Decoder>, name: string)
    ensures DecoderNamed(decoders, name).None? <==> forall d :: d in decoders ==> d.name != name
    ensures DecoderNamed(decoders, name).Some? ==>
      DecoderNamed(decoders, name).value in decoders && DecoderNamed(decoders, name).value.name == name
  {
    if decoders != [] {
      NamedNowhere(decoders[1..], name);
      assert forall d :: d in decoders <==> d == decoders[0] || d in decoders[1..];
    }
  }

  /** The lookup of a decoder does not depend on the order of the declarations. */
  lemma {:induction false} NamedInAnyOrder(a: seq<Decoder>, b: seq<Decoder>, name: string)
    requires UniqueDecoders(a) && UniqueDecoders(b) && forall d :: d in a <==> d in b
    ensures DecoderNamed(a, name) == DecoderNamed(b, name)
  {
    NamedNowhere(a, name);
    NamedNowhere(b, name);
    if DecoderNamed(a, name).Some? {
      NamedIffMember(b, DecoderNamed(a, name).value);
    }
  }

  /** The same declarations in another order. */
  ghost predicate Reordered(m: Matrix, m': Matrix) {
    && m' == m.(decoders := m'.decoders)
    && UniqueDecoders(m.decoders) && UniqueDecoders(m'.decoders)
    && forall d :: d in m.decoders <==> d in m'.decoders
  }

  lemma {:induction false} ReorderedRequired(m: Matrix, m': Matrix, decoder: string)
    requires Reordered(m, m')
    ensures RequiredOk(m, decoder) <==> RequiredOk(m', decoder)
  {
    hide Required, UniqueDecoders;
    assert Declared(m, decoder) <==> Declared(m', decoder);
    assert forall id :: Kept(m, id, decoder) <==> Kept(m', id, decoder);
  }

  lemma {:induction false} ReorderedValid(m: Matrix, m': Matrix)
    requires Reordered(m, m')
    ensures Valid(m) <==> Valid(m')
  {
    hide UniqueDecoders, IdsOk, RequiredOk, ExpectationOk;
    ReorderedRequired(m, m', MATCHING);
    ReorderedRequired(m, m', MLE);
    forall c | c in m.controls ensures DecodersOk(m, c) <==> DecodersOk(m', c) {
      assert forall name :: Declared(m, name) <==> Declared(m', name);
    }
    assert m.decoders == [] <==> m'.decoders == [] by {
      if m.decoders != [] { assert m.decoders[0] in m.decoders; }
      if m'.decoders != [] { assert m'.decoders[0] in m'.decoders; }
    }
  }

  lemma {:induction false} ReorderedTargets(l: Loaded, l': Loaded, decoder: string, targets: seq<string>)
    requires l' == l.(matrix := l'.matrix) && l'.matrix.controls == l.matrix.controls
    ensures TargetsPart(l, decoder, targets) == TargetsPart(l', decoder, targets)
  {
    hide SupportGapsOf;
    if targets != [] {
      ReorderedTargets(l, l', decoder, targets[..|targets| - 1]);
    }
  }

  lemma {:induction false} ReorderedCases(l: Loaded, l': Loaded, cases: seq<RequiredCase>)
    requires l' == l.(matrix := l'.matrix)
    ensures CasesPart(l, cases) == CasesPart(l', cases)
  {
    hide Require, AgreeOn, LastCase, LastRecord, LastResult;
    if cases != [] {
      ReorderedCases(l, l', cases[1..]);
      if !(cases[0].WorkloadCase? && l.mle.None?) {
        ReorderedCase(l, l', cases[0]);
      }
    }
  }

  lemma {:induction false} ReorderedCase(l: Loaded, l': Loaded, c: RequiredCase)
    requires l' == l.(matrix := l'.matrix) && (c.WorkloadCase? ==> l.mle.Some?)
    ensures CasePart(l, c) == CasePart(l', c)
  {
    hide Require, AgreeOn, LastCase, LastRecord, LastResult;
  }

  lemma {:induction false} ReorderedDecision(w: World, l: Loaded, l': Loaded, d: Decoder)
    requires l' == l.(matrix := l'.matrix) && l'.matrix.controls == l.matrix.controls
    ensures DecisionOf(w, l, d) == DecisionOf(w, l', d)
  {
    hide TargetsPart, SupportGapsOf, CaseGapsOf, ResourcesGaps, CasesPart;
    ReorderedTargets(l, l', d.name, l.targets);
    assert DecoderCoverageOf(l, d.name, w.digest) == DecoderCoverageOf(l', d.name, w.digest);
    if l.plan.Some? {
      ReorderedCases(l, l', l.plan.value.cases);
    }
  }

  lemma {:induction false} ReorderedLoad(w: World, i: Inputs, i': Inputs)
    requires i' == i.(matrix := i'.matrix) && Load(w, i).Ok?
    requires w.matrixOf(i.matrix).Some? && w.matrixOf(i'.matrix).Some?
    requires Reordered(w.matrixOf(i.matrix).value, w.matrixOf(i'.matrix).value)
    ensures Load(w, i') == Ok(Load(w, i).value.(matrix := w.matrixOf(i'.matrix).value))
    ensures Load(w, i).value.matrix == w.matrixOf(i.matrix).value
  {
    hide Valid, Read, ReadGeneric, ReadReports, ReadMle, Assemble, Reordered;
    var m, m' := w.matrixOf(i.matrix).value, w.matrixOf(i'.matrix).value;
    ReorderedValid(m, m');
    ReorderedReports(w, i, i', i.targets);
    ReorderedReads(w, i, i', m, m');
    var mle, reports := ReadMle(w, i, m).value, ReadReports(w, i, i.targets).value;
    ReorderedAssembly(w, i, i', m, m', ReadGeneric(w, i).value, mle, reports);
  }

  lemma {:induction false} ReorderedReads(w: World, i: Inputs, i': Inputs, m: Matrix, m': Matrix)
    requires i' == i.(matrix := i'.matrix) && Reordered(m, m')
    ensures ReadGeneric(w, i') == ReadGeneric(w, i) && ReadMle(w, i', m') == ReadMle(w, i, m)
  {
    hide Read, Reordered, MatrixProposesMle;
    ReorderedMle(m, m');
  }

  lemma {:induction false} ReorderedAssembly(w: World, i: Inputs, i': Inputs, m: Matrix, m': Matrix, g: Generic,
                                             mle: Option<MleDoc>, reports: Reports)
    requires i' == i.(matrix := i'.matrix) && Reordered(m, m')
    ensures Assemble(w, i', m', g, mle, reports) == Assemble(w, i, m, g, mle, reports).(matrix := m')
    ensures Assemble(w, i, m, g, mle, reports).matrix == m
  {
    hide Reordered, MatrixProposesMle, MatrixPromotesMle, BindingGaps, PolicyGaps, GeneratedGaps, SummaryPart, Usable;
    ReorderedMle(m, m');
  }

  lemma {:induction false} ReorderedReports(w: World, i: Inputs, i': Inputs, targets: seq<string>)
    requires i' == i.(matrix := i'.matrix)
    ensures ReadReports(w, i, targets) == ReadReports(w, i', targets)
  {
    hide InstalledGaps, Keep, ReadReport;
    if targets != [] {
      ReorderedReports(w, i, i', targets[..|targets| - 1]);
    }
  }

  lemma {:induction false} ReorderedMle(m: Matrix, m': Matrix)
    requires Reordered(m, m')
    ensures MatrixProposesMle(m) == MatrixProposesMle(m') && MatrixPromotesMle(m) == MatrixPromotesMle(m')
    ensures m'.sourceRevision == m.sourceRevision && m'.controls == m.controls
  {
    hide UniqueDecoders;
    NamedInAnyOrder(m.decoders, m'.decoders, MLE);
  }

  /** Every decoder is recorded with its own decision. */
  lemma {:induction false} DecisionIsRecorded(w: World, l: Loaded, decoders: seq<Decoder>, d: Decoder)
    requires Decide(w, l, decoders).Ok? && UniqueDecoders(decoders) && d in decoders
    ensures DecisionOf(w, l, d).Ok?
    ensures Lookup(Decide(w, l, decoders).value, d.name) == Some(DecisionOf(w, l, d).value)
  {
    hide DecisionOf, Decide;
    var decisions := Decide(w, l, decoders).value;
    Decided(w, l, decoders);
    var k :| 0 <= k < |decoders| && decoders[k] == d;
    assert forall i, j :: 0 <= i < j < |decisions| ==>
      decisions[i].name == decoders[i].name && decisions[j].name == decoders[j].name;
    LookupFinds(decisions, k);
  }

  /** Every recorded decision is that of a declared decoder. */
  lemma {:induction false} RecordedIsDecided(w: World, l: Loaded, decoders: seq<Decoder>, e: Named<Decision>)
    requires Decide(w, l, decoders).Ok?
    ensures e in Decide(w, l, decoders).value <==>
      exists d :: d in decoders && DecisionOf(w, l, d).Ok? && e == Named(d.name, DecisionOf(w, l, d).value)
  {
    hide DecisionOf, Decide;
    var decisions := Decide(w, l, decoders).value;
    Decided(w, l, decoders);
    if e in decisions {
      var k :| 0 <= k < |decisions| && decisions[k] == e;
      assert decoders[k] in decoders;
    }
    if d :| d in decoders && DecisionOf(w, l, d).Ok? && e == Named(d.name, DecisionOf(w, l, d).value) {
      var k :| 0 <= k < |decoders| && decoders[k] == d;
      assert decisions[k] == e;
    }
  }

  /** Nothing is held back in one order exactly when nothing is in the other. */
  lemma {:induction false} HeldInAnyOrder(a: seq<Named<Decision>>, b: seq<Named<Decision>>)
    requires forall e :: e in a <==> e in b
    ensures HeldGaps(a) == [] <==> HeldGaps(b) == []
  {
    hide HeldGaps;
    NothingHeldIff(a);
    NothingHeldIff(b);
    if HeldGaps(a) == [] {
      forall k | 0 <= k < |b| ensures b[k].value.blocking == [] {
        assert b[k] in a;
        var j :| 0 <= j < |a| && a[j] == b[k];
      }
    }
    if HeldGaps(b) == [] {
      forall k | 0 <= k < |a| ensures a[k].value.blocking == [] {
        assert a[k] in b;
        var j :| 0 <= j < |b| && b[j] == a[k];
      }
    }
  }

  /** The reports say the same, but for the digest of the matrix and the order of decisions and of gaps. */
  ghost predicate SameReport(r: GateReport, r': GateReport) {
    && r' == r.(matrixSha := r'.matrixSha, decoders := r'.decoders, gaps := r'.gaps)
    && (forall e :: e in r.decoders <==> e in r'.decoders)
    && (forall name :: Lookup(r.decoders, name) == Lookup(r'.decoders, name))
  }

  lemma {:induction false} ReorderedReport(w: World, i: Inputs, i': Inputs, l: Loaded, l': Loaded,
                                           a: seq<Named<Decision>>, b: seq<Named<Decision>>)
    requires i' == i.(matrix := i'.matrix) && l' == l.(matrix := l'.matrix)
    requires forall e :: e in a <==> e in b
    requires forall name :: Lookup(a, name) == Lookup(b, name)
    ensures SameReport(ReportFor(w, i, l, a), ReportFor(w, i', l', b))
  {
    hide HeldGaps, InstalledFile, Lookup;
    HeldInAnyOrder(a, b);
    assert l.gaps + HeldGaps(a) == [] <==> l.gaps == [] && HeldGaps(a) == [];
    assert l'.gaps + HeldGaps(b) == [] <==> l.gaps == [] && HeldGaps(b) == [];
    assert EvidenceShas(w, i, l) == EvidenceShas(w, i', l');
    assert InstalledRefs(w, i, l) == InstalledRefs(w, i', l');
  }

  lemma {:induction false} LookupNothing<T>(entries: seq<Named<T>>, name: string)
    ensures Lookup(entries, name).None? <==> forall e :: e in entries ==> e.name != name
  {
    if entries != [] {
      LookupNothing(entries[1..], name);
      assert forall e :: e in entries <==> e == entries[0] || e in entries[1..];
    }
  }

  lemma {:induction false} ReorderedDecisions(w: World, l: Loaded, l': Loaded)
    requires l' == l.(matrix := l'.matrix) && Reordered(l.matrix, l'.matrix)
    requires Decide(w, l, l.matrix.decoders).Ok? && Decide(w, l', l'.matrix.decoders).Ok?
    ensures var a, b := Decide(w, l, l.matrix.decoders).value, Decide(w, l', l'.matrix.decoders).value;
      && (forall e :: e in a <==> e in b) && forall name :: Lookup(a, name) == Lookup(b, name)
  {
    hide DecisionOf, Decide, UniqueDecoders, Lookup;
    var a, b := Decide(w, l, l.matrix.decoders).value, Decide(w, l', l'.matrix.decoders).value;
    forall d | d in l.matrix.decoders ensures DecisionOf(w, l, d) == DecisionOf(w, l', d) {
      ReorderedDecision(w, l, l', d);
    }
    forall e ensures e in a <==> e in b {
      RecordedIsDecided(w, l, l.matrix.decoders, e);
      RecordedIsDecided(w, l', l'.matrix.decoders, e);
    }
    forall name ensures Lookup(a, name) == Lookup(b, name) {
      LookupNothing(a, name);
      LookupNothing(b, name);
      if e :| e in a && e.name == name {
        RecordedIsDecided(w, l, l.matrix.decoders, e);
        var d :| d in l.matrix.decoders && DecisionOf(w, l, d).Ok? && e == Named(d.name, DecisionOf(w, l, d).value);
        DecisionIsRecorded(w, l, l.matrix.decoders, d);
        DecisionIsRecorded(w, l', l'.matrix.decoders, d);
      }
    }
  }

  /** The order of the decoders in the matrix changes no decision, nor whether the gate passes. */
  lemma {:induction false} DecoderOrderIsIrrelevant(w: World, i: Inputs, i': Inputs)
    requires i' == i.(matrix := i'.matrix) && EvaluateOf(w, i).Ok?
    requires w.matrixOf(i.matrix).Some? && w.matrixOf(i'.matrix).Some?
    requires Reordered(w.matrixOf(i.matrix).value, w.matrixOf(i'.matrix).value)
    ensures EvaluateOf(w, i').Ok? && SameReport(EvaluateOf(w, i).value, EvaluateOf(w, i').value)
  {
    hide Load, DecisionOf, Decide, ReportFor, SameReport, UniqueDecoders, Lookup, Decidable;
    ReorderedLoad(w, i, i');
    var l, l' := Load(w, i).value, Load(w, i').value;
    DecideOkIff(w, l, l.matrix.decoders);
    DecideOkIff(w, l', l'.matrix.decoders);
    forall d | d in l'.matrix.decoders ensures Decidable(w, l', d) {
      DecisionOkIff(w, l, d);
      DecisionOkIff(w, l', d);
      ReorderedDecision(w, l, l', d);
    }
    ReorderedDecisions(w, l, l');
    ReorderedReport(w, i, i', l, l', Decide(w, l, l.matrix.decoders).value, Decide(w, l', l'.matrix.decoders).value);
  }
}
