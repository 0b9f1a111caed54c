/** From the gate to the bundle: the report of a passing gate satisfies the checks of the publication. */
module GatePublishes {
  import opened Prelude
  import opened Text
  import opened SupportMatrix
  import opened Evidence
  import opened Coverage
  import opened Gate
  import opened GateDecision
  import opened GateLaws
  import opened GateJustified
  import opened Publication

  lemma {:induction false} ReadMeansPresent<T>(dir: map<string, string>, file: string, parse: string -> Option<T>)
    ensures Read(dir, file, parse).Ok? && Read(dir, file, parse).value.Some? ==> file in dir
  {
  }

  lemma {:induction false} NoReportGap(w: World, i: Inputs, targets: seq<string>)
    requires ReadReports(w, i, targets).Ok? && ReadReports(w, i, targets).value.gaps == []
    ensures forall t :: t in targets ==> t in ReadReports(w, i, targets).value.reports && InstalledFile(t) in i.dir
  {
    hide InstalledFile, Bound;
    if targets != [] {
      var front, t := targets[..|targets| - 1], targets[|targets| - 1];
      var before := ReadReports(w, i, front).value;
      var report := ReadReport(w, i.dir, t).value;
      assert before.gaps == [] && InstalledGaps(t, report, i.candidate, i.pairs) == [];
      NoReportGap(w, i, front);
      ReadMeansPresent(i.dir, InstalledFile(t), w.installedOf);
      assert forall x :: x in targets <==> x in front || x == t;
    }
  }

  lemma {:induction false} EvidenceIsBound(w: World, i: Inputs, l: Loaded, name: EvidenceName)
    requires name in NAMES && FileOf(name) in i.dir && HasUsable(l, name)
    ensures name in EvidenceShas(w, i, l) && EvidenceShas(w, i, l)[name] == w.hash(i.dir[FileOf(name)])
  {
    hide FileOf;
  }

  /** The proposal of the MLE decoder is always enforced. */
  lemma {:induction false} ProposedMleIsEnforced(w: World, i: Inputs, l: Loaded, d: Decoder)
    requires l.mleEnforced == MleEnforced(w, i, l.matrix) && UniqueDecoders(l.matrix.decoders) && d in l.matrix.decoders
    requires d.name == MLE && Proposal(l, d) == PROPOSED
    ensures l.mleEnforced
  {
    hide UniqueDecoders, LoadedPlan;
    NamedIffMember(l.matrix.decoders, d);
  }

  predicate IsSupportedDecision(w: World, l: Loaded, d: Decoder) {
    DecisionOf(w, l, d).Ok? && DecisionOf(w, l, d).value.decision == "supported"
  }

  lemma {:induction false} SupportedHasDecoder(w: World, l: Loaded, decisions: seq<Named<Decision>>, decoder: string)
    requires Decide(w, l, l.matrix.decoders) == Ok(decisions)
    requires Lookup(decisions, decoder).Some? && Lookup(decisions, decoder).value.decision == "supported"
    ensures exists d :: d in l.matrix.decoders && d.name == decoder && IsSupportedDecision(w, l, d)
  {
    hide DecisionOf, Decide;
    Decided(w, l, l.matrix.decoders);
    var k := LookupIndex(decisions, decoder);
    assert l.matrix.decoders[k] in l.matrix.decoders;
  }

  lemma {:induction false} LookupIndex<T>(entries: seq<Named<T>>, name: string) returns (k: nat)
    requires Lookup(entries, name).Some?
    ensures k < |entries| && entries[k].name == name && entries[k].value == Lookup(entries, name).value
  {
    if entries[0].name == name {
      k := 0;
    } else {
      var j := LookupIndex(entries[1..], name);
      k := j + 1;
    }
  }

  /** An MLE decoder whose own evidence has no gap has its resource report in the evidence directory. */
  lemma {:induction false} CleanMleHasReport(w: World, i: Inputs, l: Loaded, d: Decoder, mle: Option<MleDoc>)
    requires MleLoaded(w, i, l, mle) && UniqueDecoders(l.matrix.decoders) && d in l.matrix.decoders && d.name == MLE
    requires Proposal(l, d) == PROPOSED && l.mleGaps == []
    ensures l.mle.Some? && MLE_FILE in i.dir
  {
    hide UniqueDecoders, PlanBindingGaps, PlanStateGaps, GeneratedGaps, MleEnforced, LoadedPlan, Bound;
    ProposedMleIsEnforced(w, i, l, d);
    NoGeneratedGapIff("mle-resources", mle, MLE_SCHEMA, i);
    ReadMeansPresent(i.dir, MLE_FILE, w.mleOf);
  }

  lemma {:induction false} GenericIsPresent(w: World, i: Inputs)
    requires ReadGeneric(w, i).Ok?
    ensures var g := ReadGeneric(w, i).value;
      && (g.support.Some? ==> FileOf(SupportEvidence) in i.dir)
      && (g.correctness.Some? ==> FileOf(CorrectnessEvidence) in i.dir)
      && (g.resources.Some? ==> FileOf(ResourcesEvidence) in i.dir)
  {
  }

  /** What a passing gate loaded. */
  lemma {:induction false} PassingLoads(w: World, i: Inputs, l: Loaded)
    requires Load(w, i) == Ok(l) && l.gaps == []
    ensures i.policy.Some? && l.targets == i.targets
    ensures l.support.Some? && FileOf(SupportEvidence) in i.dir
    ensures l.correctness.Some? && FileOf(CorrectnessEvidence) in i.dir
    ensures l.resources.Some? && FileOf(ResourcesEvidence) in i.dir
    ensures forall t :: t in i.targets ==> t in l.installed && InstalledFile(t) in i.dir
  {
    hide ReadMatrix, ReadGeneric, ReadMle, ReadReports, SharedGaps, MleOnlyGaps, Bound, LoadedPlan, MleEnforced;
    hide InstalledFile, FileOf, Precedes, SummaryOk;
    var m, g, reports := ReadMatrix(w, i).value, ReadGeneric(w, i).value, ReadReports(w, i, i.targets).value;
    SharedEvidenceIff(w, i, l);
    NoReportGapsIff(w, i, i.targets);
    NoReportGap(w, i, i.targets);
    GenericIsPresent(w, i);
  }

  /** A supported MLE decoder has its report. */
  lemma {:induction false} SupportedMleHasReport(w: World, i: Inputs, l: Loaded, decisions: seq<Named<Decision>>)
    requires Load(w, i) == Ok(l) && UniqueDecoders(l.matrix.decoders)
      && Decide(w, l, l.matrix.decoders) == Ok(decisions)
    requires Lookup(decisions, MLE).Some? && Lookup(decisions, MLE).value.decision == "supported"
    ensures l.mle.Some? && MLE_FILE in i.dir
  {
    hide Load, Decide, DecisionOf, UniqueDecoders, Lookup, MleLoaded, DecoderCoverageOf, MlePlanGapsOf;
    SupportedHasDecoder(w, l, decisions, MLE);
    var d :| d in l.matrix.decoders && d.name == MLE && IsSupportedDecision(w, l, d);
    SupportedIff(w, l, d);
    var mle := LoadsMle(w, i, l);
    CleanMleHasReport(w, i, l, d, mle);
  }

  lemma {:induction false} EvidenceFilesBound(w: World, i: Inputs, l: Loaded, r: GateReport, name: EvidenceName)
    requires l.support.Some? && FileOf(SupportEvidence) in i.dir && l.correctness.Some?
      && FileOf(CorrectnessEvidence) in i.dir
    requires l.resources.Some? && FileOf(ResourcesEvidence) in i.dir && r.evidence == EvidenceShas(w, i, l)
    requires Supports(r, MLE) ==> l.mle.Some? && MLE_FILE in i.dir
    requires name in NAMES && forall x :: HexOf(w.hash(x), 64)
    ensures BindsEvidence(r, name)
  {
    hide EvidenceShas, FileOf, HexOf, Supports;
    MleFileName();
    if name != MleEvidence || Supports(r, MLE) {
      EvidenceIsBound(w, i, l, name);
    } else if name in r.evidence {
      BoundIsHex(w, i, l, name);
    }
  }

  lemma {:induction false} MleFileName()
    ensures FileOf(MleEvidence) == MLE_FILE
  {
  }

  lemma {:induction false} BoundIsHex(w: World, i: Inputs, l: Loaded, name: EvidenceName)
    requires name in EvidenceShas(w, i, l) && forall x :: HexOf(w.hash(x), 64)
    ensures HexOf(EvidenceShas(w, i, l)[name], 64)
  {
    hide FileOf, HexOf;
  }

  /**
   A gate that passes for the official targets, with a retained report found source-equivalent, has a report that the
   build and the verifier accept for the same candidate, matrix and policy.
  */
  lemma {:induction false} PassingGateIsPublishable(w: World, i: Inputs, l: Loaded, r: GateReport)
    requires Load(w, i) == Ok(l) && EvaluateOf(w, i) == Ok(r) && r.status == "pass"
    requires (forall x :: HexOf(w.hash(x), 64)) && UniqueDecoders(l.matrix.decoders)
    requires (forall t :: t in TARGETS ==> t in i.targets)
    requires i.retained.present && i.retained.binding == "source-equivalent" && HexOf(i.retained.sha256, 64)
    ensures i.policy.Some? && GateReportOk(r, i.candidate, w.hash(i.matrix), w.hash(i.policy.value))
  {
    hide Load, Decide, HexOf, UniqueDecoders, AllProposedAreSupported, EvidenceShas, InstalledFile, HeldGaps;
    hide BindsEvidence;
    GatePassesIff(w, i);
    PassingLoads(w, i, l);
    if Supports(r, MLE) {
      SupportedMleHasReport(w, i, l, r.decoders);
    }
    forall name | name in NAMES ensures BindsEvidence(r, name) {
      EvidenceFilesBound(w, i, l, r, name);
    }
    forall t | t in TARGETS ensures BindsReport(r, t) {
      assert t in r.installed;
    }
  }
}
