/** What the report of the gate says of each decoder, told from the matrix, the plan and the evidence alone. */
module GateReports {
  import opened Prelude
  import opened SupportMatrix
  import opened Evidence
  import opened Gate
  import opened GateDecision
  import opened GateLaws
  import opened GateJustified
  import opened GateLoads

  /** The scope plan was given, can be read, and proposes the MLE decoder. */
  predicate PlanProposesMle(w: World, i: Inputs) {
    && i.planGiven && i.plan.Some? && w.planOf(i.plan.value).Some?
    && w.planOf(i.plan.value).value.proposed == PROPOSED
  }

  /** What proposes a decoder: its declaration, and for the MLE decoder also the scope plan. */
  predicate Proposed(w: World, i: Inputs, m: Matrix, d: Decoder) {
    d.proposed == PROPOSED || (d.name == MLE && (MatrixProposesMle(m) || PlanProposesMle(w, i)))
  }

  lemma {:induction false} Enforced(w: World, i: Inputs, l: Loaded)
    requires Load(w, i) == Ok(l)
    ensures l.mleEnforced <==> MatrixProposesMle(l.matrix) || PlanProposesMle(w, i)
    ensures l.plan == (if i.planGiven && i.plan.Some? then w.planOf(i.plan.value) else None)
  {
    hide ReadMatrix, ReadGeneric, ReadMle, ReadReports, SharedGaps, MleOnlyGaps, MatrixProposesMle;
  }

  /** The recorded maturity and proposal of every decoder, in the order of the matrix. */
  lemma {:induction false} ProposalIsRecorded(w: World, i: Inputs, l: Loaded, k: nat)
    requires Load(w, i) == Ok(l) && EvaluateOf(w, i).Ok? && k < |l.matrix.decoders|
    ensures |EvaluateOf(w, i).value.decoders| == |l.matrix.decoders|
    ensures var d, e := l.matrix.decoders[k], EvaluateOf(w, i).value.decoders[k];
      && e.name == d.name && e.value.current == d.currentMaturity
      && (e.value.proposed == PROPOSED <==> Proposed(w, i, l.matrix, d))
      && (!Proposed(w, i, l.matrix, d) ==> e.value.proposed == d.proposed)
  {
    hide Load, Decide, DecoderCoverageOf, OwnPart, EvidenceShas, InstalledRefs, HeldGaps, MatrixProposesMle;
    hide PlanProposesMle;
    Decided(w, l, l.matrix.decoders);
    Enforced(w, i, l);
  }

  /** The recorded decision: supported, with nothing held against it, exactly where it is proposed and justified. */
  lemma {:induction false} DecisionIsRecordedAs(w: World, i: Inputs, l: Loaded, k: nat)
    requires Load(w, i) == Ok(l) && EvaluateOf(w, i).Ok? && k < |l.matrix.decoders|
    ensures |EvaluateOf(w, i).value.decoders| == |l.matrix.decoders|
    ensures var d, e := l.matrix.decoders[k], EvaluateOf(w, i).value.decoders[k];
      && (e.value.decision == "supported" || e.value.decision == "beta")
      && (e.value.coverageGaps == [] <==> FullyCovered(l, d.name, w.digest))
      && (!Proposed(w, i, l.matrix, d) ==> e.value.decision == "beta" && e.value.blocking == [])
      && (Proposed(w, i, l.matrix, d) ==> (e.value.decision == "supported" <==> e.value.blocking == []))
      && (Proposed(w, i, l.matrix, d) ==>
           (e.value.blocking == [] <==>
             (SharedEvidence(w, i, l) && FullyCovered(l, d.name, w.digest)
              && (d.name == MLE ==> MleJustified(w, i, l)))))
      && (Proposed(w, i, l.matrix, d) ==> e.value.coverageGaps <= e.value.blocking)
  {
    hide Load, Decide, DecoderCoverageOf, OwnPart, EvidenceShas, InstalledRefs, HeldGaps, MatrixProposesMle;
    hide PlanProposesMle, SharedEvidence, FullyCovered, MleJustified;
    var d := l.matrix.decoders[k];
    Decided(w, l, l.matrix.decoders);
    Enforced(w, i, l);
    SupportedIffJustified(w, i, l, k);
    NoCoverageGapIff(l, d.name, w.digest);
    assert "supported" != "beta";
  }

  /** The status: pass exactly when the shared evidence is in order and no decoder is held back. */
  lemma {:induction false} StatusIsRecorded(w: World, i: Inputs, l: Loaded)
    requires Load(w, i) == Ok(l) && EvaluateOf(w, i).Ok?
    ensures var r := EvaluateOf(w, i).value;
      && r.candidate == i.candidate && r.requiredTargets == i.targets
      && (r.status == "pass" || r.status == "fail")
      && (r.status == "pass" <==> SharedEvidence(w, i, l) && forall e :: e in r.decoders ==> e.value.blocking == [])
      && (r.status == "pass" <==> r.gaps == [])
  {
    hide Load, Decide, EvidenceShas, InstalledRefs, HeldGaps, SharedEvidence;
    var r := EvaluateOf(w, i).value;
    SharedEvidenceIff(w, i, l);
    NothingHeldIff(r.decoders);
    assert l.gaps + HeldGaps(r.decoders) == [] <==> l.gaps == [] && HeldGaps(r.decoders) == [];
    assert "pass" != "fail";
  }

  /** A plan that proposes the MLE decoder puts it to the test: unless all it needs is in order, the gate fails. */
  lemma {:induction false} ProposedPlanIsTested(w: World, i: Inputs, l: Loaded, k: nat)
    requires Load(w, i) == Ok(l) && EvaluateOf(w, i).Ok? && k < |l.matrix.decoders|
    requires l.matrix.decoders[k].name == MLE && PlanProposesMle(w, i)
    requires !(FullyCovered(l, MLE, w.digest) && MleJustified(w, i, l))
    ensures |EvaluateOf(w, i).value.decoders| == |l.matrix.decoders|
    ensures EvaluateOf(w, i).value.decoders[k].value.decision == "beta"
    ensures EvaluateOf(w, i).value.decoders[k].value.blocking != [] && EvaluateOf(w, i).value.status == "fail"
  {
    hide Load, EvaluateOf, PlanProposesMle, SharedEvidence, FullyCovered, MleJustified, MatrixProposesMle;
    DecisionIsRecordedAs(w, i, l, k);
    StatusIsRecorded(w, i, l);
    assert EvaluateOf(w, i).value.decoders[k] in EvaluateOf(w, i).value.decoders;
  }

  // -------------------------------------------------- which gaps are reported

  /** The gaps of the report: those that all decoders share, and one for every decoder that is held back. */
  lemma {:induction false} GapsAreRecorded(w: World, i: Inputs, l: Loaded, g: Gap)
    requires Load(w, i) == Ok(l) && EvaluateOf(w, i).Ok?
    ensures var r := EvaluateOf(w, i).value;
      g in r.gaps <==>
        (g in l.gaps || exists e :: e in r.decoders && e.value.blocking != [] && g == Note(HeldAtBeta, e.name))
  {
    hide Load, Decide, EvidenceShas, InstalledRefs, HeldGaps;
    HeldGapsAre(EvaluateOf(w, i).value.decoders, g);
  }

  lemma {:induction false} HeldGapsAre(decisions: seq<Named<Decision>>, g: Gap)
    ensures g in HeldGaps(decisions) <==>
      exists e :: e in decisions && e.value.blocking != [] && g == Note(HeldAtBeta, e.name)
  {
    if decisions != [] {
      var front, last := decisions[..|decisions| - 1], decisions[|decisions| - 1];
      HeldGapsAre(front, g);
      assert forall e :: e in decisions <==> e in front || e == last;
    }
  }

  // -------------------------------------------------- which evidence passes

  /** Evidence of the candidate itself, or of a revision that is listed as equivalent to it. */
  predicate Counts(i: Inputs, revision: string) {
    revision == i.candidate || (revision != "" && exists p :: p in i.pairs && p == Pair(revision, i.candidate))
  }

  /** Where the gate passes, the matrix precedes the candidate, and every document and report counts for it. */
  lemma {:induction false} PassingIsOfCandidate(w: World, i: Inputs, l: Loaded)
    requires Load(w, i) == Ok(l) && EvaluateOf(w, i).Ok? && EvaluateOf(w, i).value.status == "pass"
    ensures var revision := l.matrix.sourceRevision;
      revision != "" && (revision == i.candidate || w.isAncestor(revision, i.candidate) == Some(true))
    ensures l.support.Some? && Counts(i, l.support.value.revision) && l.support.value.status == "pass"
    ensures l.correctness.Some? && Counts(i, l.correctness.value.revision) && l.correctness.value.status == "pass"
    ensures l.resources.Some? && Counts(i, l.resources.value.revision) && l.resources.value.status == "pass"
    ensures forall t :: t in i.targets ==>
      t in l.installed && l.installed[t].target == t && Counts(i, l.installed[t].sourceRevision)
      && l.installed[t].status == "pass"
  {
    hide Load, EvaluateOf, PolicyComplete, InstalledAt;
    StatusIsRecorded(w, i, l);
    DocumentsAreLoaded(w, i, l);
    forall t | t in i.targets
      ensures t in l.installed && l.installed[t].target == t && Counts(i, l.installed[t].sourceRevision)
        && l.installed[t].status == "pass"
    {
      assert InstalledAccepted(w, i, t);
    }
  }

  /** The digest of one document: there exactly if the gate went by the document, and then that of its file. */
  predicate DigestIs(w: World, i: Inputs, digests: map<EvidenceName, string>, name: EvidenceName, file: string,
                     used: bool) {
    && (name in digests <==> used)
    && (used ==> file in i.dir && digests[name] == w.hash(i.dir[file]))
  }

  lemma {:induction false} EvidenceDigests(w: World, i: Inputs, l: Loaded)
    requires l.support.Some? ==> "support.json" in i.dir
    requires l.correctness.Some? ==> "correctness.json" in i.dir
    requires l.resources.Some? ==> "resources.json" in i.dir
    requires l.mle.Some? ==> "mle-resources.json" in i.dir
    ensures var digests := EvidenceShas(w, i, l);
      && DigestIs(w, i, digests, SupportEvidence, "support.json", l.support.Some?)
      && DigestIs(w, i, digests, CorrectnessEvidence, "correctness.json", l.correctness.Some?)
      && DigestIs(w, i, digests, ResourcesEvidence, "resources.json", l.resources.Some?)
      && DigestIs(w, i, digests, MleEvidence, "mle-resources.json", l.mle.Some?)
  {
    assert SupportEvidence in NAMES && CorrectnessEvidence in NAMES && ResourcesEvidence in NAMES
      && MleEvidence in NAMES;
  }

  predicate InstalledDigestIs(w: World, i: Inputs, l: Loaded, refs: map<string, InstalledRef>, target: string) {
    && target in l.installed && InstalledFile(target) in i.dir && target in refs
    && refs[target].sha256 == w.hash(i.dir[InstalledFile(target)])
    && refs[target].portableSha256 == w.hash(w.portableText(Portable(l.installed[target])))
  }

  lemma {:induction false} InstalledDigests(w: World, i: Inputs, l: Loaded)
    requires forall t :: t in l.installed ==> InstalledFile(t) in i.dir
    ensures InstalledRefs(w, i, l).Keys == l.installed.Keys
    ensures forall t :: t in l.installed ==> InstalledDigestIs(w, i, l, InstalledRefs(w, i, l), t)
  {
    hide Portable, InstalledFile;
  }

  /** The digests of the report are those of the files the gate went by. */
  lemma {:induction false} DigestsAreRecorded(w: World, i: Inputs, l: Loaded)
    requires Load(w, i) == Ok(l) && EvaluateOf(w, i).Ok?
    ensures var r := EvaluateOf(w, i).value;
      && r.matrixSha == w.hash(i.matrix) && (i.policy.Some? ==> r.policySha == w.hash(i.policy.value))
      && (l.plan.Some? ==> i.plan.Some? && r.planSha == w.hash(i.plan.value))
      && DigestIs(w, i, r.evidence, SupportEvidence, "support.json", l.support.Some?)
      && DigestIs(w, i, r.evidence, CorrectnessEvidence, "correctness.json", l.correctness.Some?)
      && DigestIs(w, i, r.evidence, ResourcesEvidence, "resources.json", l.resources.Some?)
      && DigestIs(w, i, r.evidence, MleEvidence, "mle-resources.json", l.mle.Some?)
      && r.installed.Keys == l.installed.Keys
      && forall t :: t in l.installed ==> InstalledDigestIs(w, i, l, r.installed, t)
  {
    hide Load, Decide, HeldGaps, EvidenceShas, InstalledRefs, DigestIs, InstalledDigestIs;
    DocumentsAreLoaded(w, i, l);
    EvidenceDigests(w, i, l);
    forall t | t in l.installed ensures InstalledFile(t) in i.dir {
      assert InstalledAt(w, i, t).Some?;
    }
    InstalledDigests(w, i, l);
  }
}
