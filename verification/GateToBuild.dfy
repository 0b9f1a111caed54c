/** Which passing gates lead to a bundle: what the build checks that the gate did not. */
module GateToBuild {
  import opened Prelude
  import opened Text
  import opened SupportMatrix
  import opened Evidence
  import opened Coverage
  import opened Gate
  import opened GateDecision
  import opened GateLaws
  import opened GateJustified
  import opened GatePublishes
  import opened Checksums
  import opened Publication

  /** The build is given the report of the gate and the files the gate read. */
  predicate SameFiles(c: Codec, i: Inputs, r: GateReport, b: BuildInputs) {
    && c.gateOf(b.gate) == Some(r) && b.matrix == i.matrix && i.policy == Some(b.policy)
    && i.planGiven && i.plan == Some(b.plan) && b.evidence == i.dir && b.sourceSha == i.candidate
  }

  // ----------------------------------------------------- the same documents

  lemma {:induction false} ReportsHold(w: World, i: Inputs, targets: seq<string>)
    requires ReadReports(w, i, targets).Ok?
    ensures forall t :: t in targets && UsableReport(InstalledAt(w, i, t)).Some? ==>
      t in ReadReports(w, i, targets).value.reports
      && ReadReports(w, i, targets).value.reports[t] == InstalledAt(w, i, t).value
  {
    hide InstalledGaps, InstalledFile;
    if targets != [] {
      var front, t := targets[..|targets| - 1], targets[|targets| - 1];
      ReportsHold(w, i, front);
      NoReportGapIff(w, i, t);
      assert forall x :: x in targets <==> x in front || x == t;
    }
  }

  ghost predicate SameInstalled(w: World, i: Inputs, l: Loaded, d: BuildDocs, t: string) {
    && t in l.installed && t in d.reports && l.installed[t] == d.reports[t]
    && InstalledAt(w, i, t) == Some(d.reports[t]) && InstalledFile(t) in i.dir
  }

  /** What the build reads is what the gate loaded. */
  ghost predicate SameDocuments(w: World, i: Inputs, l: Loaded, b: BuildInputs, d: BuildDocs) {
    && d.matrix == l.matrix && l.plan == Some(d.plan) && l.planText == b.plan
    && l.support == Some(d.docs.support) && l.correctness == Some(d.docs.correctness)
    && l.resources == Some(d.docs.resources)
    && l.mle == (if l.mleEnforced then Usable(d.docs.mle, MLE_SCHEMA) else None)
    && forall t :: t in TARGETS ==> SameInstalled(w, i, l, d, t)
  }

  lemma {:induction false} DocsAreRead(c: Codec, i: Inputs, b: BuildInputs, d: BuildDocs)
    requires ReadBuild(c, b) == Some(d) && b.evidence == i.dir
    ensures forall name: EvidenceName :: FileOf(name) in i.dir
    ensures c.world.supportOf(i.dir[FileOf(SupportEvidence)]) == Some(d.docs.support)
    ensures c.world.correctnessOf(i.dir[FileOf(CorrectnessEvidence)]) == Some(d.docs.correctness)
    ensures c.world.resourcesOf(i.dir[FileOf(ResourcesEvidence)]) == Some(d.docs.resources)
    ensures c.world.mleOf(i.dir[FileOf(MleEvidence)]) == d.docs.mle && d.docs.mle.Some?
  {
    hide RawReports, FileOf;
    var texts := TextsOf(b);
    assert SupportEvidence in texts && CorrectnessEvidence in texts && ResourcesEvidence in texts
      && MleEvidence in texts;
    forall name: EvidenceName ensures FileOf(name) in i.dir {
      match name {
        case SupportEvidence => assert SupportEvidence in texts;
        case CorrectnessEvidence => assert CorrectnessEvidence in texts;
        case ResourcesEvidence => assert ResourcesEvidence in texts;
        case MleEvidence => assert MleEvidence in texts;
      }
    }
  }

  lemma {:induction false} ReportsAreRead(c: Codec, i: Inputs, b: BuildInputs, d: BuildDocs, t: string)
    requires ReadBuild(c, b) == Some(d) && b.evidence == i.dir && t in TARGETS
    ensures t in d.reports && InstalledAt(c.world, i, t) == Some(d.reports[t]) && InstalledFile(t) in i.dir
  {
    hide TextsOf, ReadDocs, InstalledFile;
    assert t in d.reports.Keys;
  }

  lemma {:induction false} GenericIsRead(w: World, i: Inputs, g: Generic)
    requires ReadGeneric(w, i) == Ok(g)
    ensures FileOf(SupportEvidence) in i.dir ==> g.support == w.supportOf(i.dir[FileOf(SupportEvidence)])
    ensures FileOf(CorrectnessEvidence) in i.dir ==>
      g.correctness == w.correctnessOf(i.dir[FileOf(CorrectnessEvidence)])
    ensures FileOf(ResourcesEvidence) in i.dir ==> g.resources == w.resourcesOf(i.dir[FileOf(ResourcesEvidence)])
  {
  }

  lemma {:induction false} MleIsRead(w: World, i: Inputs, m: Matrix)
    requires MleEnforced(w, i, m) && FileOf(MleEvidence) in i.dir && ReadMle(w, i, m).Ok?
    ensures ReadMle(w, i, m).value == w.mleOf(i.dir[FileOf(MleEvidence)])
  {
    hide MleEnforced;
    MleFileName();
  }

  lemma {:induction false} MleIsNotRead(w: World, i: Inputs, m: Matrix)
    requires !MleEnforced(w, i, m)
    ensures ReadMle(w, i, m) == Ok(None)
  {
    hide MleEnforced;
  }

  /** The parts of what the gate loaded. */
  lemma {:induction false} LoadedParts(w: World, i: Inputs, l: Loaded) returns (g: Generic, reports: Reports)
    requires Load(w, i) == Ok(l)
    ensures w.matrixOf(i.matrix) == Some(l.matrix) && Valid(l.matrix)
    ensures ReadGeneric(w, i) == Ok(g) && ReadReports(w, i, i.targets) == Ok(reports) && l.installed == reports.reports
    ensures l.support == Usable(g.support, SUPPORT_SCHEMA) && l.correctness == Usable(g.correctness, CORRECTNESS_SCHEMA)
    ensures l.resources == Usable(g.resources, RESOURCES_SCHEMA) && l.targets == i.targets
    ensures l.plan == LoadedPlan(w, i) && (l.plan.Some? ==> i.plan.Some? && l.planText == i.plan.value)
    ensures l.mleEnforced == MleEnforced(w, i, l.matrix) && ReadMle(w, i, l.matrix).Ok?
    ensures l.mle == Usable(ReadMle(w, i, l.matrix).value, MLE_SCHEMA)
  {
    hide Valid, ReadGeneric, ReadMle, ReadReports, SharedGaps, MleOnlyGaps, MleEnforced, Usable;
    g, reports := ReadGeneric(w, i).value, ReadReports(w, i, i.targets).value;
  }

  lemma {:induction false} TheSameDocuments(c: Codec, i: Inputs, l: Loaded, r: GateReport, b: BuildInputs, d: BuildDocs)
    requires Load(c.world, i) == Ok(l) && l.gaps == [] && SameFiles(c, i, r, b) && ReadBuild(c, b) == Some(d)
    requires forall t :: t in TARGETS ==> t in i.targets
    ensures SameDocuments(c.world, i, l, b, d) && SharedEvidence(c.world, i, l) && d.gate == r
  {
    hide Load, ReadBuild, Valid, ReadGeneric, ReadReports, ReadMle, MleEnforced, FileOf, InstalledFile, Bound, Precedes;
    hide PolicyComplete, SummaryOk;
    var w := c.world;
    var g, reports := LoadedParts(w, i, l);
    SharedEvidenceIff(w, i, l);
    DocsAreRead(c, i, b, d);
    GenericIsRead(w, i, g);
    BuildReads(c, b, d);
    if l.mleEnforced {
      MleIsRead(w, i, l.matrix);
    } else {
      MleIsNotRead(w, i, l.matrix);
    }
    ReportsHold(w, i, i.targets);
    forall t | t in TARGETS ensures SameInstalled(w, i, l, d, t) {
      ReportsAreRead(c, i, b, d, t);
      assert InstalledAccepted(w, i, t);
    }
  }

  lemma {:induction false} BuildReads(c: Codec, b: BuildInputs, d: BuildDocs)
    requires ReadBuild(c, b) == Some(d)
    ensures c.world.matrixOf(b.matrix) == Some(d.matrix) && c.gateOf(b.gate) == Some(d.gate)
    ensures c.world.planOf(b.plan) == Some(d.plan) && d.docs.mle.Some?
  {
    hide TextsOf, ReadDocs, RawReports;
  }

  // ----------------------------------------------------- what follows from the gate

  lemma {:induction false} DecisionsFollow(c: Codec, i: Inputs, l: Loaded, r: GateReport)
    requires Decide(c.world, l, l.matrix.decoders) == Ok(r.decoders) && UniqueDecoders(l.matrix.decoders)
    ensures AllDecided(l.matrix, r)
  {
    hide Decide, DecisionOf, Lookup, UniqueDecoders;
    forall d | d in l.matrix.decoders ensures HasDecision(r, d) {
      DecisionIsRecorded(c.world, l, l.matrix.decoders, d);
      DecisionIsEither(c.world, l, d);
    }
  }

  lemma {:induction false} DecisionIsEither(w: World, l: Loaded, d: Decoder)
    requires DecisionOf(w, l, d).Ok?
    ensures IsDecision(DecisionOf(w, l, d).value.decision)
  {
    hide DecoderCoverageOf, OwnPart;
  }

  lemma {:induction false} CoverageFollows(c: Codec, i: Inputs, l: Loaded, b: BuildInputs, d: BuildDocs,
                                           decoder: string)
    requires SameDocuments(c.world, i, l, b, d) && FullyCovered(l, decoder, c.world.digest)
    requires l.targets == i.targets && forall t :: t in TARGETS ==> t in i.targets
    ensures var published := LoadedFor(d.matrix, d.docs, SanitizedReports(d.reports));
            DecoderCoverageOf(published, decoder, c.world.digest) == Ok([])
  {
    hide DecoderCoverageOf, AllControlsPassed, Sound, EndToEnd, AnyEndToEnd, Successful, Evicting, InstalledAt;
    var m := LoadedFor(d.matrix, d.docs, SanitizedReports(d.reports));
    forall t | t in TARGETS
      ensures t in m.installed && AllControlsPassed(m.matrix, decoder, m.installed[t].controls)
    {
      assert SameInstalled(c.world, i, l, d, t);
      SanitizedControls(d.reports[t]);
    }
    NoCoverageGapIff(m, decoder, c.world.digest);
  }

  lemma {:induction false} SanitizedControls(r: Installed)
    ensures Sanitized(r).controls == r.controls
  {
  }

  lemma {:induction false} CompletenessFollows(c: Codec, i: Inputs, l: Loaded, r: GateReport, b: BuildInputs,
                                               d: BuildDocs)
    requires SameDocuments(c.world, i, l, b, d) && SharedEvidence(c.world, i, l)
    requires Decide(c.world, l, l.matrix.decoders) == Ok(r.decoders)
    requires l.targets == i.targets && forall t :: t in TARGETS ==> t in i.targets
    ensures Complete(c, d.matrix, r, d.docs, SanitizedReports(d.reports))
  {
    hide SameDocuments, Decide, DecisionOf, DecoderCoverageOf, LoadedFor, SanitizedReports, FullyCovered, Proposal;
    hide DocumentAccepted, Precedes, PolicyComplete, InstalledAccepted, SummaryGaps, SummaryOk, MlePlanGapsOf;
    CorrectnessFollows(c.world, i, l, b, d);
    NoSummaryGapIff(d.docs.correctness.body);
    Decided(c.world, l, l.matrix.decoders);
    var published := LoadedFor(d.matrix, d.docs, SanitizedReports(d.reports));
    forall e | e in r.decoders && e.value.decision == "supported"
      ensures DecoderCoverageOf(published, e.name, c.world.digest) == Ok([])
    {
      var k :| 0 <= k < |r.decoders| && r.decoders[k] == e;
      SupportedIff(c.world, l, l.matrix.decoders[k]);
      NoCoverageGapIff(l, e.name, c.world.digest);
      CoverageFollows(c, i, l, b, d, e.name);
    }
  }

  lemma {:induction false} CorrectnessFollows(w: World, i: Inputs, l: Loaded, b: BuildInputs, d: BuildDocs)
    requires SameDocuments(w, i, l, b, d)
    ensures l.correctness == Some(d.docs.correctness)
  {
    hide SameInstalled;
  }

  // -------------------------------------------------- what the build adds

  /** The report was made for the candidate itself, with all decoders, from the published archive and this matrix. */
  predicate ReportPublishable(c: Codec, b: BuildInputs, d: BuildDocs, r: Installed, t: string) {
    var name := BaseName(r.archive.path);
    && r.sourceRevision == b.sourceSha && r.ilp.expected && r.ilp.available
    && name in d.manifest.archives && d.manifest.archives[name].target == t
    && r.archive.sha256 == d.manifest.archives[name].sha256
    && r.matrix.sha256 == c.world.hash(b.matrix)
  }

  predicate ReportsPublishable(c: Codec, b: BuildInputs, d: BuildDocs) {
    forall t :: t in TARGETS ==> t in d.reports && ReportPublishable(c, b, d, d.reports[t], t)
  }

  /** Every document was made for the candidate itself, and the gate read the MLE report. */
  predicate DocsPublishable(l: Loaded, b: BuildInputs, d: BuildDocs) {
    && d.docs.support.revision == b.sourceSha && d.docs.correctness.revision == b.sourceSha
    && d.docs.resources.revision == b.sourceSha
    && l.mleEnforced && d.docs.mle.Some? && DocumentOk(d.docs.mle.value, MLE_SCHEMA, b.sourceSha)
  }

  /** What the build asks beyond a passing gate. */
  predicate BuildOnly(c: Codec, l: Loaded, r: GateReport, b: BuildInputs, d: BuildDocs) {
    && NameFits(b.tag, false) && HexOf(b.sourceSha, 40)
    && ManifestOk(c, d.manifest, b.tag) && d.manifest.sourceSha == b.sourceSha
    && ArchivesPresent(c, b.archives, d.manifest.archives)
    && BindingsOk(b.tag, d.matrix, r, Some(d.plan))
    && DocsPublishable(l, b, d) && ReportsPublishable(c, b, d)
    && RetainedOk(c, b.retained, r.retained.checkoutRevision)
    && MANIFEST in b.retained && c.world.hash(b.retained[MANIFEST]) == r.retained.sha256
  }

  /** What the report of the gate says of the files it read. */
  ghost predicate ReportSays(w: World, i: Inputs, l: Loaded, r: GateReport) {
    && r.evidence == EvidenceShas(w, i, l) && r.installed == InstalledRefs(w, i, l)
    && r.planSha == (if l.plan.Some? then w.hash(l.planText) else "")
  }

  lemma {:induction false} DocsAcceptedIff(c: Codec, i: Inputs, l: Loaded, r: GateReport, b: BuildInputs, d: BuildDocs)
    requires SameDocuments(c.world, i, l, b, d) && SharedEvidence(c.world, i, l) && ReportSays(c.world, i, l, r)
    requires b.evidence == i.dir && b.sourceSha == i.candidate && (forall name: EvidenceName :: FileOf(name) in i.dir)
    requires d.docs.mle.Some?
    ensures DocsOk(d.docs, b.sourceSha) && Inspected(c, r, TextsOf(b)) <==> DocsPublishable(l, b, d)
  {
    hide SameInstalled, InstalledAccepted, PolicyComplete, Precedes, SummaryOk, FileOf, Bound, InstalledRefs;
    forall name: EvidenceName
      ensures name in NAMES && name in TextsOf(b)
      ensures InspectedAs(c, r, name, TextsOf(b)[name]) <==> HasUsable(l, name)
    {
      AllNamesHere(name);
    }
    assert l.support.Some? && l.correctness.Some? && l.resources.Some?;
    if DocsOk(d.docs, b.sourceSha) && Inspected(c, r, TextsOf(b)) {
      assert InspectedAs(c, r, MleEvidence, TextsOf(b)[MleEvidence]);
    }
  }

  lemma {:induction false} AllNamesHere(name: EvidenceName)
    ensures name in NAMES
  {
    match name {
      case SupportEvidence => assert NAMES[0] == name;
      case CorrectnessEvidence => assert NAMES[1] == name;
      case ResourcesEvidence => assert NAMES[2] == name;
      case MleEvidence => assert NAMES[3] == name;
    }
  }

  lemma {:induction false} ReportsAcceptedIff(c: Codec, i: Inputs, l: Loaded, r: GateReport, b: BuildInputs,
                                              d: BuildDocs)
    requires SameDocuments(c.world, i, l, b, d) && SharedEvidence(c.world, i, l) && ReportSays(c.world, i, l, r)
    requires b.evidence == i.dir && b.sourceSha == i.candidate && d.gate == r
    requires forall t :: t in TARGETS ==> t in i.targets
    ensures ReportsOk(c, b, d) <==> ReportsPublishable(c, b, d)
  {
    hide DocumentAccepted, PolicyComplete, Precedes, SummaryOk, Bound, EvidenceShas, InstalledFile, Portable, BaseName;
    forall t | t in TARGETS
      ensures t in d.reports && (ReportFits(c, b, d, t) <==> ReportPublishable(c, b, d, d.reports[t], t))
    {
      assert SameInstalled(c.world, i, l, d, t);
      assert InstalledAccepted(c.world, i, t);
    }
  }

  lemma {:induction false} ReportIsAsSaid(w: World, i: Inputs, l: Loaded, r: GateReport)
    requires Load(w, i) == Ok(l) && EvaluateOf(w, i) == Ok(r)
    ensures ReportSays(w, i, l, r) && Decide(w, l, l.matrix.decoders) == Ok(r.decoders) && r.retained == i.retained
  {
    hide Load, Decide, EvidenceShas, InstalledRefs, HeldGaps;
  }

  lemma {:induction false} SchemaOfValid(m: Matrix)
    requires Valid(m)
    ensures m.schema == MATRIX_SCHEMA
  {
    hide IdsOk, DecodersOk, RequiredOk, ExpectationOk;
  }

  /** The gate passed, for the official targets at least, with a retained report measured on the same sources. */
  ghost predicate GatePassed(w: World, i: Inputs, l: Loaded, r: GateReport) {
    && Load(w, i) == Ok(l) && EvaluateOf(w, i) == Ok(r) && r.status == "pass" && UniqueDecoders(l.matrix.decoders)
    && (forall t :: t in TARGETS ==> t in i.targets)
    && i.retained.present && i.retained.binding == "source-equivalent" && HexOf(i.retained.sha256, 64)
  }

  /**
   From a gate that passed for the official targets, the build of the same files is accepted exactly when it passes the
   checks that only the build makes: no document or report is waived by equivalence, the reports are ILP-capable and
   name the published archives, the MLE report was read, and tag, manifest, archives, bindings and retained files fit.
  */
  lemma {:induction false} PassingGateBuildsIff(c: Codec, i: Inputs, l: Loaded, r: GateReport, b: BuildInputs,
                                                d: BuildDocs)
    requires GatePassed(c.world, i, l, r) && forall x :: HexOf(c.world.hash(x), 64)
    requires SameFiles(c, i, r, b) && ReadBuild(c, b) == Some(d)
    ensures BuildChecks(c, b, d) <==> BuildOnly(c, l, r, b, d)
  {
    hide Load, EvaluateOf, ReadBuild, UniqueDecoders, AllProposedAreSupported, SameDocuments, SharedEvidence;
    hide ReportSays;
    hide NameFits, HexOf, ManifestOk, ArchivesPresent, BindingsOk, DocsPublishable, ReportsPublishable, RetainedOk;
    hide Complete;
    hide AllDecided, GateReportOk, DocsOk, Inspected, ReportsOk, SanitizedReports, TextsOf, Decide, Valid;
    var w := c.world;
    GatePassesIff(w, i);
    TheSameDocuments(c, i, l, r, b, d);
    PassingGateIsPublishable(w, i, l, r);
    ReportIsAsSaid(w, i, l, r);
    DocsAreRead(c, i, b, d);
    BuildReads(c, b, d);
    DocsAcceptedIff(c, i, l, r, b, d);
    ReportsAcceptedIff(c, i, l, r, b, d);
    DecisionsFollow(c, i, l, r);
    var g, reports := LoadedParts(w, i, l);
    CompletenessFollows(c, i, l, r, b, d);
    SchemaOfValid(l.matrix);
    PlanIsSaid(w, i, l, r, b, d);
  }

  lemma {:induction false} PlanIsSaid(w: World, i: Inputs, l: Loaded, r: GateReport, b: BuildInputs, d: BuildDocs)
    requires SameDocuments(w, i, l, b, d) && ReportSays(w, i, l, r)
    ensures r.planSha == w.hash(b.plan) && d.matrix == l.matrix
  {
    hide SameInstalled, EvidenceShas, InstalledRefs;
  }
}
