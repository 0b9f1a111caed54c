/** The whole way: from a gate that passed to a release directory the verifier accepts. */
module GateToRelease {
  import opened Prelude
  import opened Text
  import opened SupportMatrix
  import opened Evidence
  import opened Gate
  import opened GateDecision
  import opened GateLaws
  import opened GateJustified
  import opened GatePublishes
  import opened GateToBuild
  import opened Publication
  import opened BundleBuild
  import opened BundleVerify
  import opened NamesFit
  import opened Agreement

  // ------------------------------------------------------------ the replay

  /** A gate that supports the MLE decoder has replayed its report without a problem. */
  lemma {:induction false} SupportedMleIsReplayed(w: World, i: Inputs, l: Loaded, decisions: seq<Named<Decision>>)
    requires Load(w, i) == Ok(l) && UniqueDecoders(l.matrix.decoders)
    requires Decide(w, l, l.matrix.decoders) == Ok(decisions) && l.plan.Some?
    requires Lookup(decisions, MLE).Some? && Lookup(decisions, MLE).value.decision == "supported"
    ensures l.mle.Some? && w.replay(l.mle.value, l.planText) == Some([])
  {
    hide Load, Decide, DecisionOf, UniqueDecoders, Lookup, DecoderCoverageOf, MlePlanGapsOf, CaseMet, DeclaredWorkloads;
    SupportedHasDecoder(w, l, decisions, MLE);
    var d :| d in l.matrix.decoders && d.name == MLE && IsSupportedDecision(w, l, d);
    SupportedIff(w, l, d);
    SupportedMleHasReport(w, i, l, decisions);
    NoPlanGapIff(w, l, l.plan.value);
  }

  lemma {:induction false} ReplayFollows(c: Codec, i: Inputs, l: Loaded, r: GateReport, b: BuildInputs, d: BuildDocs)
    requires Load(c.world, i) == Ok(l) && UniqueDecoders(l.matrix.decoders) && SameDocuments(c.world, i, l, b, d)
    requires Decide(c.world, l, l.matrix.decoders) == Ok(r.decoders) && DocsPublishable(l, b, d)
    ensures ReplayOk(c, r, d.docs, b.plan)
  {
    hide Load, Decide, UniqueDecoders, SameInstalled, Lookup;
    if Supports(r, MLE) {
      SupportedMleIsReplayed(c.world, i, l, r.decoders);
    }
  }

  // ------------------------------------------------------------- the claims

  lemma {:induction false} ClaimsFollow(m: Matrix, g: GateReport, plan: Option<Plan>, decoders: seq<Decoder>,
                                        name: string)
    requires exists d :: d in decoders && d.name == name
    ensures var claims := ClaimsOf(m, g, plan, decoders);
      name in claims && (Supports(g, name) ==> claims[name].maturity == "supported")
  {
    hide Lookup;
    var front, last := decoders[..|decoders| - 1], decoders[|decoders| - 1];
    if last.name != name {
      var d :| d in decoders && d.name == name;
      assert d in front;
      ClaimsFollow(m, g, plan, front, name);
    }
  }

  /** What the gate supports, the publication claims as supported. */
  lemma {:induction false} SupportIsClaimed(c: Codec, i: Inputs, l: Loaded, r: GateReport, b: BuildInputs, d: BuildDocs,
                                            expected: seq<string>)
    requires Decide(c.world, l, l.matrix.decoders) == Ok(r.decoders) && d.gate == r && d.matrix == l.matrix
    requires forall name :: name in expected ==> Supports(r, name)
    ensures AllSupported(RecordOf(c, b, d).decoders, expected)
  {
    hide Decide, DecisionOf, Lookup, RecordOf, ClaimsOf;
    RecordFields(c, b, d);
    forall name | name in expected ensures IsSupported(RecordOf(c, b, d).decoders, name) {
      SupportedHasDecoder(c.world, l, r.decoders, name);
      ClaimsFollow(d.matrix, r, Some(d.plan), d.matrix.decoders, name);
    }
  }

  lemma {:induction false} TargetsAreRequired(w: World, i: Inputs, r: GateReport)
    requires EvaluateOf(w, i) == Ok(r)
    ensures r.requiredTargets == i.targets
  {
    hide Load, Decide, EvidenceShas, InstalledRefs, HeldGaps;
  }

  // ------------------------------------------------------------ the release

  /** What the verifier still checks of a release whose gate passed and whose bundle was built. */
  predicate ReleaseOnly(c: Codec, i: Inputs, b: BuildInputs, d: BuildDocs) {
    i.targets == TARGETS && RawPinned(c, b.retained, d.retained.cases) && RetainedNamesFit(b.retained)
  }

  /**
   From a gate that passed, with the build given the same files and the release directory holding what was built: the
   build and the verifier both accept exactly when what only the build checks holds, the gate ran for the official
   targets in their order, every retained case pins its raw file, and the names of the retained files fit the grammar.
   The decoders that are expected may be any that the gate supports.
  */
  lemma {:induction false} PassingGateIsAcceptedIff(c: Codec, i: Inputs, l: Loaded, r: GateReport, b: BuildInputs,
                                                    d: BuildDocs, bundle: Bundle, release: map<string, string>,
                                                    expected: seq<string>)
    requires Faithful(c) && GatePassed(c.world, i, l, r) && SameFiles(c, i, r, b)
    requires ReadBuild(c, b) == Some(d) && Released(c, b, d, bundle, release)
    requires forall name :: name in expected ==> Supports(r, name)
    ensures BuildChecks(c, b, d) && DirectoryAccepts(c, release, bundle.name, expected) <==>
      BuildOnly(c, l, r, b, d) && ReleaseOnly(c, i, b, d)
  {
    hide Load, EvaluateOf, ReadBuild, UniqueDecoders, SameFiles, Released, HexOf;
    hide BuildChecks, DirectoryAccepts, RawPinned, RetainedNamesFit, AllSupported, RecordOf, SameDocuments;
    hide SharedEvidence, ReportSays, Supports, AllProposedAreSupported, ReplayOk, DocsPublishable, Decide;
    HashesAreHex(c);
    PassingGateBuildsIff(c, i, l, r, b, d);
    GatePassesIff(c.world, i);
    TheSameDocuments(c, i, l, r, b, d);
    ReportIsAsSaid(c.world, i, l, r);
    TargetsAreRequired(c.world, i, r);
    if BuildChecks(c, b, d) {
      MatrixIsSame(c, i, l, b, d);
      SupportIsClaimed(c, i, l, r, b, d, expected);
      ReplayFollows(c, i, l, r, b, d);
      PublishedBundleIsAcceptedIff(c, b, d, bundle, release, expected);
    }
  }

  lemma {:induction false} HashesAreHex(c: Codec)
    requires Faithful(c)
    ensures forall x :: HexOf(c.world.hash(x), 64)
  {
  }

  lemma {:induction false} MatrixIsSame(c: Codec, i: Inputs, l: Loaded, b: BuildInputs, d: BuildDocs)
    requires SameDocuments(c.world, i, l, b, d)
    ensures d.matrix == l.matrix
  {
    hide SameInstalled;
  }
}
