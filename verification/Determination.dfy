/** The hash chain: what the bytes of the gate report of an accepted bundle determine. */
module Determination {
  import opened Prelude
  import opened Text
  import opened SupportMatrix
  import opened Evidence
  import opened Checksums
  import opened Publication
  import opened BundleVerify

  /** An accepted bundle: its files, the release it lies in, the decoders that were expected. */
  datatype AcceptedBundle = AcceptedBundle(files: map<string, string>, release: map<string, string>, name: string,
                                           expected: seq<string>, o: Opened)

  predicate IsAccepted(c: Codec, a: AcceptedBundle) {
    Open(c, a.files, a.release) == Some(a.o) && VerifyAccepts(c, a.files, a.release, a.name, a.expected)
  }

  /** The texts of a bundle that are hashed: its files and the machine-independent parts of its reports. */
  function HashedTexts(c: Codec, a: AcceptedBundle): set<string> {
    a.files.Values
    + set p | p in a.o.record.platforms && ReportAt(c, a.files, p).Some? ::
        c.world.portableText(Portable(ReportAt(c, a.files, p).value))
  }

  /** Different texts of the two bundles have different digests, and different reports are written differently. */
  ghost predicate CollisionFree(c: Codec, a: AcceptedBundle, b: AcceptedBundle) {
    && (forall x, y :: x in HashedTexts(c, a) && y in HashedTexts(c, b) ==>
         c.world.hash(x) == c.world.hash(y) ==> x == y)
    && (forall r, s :: c.world.portableText(r) == c.world.portableText(s) ==> r == s)
  }

  predicate SameText(a: AcceptedBundle, b: AcceptedBundle, m: Member) {
    PathOf(m) in a.files && PathOf(m) in b.files && a.files[PathOf(m)] == b.files[PathOf(m)]
  }

  // ---------------------------------------------- what the gate report pins

  /** The documents are the ones in the files. */
  ghost predicate Reads(c: Codec, a: AcceptedBundle) {
    && PathOf(GateMember) in a.files && c.gateOf(a.files[PathOf(GateMember)]) == Some(a.o.gate)
    && PathOf(MatrixMember) in a.files && c.world.matrixOf(a.files[PathOf(MatrixMember)]) == Some(a.o.matrix)
    && PathOf(RetainedMember(MANIFEST)) in a.files
    && c.retainedOf(a.files[PathOf(RetainedMember(MANIFEST))]) == Some(a.o.retained)
    && (a.o.plan.Some? ==>
      PathOf(ScopeMember) in a.files && c.world.planOf(a.files[PathOf(ScopeMember)]) == a.o.plan)
  }

  /** What the gate report says about the contents of the bundle that carries it. */
  ghost predicate Pins(c: Codec, a: AcceptedBundle) {
    && FileMatches(c, a.files, MatrixMember, a.o.gate.matrixSha)
    && FileMatches(c, a.files, PolicyMember, a.o.gate.policySha)
    && FileMatches(c, a.files, RetainedMember(MANIFEST), a.o.gate.retained.sha256)
    && a.o.record.sourceSha == a.o.gate.candidate
    && (a.o.plan.Some? ==> FileMatches(c, a.files, ScopeMember, a.o.gate.planSha))
    && (a.o.plan.None? ==> !Supports(a.o.gate, MLE))
    && (forall k :: k in a.o.retained.cases && k.raw != "" ==>
      k.rawSha.Some? && FileMatches(c, a.files, RetainedMember(k.raw), k.rawSha.value))
    && Inspected(c, a.o.gate, TextsIn(a.files, a.o.record))
  }

  ghost predicate PinsReport(c: Codec, a: AcceptedBundle, p: Platform) {
    && ReportAt(c, a.files, p).Some? && p.target in a.o.gate.installed
    && var portable := Portable(ReportAt(c, a.files, p).value);
       a.o.gate.installed[p.target].portableSha256 == c.world.hash(c.world.portableText(portable))
  }

  /** What every check of the verifier together tie to the gate report. */
  ghost predicate Tied(c: Codec, a: AcceptedBundle) {
    && Reads(c, a) && Pins(c, a)
    && (forall k :: 0 <= k < |a.o.record.platforms| ==> PinsReport(c, a, a.o.record.platforms[k]))
    && a.o.record.decoders == ClaimsIn(a.o)
    && a.o.record.supported == SupportedNames(ClaimsIn(a.o), a.o.matrix.decoders)
  }

  lemma {:induction false} OpenReads(c: Codec, a: AcceptedBundle)
    requires Open(c, a.files, a.release) == Some(a.o)
    ensures Reads(c, a) && (a.o.plan.Some? ==> a.o.record.scope.Some?)
  {
    hide PathOf, ReadDocs, TextsIn;
  }

  lemma {:induction false} ContentsPin(c: Codec, a: AcceptedBundle)
    requires ContentsOk(c, a.files, a.o, a.expected) && (a.o.plan.Some? ==> a.o.record.scope.Some?)
    ensures FileMatches(c, a.files, MatrixMember, a.o.gate.matrixSha)
    ensures FileMatches(c, a.files, PolicyMember, a.o.gate.policySha)
    ensures a.o.record.sourceSha == a.o.gate.candidate
    ensures a.o.plan.Some? ==> FileMatches(c, a.files, ScopeMember, a.o.gate.planSha)
    ensures a.o.plan.None? ==> !Supports(a.o.gate, MLE)
  {
    hide PathOf, FileMatches, Supports, BindingsOk, BindsEvidence, BindsReport, HexOf;
  }

  lemma {:induction false} PlatformPins(c: Codec, a: AcceptedBundle, p: Platform)
    requires PlatformOk(c, a.files, a.release, a.o, p)
    ensures PinsReport(c, a, p)
  {
    hide FileMatches, Portable;
  }

  /** An accepted bundle is tied to its gate report. */
  lemma {:induction false} AcceptedIsTied(c: Codec, a: AcceptedBundle)
    requires IsAccepted(c, a)
    ensures Tied(c, a)
  {
    hide ContentsOk, PlatformOk, PinsReport, ListingOk, Open, RecordOk, ReleaseOk, Complete, AllSupported, Reads;
    hide FileMatches;
    hide Inspected, DocsOk, Recorded, ReplayOk, PathOf, TextsIn, ClaimsIn, AllDecided, ClimbsUp, HexOf, Supports;
    OpenReads(c, a);
    ContentsPin(c, a);
    forall k | 0 <= k < |a.o.record.platforms| ensures PinsReport(c, a, a.o.record.platforms[k]) {
      PlatformPins(c, a, a.o.record.platforms[k]);
    }
    forall k | k in a.o.retained.cases && k.raw != ""
      ensures k.rawSha.Some? && FileMatches(c, a.files, RetainedMember(k.raw), k.rawSha.value)
    {
      assert RawBundled(c, a.files, k);
    }
  }

  lemma {:induction false} Pinned(c: Codec, a: AcceptedBundle, b: AcceptedBundle, m: Member, sha: string)
    requires CollisionFree(c, a, b) && FileMatches(c, a.files, m, sha) && FileMatches(c, b.files, m, sha)
    ensures SameText(a, b, m)
  {
    hide PathOf;
    SameDigest(c, a, b, a.files[PathOf(m)], b.files[PathOf(m)]);
  }

  lemma {:induction false} SameDigest(c: Codec, a: AcceptedBundle, b: AcceptedBundle, x: string, y: string)
    requires CollisionFree(c, a, b) && c.world.hash(x) == c.world.hash(y)
    requires x in a.files.Values && y in b.files.Values
    ensures x == y
  {
    assert x in HashedTexts(c, a) && y in HashedTexts(c, b);
  }

  // ------------------------------------------------------------ the evidence

  /** The same matrix, policy, retained manifest and source revision, and the same plan where both have one. */
  ghost predicate SameInputs(a: AcceptedBundle, b: AcceptedBundle) {
    && a.o.gate == b.o.gate && a.o.record.sourceSha == b.o.record.sourceSha
    && SameText(a, b, MatrixMember) && SameText(a, b, PolicyMember) && SameText(a, b, RetainedMember(MANIFEST))
    && a.o.matrix == b.o.matrix && a.o.retained == b.o.retained
    && (a.o.plan.Some? && b.o.plan.Some? ==> SameText(a, b, ScopeMember) && a.o.plan == b.o.plan)
  }

  ghost predicate SameEvidence(a: AcceptedBundle, b: AcceptedBundle) {
    forall name :: name in TextsIn(a.files, a.o.record) && name in TextsIn(b.files, b.o.record) ==>
      SameText(a, b, EvidenceMember(name))
  }

  ghost predicate SameRawObservations(a: AcceptedBundle, b: AcceptedBundle) {
    forall k :: k in a.o.retained.cases && k.raw != "" ==> SameText(a, b, RetainedMember(k.raw))
  }

  /** Reports for one target have the same machine-independent part. */
  ghost predicate SamePortable(c: Codec, a: AcceptedBundle, b: AcceptedBundle, p: Platform, q: Platform) {
    p.target == q.target ==>
      && ReportAt(c, a.files, p).Some? && ReportAt(c, b.files, q).Some?
      && Portable(ReportAt(c, a.files, p).value) == Portable(ReportAt(c, b.files, q).value)
  }

  ghost predicate SamePortables(c: Codec, a: AcceptedBundle, b: AcceptedBundle) {
    forall j, k :: 0 <= j < |a.o.record.platforms| && 0 <= k < |b.o.record.platforms| ==>
      SamePortable(c, a, b, a.o.record.platforms[j], b.o.record.platforms[k])
  }

  /** The same maturity for every decoder, the same supported ones, and the same claims for these. */
  ghost predicate SameClaims(a: AcceptedBundle, b: AcceptedBundle) {
    && a.o.record.supported == b.o.record.supported
    && a.o.record.decoders.Keys == b.o.record.decoders.Keys
    && forall name :: name in a.o.record.decoders ==>
      && a.o.record.decoders[name].maturity == b.o.record.decoders[name].maturity
      && (a.o.record.decoders[name].maturity == "supported" ==> a.o.record.decoders[name] == b.o.record.decoders[name])
  }

  lemma {:induction false} InputsAgree(c: Codec, a: AcceptedBundle, b: AcceptedBundle)
    requires CollisionFree(c, a, b) && Reads(c, a) && Reads(c, b) && Pins(c, a) && Pins(c, b)
    requires SameText(a, b, GateMember)
    ensures SameInputs(a, b)
  {
    hide PathOf, FileMatches, CollisionFree, Supports, Inspected, TextsIn;
    Pinned(c, a, b, MatrixMember, a.o.gate.matrixSha);
    Pinned(c, a, b, PolicyMember, a.o.gate.policySha);
    Pinned(c, a, b, RetainedMember(MANIFEST), a.o.gate.retained.sha256);
    if a.o.plan.Some? && b.o.plan.Some? {
      Pinned(c, a, b, ScopeMember, a.o.gate.planSha);
    }
  }

  lemma {:induction false} InTexts(files: map<string, string>, record: PublicationRecord, name: EvidenceName)
    requires name in TextsIn(files, record)
    ensures PathOf(EvidenceMember(name)) in files && TextsIn(files, record)[name] == files[PathOf(EvidenceMember(name))]
  {
    hide PathOf;
  }

  lemma {:induction false} EvidenceAgrees(c: Codec, a: AcceptedBundle, b: AcceptedBundle)
    requires CollisionFree(c, a, b) && a.o.gate == b.o.gate
    requires Inspected(c, a.o.gate, TextsIn(a.files, a.o.record))
      && Inspected(c, b.o.gate, TextsIn(b.files, b.o.record))
    ensures SameEvidence(a, b)
  {
    hide PathOf, TextsIn, CollisionFree;
    forall name | name in TextsIn(a.files, a.o.record) && name in TextsIn(b.files, b.o.record)
      ensures SameText(a, b, EvidenceMember(name))
    {
      InTexts(a.files, a.o.record, name);
      InTexts(b.files, b.o.record, name);
      assert InspectedAs(c, a.o.gate, name, a.files[PathOf(EvidenceMember(name))]);
      assert InspectedAs(c, b.o.gate, name, b.files[PathOf(EvidenceMember(name))]);
      SameDigest(c, a, b, a.files[PathOf(EvidenceMember(name))], b.files[PathOf(EvidenceMember(name))]);
    }
  }

  lemma {:induction false} RawObservationsAgree(c: Codec, a: AcceptedBundle, b: AcceptedBundle)
    requires CollisionFree(c, a, b) && Pins(c, a) && Pins(c, b) && a.o.retained == b.o.retained
    ensures SameRawObservations(a, b)
  {
    hide PathOf, FileMatches, CollisionFree, Supports, Inspected, TextsIn, SameText;
    forall k | k in a.o.retained.cases && k.raw != "" ensures SameText(a, b, RetainedMember(k.raw)) {
      Pinned(c, a, b, RetainedMember(k.raw), k.rawSha.value);
    }
  }

  lemma {:induction false} PortablesAgree(c: Codec, a: AcceptedBundle, b: AcceptedBundle, p: Platform, q: Platform)
    requires CollisionFree(c, a, b) && PinsReport(c, a, p) && PinsReport(c, b, q) && a.o.gate == b.o.gate
    requires p in a.o.record.platforms && q in b.o.record.platforms
    ensures SamePortable(c, a, b, p, q)
  {
    hide Portable, ReportAt;
    var r, s := Portable(ReportAt(c, a.files, p).value), Portable(ReportAt(c, b.files, q).value);
    assert c.world.portableText(r) in HashedTexts(c, a) && c.world.portableText(s) in HashedTexts(c, b);
  }

  // -------------------------------------------------------------- the claims

  lemma {:induction false} ClaimsAgree(m: Matrix, g: GateReport, p: Option<Plan>, q: Option<Plan>,
                                       decoders: seq<Decoder>)
    requires Supports(g, MLE) ==> p == q
    ensures var x, y := ClaimsOf(m, g, p, decoders), ClaimsOf(m, g, q, decoders);
      && x.Keys == y.Keys
      && forall name :: name in x ==>
        x[name].maturity == y[name].maturity && (x[name].maturity == "supported" ==> x[name] == y[name])
  {
    if decoders != [] {
      ClaimsAgree(m, g, p, q, decoders[..|decoders| - 1]);
      ClaimAgrees(m, g, p, q, decoders[|decoders| - 1]);
      hide ClaimFor, Supports;
    }
  }

  lemma {:induction false} ClaimAgrees(m: Matrix, g: GateReport, p: Option<Plan>, q: Option<Plan>, d: Decoder)
    requires Supports(g, MLE) ==> p == q
    ensures var x, y := ClaimFor(m, g, d, p), ClaimFor(m, g, d, q);
      x.maturity == y.maturity && (x.maturity == "supported" ==> x == y)
  {
    hide Lookup;
  }

  lemma {:induction false} SupportedAgree(x: map<string, Claim>, y: map<string, Claim>, decoders: seq<Decoder>)
    requires x.Keys == y.Keys && forall name :: name in x ==> x[name].maturity == y[name].maturity
    ensures Supported(x, decoders) == Supported(y, decoders)
  {
    if decoders != [] {
      SupportedAgree(x, y, decoders[1..]);
    }
  }

  /**
   Hash-chain determination: two accepted bundles with the same bytes of the gate report carry the same matrix, policy,
   evidence, raw observations and portable reports, and advertise the same support.
  */
  lemma {:induction false} AcceptedBundlesAgree(c: Codec, a: AcceptedBundle, b: AcceptedBundle)
    requires CollisionFree(c, a, b) && IsAccepted(c, a) && IsAccepted(c, b) && SameText(a, b, GateMember)
    ensures SameInputs(a, b) && SameEvidence(a, b) && SameRawObservations(a, b) && SamePortables(c, a, b)
      && SameClaims(a, b)
  {
    hide IsAccepted, SameText;
    AcceptedIsTied(c, a);
    AcceptedIsTied(c, b);
    TiedBundlesAgree(c, a, b);
  }

  /** The same for bundles that are tied to their gate report, accepted or not. */
  lemma {:induction false} TiedBundlesAgree(c: Codec, a: AcceptedBundle, b: AcceptedBundle)
    requires CollisionFree(c, a, b) && Tied(c, a) && Tied(c, b) && SameText(a, b, GateMember)
    ensures SameInputs(a, b) && SameEvidence(a, b) && SameRawObservations(a, b) && SamePortables(c, a, b)
      && SameClaims(a, b)
  {
    hide CollisionFree, SameText, SameEvidence, SameRawObservations, SamePortable, Reads, PinsReport, FileMatches;
    hide PathOf, Inspected, TextsIn, Supports, ClaimsOf, Supported;
    InputsAgree(c, a, b);
    EvidenceAgrees(c, a, b);
    RawObservationsAgree(c, a, b);
    forall j, k | 0 <= j < |a.o.record.platforms| && 0 <= k < |b.o.record.platforms|
      ensures SamePortable(c, a, b, a.o.record.platforms[j], b.o.record.platforms[k])
    {
      PortablesAgree(c, a, b, a.o.record.platforms[j], b.o.record.platforms[k]);
    }
    ClaimsAgree(a.o.matrix, a.o.gate, a.o.plan, b.o.plan, a.o.matrix.decoders);
    SupportedAgree(ClaimsIn(a.o), ClaimsIn(b.o), a.o.matrix.decoders);
  }
}
