/** `verify_release_dir`: what a published bundle and the assets beside it have to satisfy. */
module BundleVerify {
  import opened Prelude
  import opened Text
  import opened SupportMatrix
  import opened Evidence
  import opened Gate
  import opened Checksums
  import opened Publication

  const MANIFEST_FILE := "release-manifest.json"
  const SUMS_FILE := "SHA256SUMS"

  /** The documents of a bundle and of its release. */
  datatype Opened = Opened(record: PublicationRecord, manifest: ReleaseManifest, matrix: Matrix, plan: Option<Plan>,
                           gate: GateReport, docs: Docs, retained: RetainedManifest)

  function TextAt(bundle: map<string, string>, m: Member): Option<string> {
    if PathOf(m) in bundle then Some(bundle[PathOf(m)]) else None
  }

  function ReadAt<T>(bundle: map<string, string>, m: Member, parse: string -> Option<T>): Option<T> {
    match TextAt(bundle, m)
    case None => None
    case Some(text) => parse(text)
  }

  /** The evidence documents that are looked at; the MLE report only if the record names it. */
  function TextsIn(bundle: map<string, string>, record: PublicationRecord): map<EvidenceName, string> {
    map name | name in NAMES && (name.MleEvidence? ==>
      name in record.evidence) && PathOf(EvidenceMember(name)) in bundle ::
      bundle[PathOf(EvidenceMember(name))]
  }

  function Open(c: Codec, bundle: map<string, string>, release: map<string, string>): Option<Opened> {
    match ReadAt(bundle, PublicationMember, c.publicationOf)
    case None => None
    case Some(record) =>
      var manifest := if MANIFEST_FILE in release then c.manifestOf(release[MANIFEST_FILE]) else None;
      var matrix := ReadAt(bundle, MatrixMember, c.world.matrixOf);
      var plan := if record.scope.Some? then ReadAt(bundle, ScopeMember, c.world.planOf) else None;
      var gate := ReadAt(bundle, GateMember, c.gateOf);
      var docs := ReadDocs(c, TextsIn(bundle, record));
      var retained := ReadAt(bundle, RetainedMember(MANIFEST), c.retainedOf);
      if manifest.Some? && matrix.Some? && gate.Some? && docs.Some? && retained.Some? then
        Some(Opened(record, manifest.value, matrix.value, plan, gate.value, docs.value, retained.value))
      else None
  }

  // ---------------------------------------------------------------- checks

  /** The listing names every other file of the bundle, each with its digest. */
  predicate ListingOk(c: Codec, bundle: map<string, string>) {
    && PathOf(SumsMember) in bundle
    && Parse(bundle[PathOf(SumsMember)], true)
      == Ok(map path | path in bundle && path != PathOf(SumsMember) :: c.world.hash(bundle[path]))
  }

  predicate RecordOk(name: string, record: PublicationRecord) {
    && record.schema == PUBLICATION_SCHEMA && name == AssetOf(record.tag) && HexOf(record.sourceSha, 40)
  }

  /** The archives of the release are the ones of its manifest and of its own listing. */
  predicate ReleaseOk(c: Codec, release: map<string, string>, record: PublicationRecord, m: ReleaseManifest) {
    && ManifestOk(c, m, record.tag) && m.sourceSha == record.sourceSha
    && SUMS_FILE in release
    && Parse(release[SUMS_FILE], false) == Ok(ArchiveShas(m.archives))
    && ArchivesPresent(c, release, m.archives)
  }

  predicate FileMatches(c: Codec, bundle: map<string, string>, m: Member, sha: string) {
    PathOf(m) in bundle && c.world.hash(bundle[PathOf(m)]) == sha
  }

  /** The scope plan is bundled, recorded and the one the gate consumed, or there is none and none is needed. */
  predicate ScopeOk(c: Codec, bundle: map<string, string>, record: PublicationRecord, g: GateReport, plan: Option<Plan>,
                    expected: seq<string>) {
    if record.scope.Some? then
      && plan.Some? && record.scope.value.path == PathOf(ScopeMember)
      && FileMatches(c, bundle, ScopeMember, record.scope.value.sha256)
      && record.scope.value.sourceRevision == plan.value.sourceRevision
      && g.planSha == record.scope.value.sha256
    else PathOf(ScopeMember) !in bundle && !Supports(g, MLE) && MLE !in expected
  }

  predicate Recorded(c: Codec, record: PublicationRecord, texts: map<EvidenceName, string>) {
    forall name :: name in texts ==> name in record.evidence && record.evidence[name] == c.world.hash(texts[name])
  }

  /** The replay of the MLE report finds no problem, where it has to be replayed. */
  predicate ReplayOk(c: Codec, g: GateReport, docs: Docs, planText: string) {
    docs.mle.Some? && Supports(g, MLE) ==> c.world.replay(docs.mle.value, planText) == Some([])
  }

  predicate EvidenceOk(c: Codec, bundle: map<string, string>, o: Opened) {
    var texts := TextsIn(bundle, o.record);
    && DocsOk(o.docs, o.record.sourceSha) && Recorded(c, o.record, texts) && Inspected(c, o.gate, texts)
    && (MleEvidence in o.record.evidence ==> MleEvidence in texts)
    && (MleEvidence !in o.record.evidence ==> !Supports(o.gate, MLE))
    && ReplayOk(c, o.gate, o.docs, if PathOf(ScopeMember) in bundle then bundle[PathOf(ScopeMember)] else "")
  }

  predicate RawBundled(c: Codec, bundle: map<string, string>, k: RetainedCase) {
    k.raw != "" ==>
      && !ClimbsUp(k.raw) && k.rawSha.Some? && HexOf(k.rawSha.value, 64)
      && FileMatches(c, bundle, RetainedMember(k.raw), k.rawSha.value)
  }

  predicate RetainedBundled(c: Codec, bundle: map<string, string>, o: Opened) {
    && o.retained.schema == RETAINED_SCHEMA && o.retained.status == "pass"
    && o.retained.checkoutRevision == o.gate.retained.checkoutRevision == o.record.retainedRevision
    && FileMatches(c, bundle, RetainedMember(MANIFEST), o.gate.retained.sha256)
    && (forall k :: k in o.retained.cases ==> RawBundled(c, bundle, k))
    && (forall path :: path in o.record.retainedFiles ==> DigestMatches(c, bundle, path, o.record.retainedFiles[path]))
  }

  function ReportAt(c: Codec, bundle: map<string, string>, p: Platform): Option<Installed> {
    if p.report in bundle then c.world.installedOf(bundle[p.report]) else None
  }

  predicate PlatformOk(c: Codec, bundle: map<string, string>, release: map<string, string>, o: Opened, p: Platform) {
    && p.report in bundle && ReportAt(c, bundle, p).Some?
    && var r := ReportAt(c, bundle, p).value;
      && r.schema == INSTALLED_SCHEMA && r.target == p.target && r.sourceRevision == o.record.sourceSha
      && r.status == "pass"
      && r.archive.filename == p.archive.filename && r.archive.sha256 == p.archive.sha256
      && p.archive.filename in o.manifest.archives && p.archive.filename in release
      && c.world.hash(release[p.archive.filename]) == p.archive.sha256
      && FileMatches(c, bundle, MatrixMember, r.matrix.sha256)
      && r.ilp.expected && r.ilp.available
      && c.world.hash(bundle[p.report]) == p.reportSha
      && p.target in o.gate.installed
      && o.gate.installed[p.target].portableSha256 == c.world.hash(c.world.portableText(Portable(r)))
  }

  function TargetsOf(platforms: seq<Platform>): seq<string> {
    seq(|platforms|, k requires 0 <= k < |platforms| => platforms[k].target)
  }

  predicate PlatformsOk(c: Codec, bundle: map<string, string>, release: map<string, string>, o: Opened) {
    && multiset(TargetsOf(o.record.platforms)) == multiset(TARGETS)
    && forall k :: 0 <= k < |o.record.platforms| ==> PlatformOk(c, bundle, release, o, o.record.platforms[k])
  }

  /** The report of every platform, by its target. */
  function ReportsIn(c: Codec, bundle: map<string, string>, platforms: seq<Platform>): map<string, Installed> {
    if platforms == [] then map[]
    else
      var p := platforms[|platforms| - 1];
      var before := ReportsIn(c, bundle, platforms[..|platforms| - 1]);
      match ReportAt(c, bundle, p) case None => before case Some(r) => before[p.target := r]
  }

  function ClaimsIn(o: Opened): map<string, Claim> {
    ClaimsOf(o.matrix, o.gate, o.plan, o.matrix.decoders)
  }

  predicate ClaimsOk(o: Opened) {
    && AllDecided(o.matrix, o.gate)
    && o.record.decoders == ClaimsIn(o)
    && o.record.supported == SupportedNames(ClaimsIn(o), o.matrix.decoders)
  }

  predicate IsSupported(claims: map<string, Claim>, decoder: string) {
    decoder in claims && claims[decoder].maturity == "supported"
  }

  predicate AllSupported(claims: map<string, Claim>, expected: seq<string>) {
    forall decoder :: decoder in expected ==> IsSupported(claims, decoder)
  }

  predicate ContentsOk(c: Codec, bundle: map<string, string>, o: Opened, expected: seq<string>) {
    && o.matrix.schema == MATRIX_SCHEMA && FileMatches(c, bundle, MatrixMember, o.record.matrixSha)
    && FileMatches(c, bundle, PolicyMember, o.record.policySha)
    && GateReportOk(o.gate, o.record.sourceSha, o.record.matrixSha, o.record.policySha)
    && FileMatches(c, bundle, GateMember, o.record.gateSha)
    && o.gate.requiredTargets == TARGETS
    && ScopeOk(c, bundle, o.record, o.gate, o.plan, expected)
    && BindingsOk(o.record.tag, o.matrix, o.gate, o.plan)
  }

  /** Everything the verifier checks. */
  predicate VerifyChecks(c: Codec, bundle: map<string, string>, release: map<string, string>, name: string,
                         expected: seq<string>, o: Opened) {
    && RecordOk(name, o.record) && ReleaseOk(c, release, o.record, o.manifest)
    && ContentsOk(c, bundle, o, expected)
    && EvidenceOk(c, bundle, o)
    && RetainedBundled(c, bundle, o)
    && PlatformsOk(c, bundle, release, o)
    && Complete(c, o.matrix, o.gate, o.docs, ReportsIn(c, bundle, o.record.platforms))
    && ClaimsOk(o)
    && AllSupported(ClaimsIn(o), expected)
  }

  predicate VerifyAccepts(c: Codec, bundle: map<string, string>, release: map<string, string>, name: string,
                          expected: seq<string>) {
    ListingOk(c, bundle) && Open(c, bundle, release).Some?
    && VerifyChecks(c, bundle, release, name, expected, Open(c, bundle, release).value)
  }

  // ----------------------------------------------------------- the verifier

  datatype Verified = Verified(tag: string, version: string, sourceSha: string, decoders: map<string, Claim>,
                               supported: seq<string>, platforms: seq<Platform>)

  function VerifiedOf(o: Opened): Verified {
    Verified(o.record.tag, o.record.version, o.record.sourceSha, ClaimsIn(o),
             SupportedNames(ClaimsIn(o), o.matrix.decoders), o.record.platforms)
  }

  method CheckListing(c: Codec, bundle: map<string, string>) returns (r: Result<(), Refusal>)
    ensures r.Ok? <==> ListingOk(c, bundle)
  {
    hide Parse, PathOf;
    if PathOf(SumsMember) !in bundle {
      return Err(BadListing);
    }
    var sums := ParseChecksums(bundle[PathOf(SumsMember)], true);
    if sums.Err? || sums.value.Keys != bundle.Keys - {PathOf(SumsMember)} {
      return Err(BadListing);
    }
    var ok := CheckDigests(c, bundle, sums.value);
    DigestsMatchIff(c, bundle, sums.value);
    r := if ok then Ok(()) else Err(BadListing);
  }

  predicate DigestMatches(c: Codec, files: map<string, string>, path: string, sha: string) {
    path in files && c.world.hash(files[path]) == sha
  }

  /** Every listed file is there with its digest. */
  method CheckDigests(c: Codec, files: map<string, string>, sums: map<string, string>) returns (ok: bool)
    ensures ok <==> forall path :: path in sums ==> DigestMatches(c, files, path, sums[path])
  {
    hide DigestMatches;
    var left := sums.Keys;
    while left != {}
      invariant left <= sums.Keys
      invariant forall path :: path in sums && path !in left ==> DigestMatches(c, files, path, sums[path])
      decreases |left|
    {
      var path :| path in left;
      if !DigestMatches(c, files, path, sums[path]) {
        return false;
      }
      left := left - {path};
    }
    ok := true;
  }

  lemma {:induction false} DigestsMatchIff(c: Codec, bundle: map<string, string>, sums: map<string, string>)
    requires sums.Keys == bundle.Keys - {PathOf(SumsMember)}
    ensures (forall path :: path in sums ==> DigestMatches(c, bundle, path, sums[path])) <==>
      sums == map path | path in bundle && path != PathOf(SumsMember) :: c.world.hash(bundle[path])
  {
    hide PathOf;
  }

  function ArchiveShas(archives: map<string, Identity>): map<string, string> {
    map f | f in archives :: archives[f].sha256
  }

  predicate ArchiveMatches(c: Codec, release: map<string, string>, f: string, sha: string, listed: string) {
    f in release && c.world.hash(release[f]) == sha && sha == listed
  }

  method CheckArchives(c: Codec, release: map<string, string>, archives: map<string, Identity>,
                       sums: map<string, string>)
      returns (ok: bool)
    requires sums.Keys == archives.Keys
    ensures ok <==> forall f :: f in archives ==> ArchiveMatches(c, release, f, archives[f].sha256, sums[f])
  {
    hide ArchiveMatches;
    var left := archives.Keys;
    while left != {}
      invariant left <= archives.Keys
      invariant forall f :: f in archives && f !in left ==> ArchiveMatches(c, release, f, archives[f].sha256, sums[f])
      decreases |left|
    {
      var f :| f in left;
      if !ArchiveMatches(c, release, f, archives[f].sha256, sums[f]) {
        return false;
      }
      left := left - {f};
    }
    ok := true;
  }

  lemma {:induction false} ArchivesMatchIff(c: Codec, release: map<string, string>, archives: map<string, Identity>,
                                            sums: map<string, string>)
    requires sums.Keys == archives.Keys
    ensures (forall f :: f in archives ==> ArchiveMatches(c, release, f, archives[f].sha256, sums[f])) <==>
      sums == ArchiveShas(archives) && ArchivesPresent(c, release, archives)
  {
  }

  method CheckReleaseAssets(c: Codec, release: map<string, string>, record: PublicationRecord, m: ReleaseManifest)
      returns (r: Result<(), Refusal>)
    ensures r.Ok? <==> ReleaseOk(c, release, record, m)
  {
    hide Parse, ManifestOk, ArchivesPresent, ArchiveMatches;
    if !ManifestOk(c, m, record.tag) || m.sourceSha != record.sourceSha || SUMS_FILE !in release {
      return Err(BadManifest);
    }
    var sums := ParseChecksums(release[SUMS_FILE], false);
    if sums.Err? || sums.value.Keys != m.archives.Keys {
      return Err(BadListing);
    }
    var ok := CheckArchives(c, release, m.archives, sums.value);
    ArchivesMatchIff(c, release, m.archives, sums.value);
    r := if ok then Ok(()) else Err(BadArchive);
  }

  method CheckRetained(c: Codec, bundle: map<string, string>, o: Opened) returns (r: Result<(), Refusal>)
    ensures r.Ok? <==> RetainedBundled(c, bundle, o)
  {
    hide RawBundled, FileMatches, DigestMatches;
    if o.retained.schema != RETAINED_SCHEMA || o.retained.status != "pass"
      || o.retained.checkoutRevision != o.gate.retained.checkoutRevision
      || o.gate.retained.checkoutRevision != o.record.retainedRevision
      || !FileMatches(c, bundle, RetainedMember(MANIFEST), o.gate.retained.sha256)
    {
      return Err(BadRetained);
    }
    for k := 0 to |o.retained.cases|
      invariant forall j :: 0 <= j < k ==> RawBundled(c, bundle, o.retained.cases[j])
    {
      assert o.retained.cases[k] in o.retained.cases;
      if !RawBundled(c, bundle, o.retained.cases[k]) {
        return Err(BadRetained);
      }
    }
    var ok := CheckDigests(c, bundle, o.record.retainedFiles);
    r := if ok then Ok(()) else Err(BadRetained);
  }

  method CheckPlatforms(c: Codec, bundle: map<string, string>, release: map<string, string>, o: Opened)
      returns (r: Result<map<string, Installed>, Refusal>)
    ensures r.Ok? <==> PlatformsOk(c, bundle, release, o)
    ensures r.Ok? ==> r.value == ReportsIn(c, bundle, o.record.platforms)
  {
    hide PlatformOk;
    var platforms := o.record.platforms;
    if multiset(TargetsOf(platforms)) != multiset(TARGETS) {
      return Err(BadPlatforms);
    }
    var reports: map<string, Installed> := map[];
    for k := 0 to |platforms|
      invariant forall j :: 0 <= j < k ==> PlatformOk(c, bundle, release, o, platforms[j])
      invariant reports == ReportsIn(c, bundle, platforms[..k])
    {
      assert platforms[..k + 1][..k] == platforms[..k];
      var p := platforms[k];
      if !PlatformOk(c, bundle, release, o, p) {
        return Err(BadPlatforms);
      }
      assert ReportAt(c, bundle, p).Some? by { PlatformHasReport(c, bundle, release, o, p); }
      reports := reports[p.target := ReportAt(c, bundle, p).value];
    }
    assert platforms[..|platforms|] == platforms;
    r := Ok(reports);
  }

  lemma {:induction false} PlatformHasReport(c: Codec, bundle: map<string, string>, release: map<string, string>,
                                             o: Opened, p: Platform)
    requires PlatformOk(c, bundle, release, o, p)
    ensures ReportAt(c, bundle, p).Some?
  {
  }

  method VerifyExtracted(c: Codec, bundle: map<string, string>, release: map<string, string>, name: string,
                         expected: seq<string>) returns (r: Result<Verified, Refusal>)
    ensures r.Ok? <==> VerifyAccepts(c, bundle, release, name, expected)
    ensures r.Ok? ==> r.value == VerifiedOf(Open(c, bundle, release).value)
  {
    hide ListingOk, Open, RecordOk, ReleaseOk, ContentsOk, EvidenceOk, RetainedBundled, PlatformsOk, Complete;
    hide AllDecided, ClaimsOf, IsSupported;
    var listed := CheckListing(c, bundle);
    if listed.Err? {
      return Err(listed.error);
    }
    var found := Open(c, bundle, release);
    if found.None? || !RecordOk(name, found.value.record) {
      return Err(BadRecord);
    }
    var o := found.value;
    var assets := CheckReleaseAssets(c, release, o.record, o.manifest);
    if assets.Err? {
      return Err(assets.error);
    }
    var contents := CheckContents(c, bundle, o, expected);
    if contents.Err? {
      return Err(contents.error);
    }
    if !EvidenceOk(c, bundle, o) {
      return Err(BadEvidence);
    }
    var retained := CheckRetained(c, bundle, o);
    if retained.Err? {
      return Err(retained.error);
    }
    var reports := CheckPlatforms(c, bundle, release, o);
    if reports.Err? {
      return Err(reports.error);
    }
    var complete := CheckEvidenceCompleteness(c, o.matrix, o.gate, o.docs, reports.value);
    if complete.Err? {
      return Err(complete.error);
    }
    var claims := DeriveDecoders(o.matrix, o.gate, o.plan);
    if claims.Err? {
      return Err(claims.error);
    }
    var supported := SupportedNames(claims.value, o.matrix.decoders);
    if o.record.decoders != claims.value || o.record.supported != supported {
      return Err(BadClaims);
    }
    for k := 0 to |expected|
      invariant forall j :: 0 <= j < k ==> IsSupported(claims.value, expected[j])
    {
      assert expected[k] in expected;
      if !IsSupported(claims.value, expected[k]) {
        return Err(Unsupported);
      }
    }
    r := Ok(Verified(o.record.tag, o.record.version, o.record.sourceSha, claims.value, supported, o.record.platforms));
  }

  method CheckContents(c: Codec, bundle: map<string, string>, o: Opened, expected: seq<string>)
      returns (r: Result<(), Refusal>)
    ensures r.Ok? <==> ContentsOk(c, bundle, o, expected)
  {
    hide FileMatches, ScopeOk, GateReportOk, BindingsOk;
    if o.matrix.schema != MATRIX_SCHEMA || !FileMatches(c, bundle, MatrixMember, o.record.matrixSha) {
      return Err(BadMatrixFile);
    }
    if !FileMatches(c, bundle, PolicyMember, o.record.policySha) {
      return Err(BadPolicy);
    }
    var gate := CheckGateReport(o.gate, o.record.sourceSha, o.record.matrixSha, o.record.policySha);
    if gate.Err? || !FileMatches(c, bundle, GateMember, o.record.gateSha) || o.gate.requiredTargets != TARGETS {
      return Err(BadGateReport);
    }
    if !ScopeOk(c, bundle, o.record, o.gate, o.plan, expected) {
      return Err(BadPlan);
    }
    r := CheckPublishedSupportBindings(o.record.tag, o.matrix, o.gate, o.plan);
  }

  // ---------------------------------------------------------- the directory

  predicate IsBundleName(file: string) {
    BUNDLE_PREFIX <= file && |file| >= |BUNDLE_PREFIX| + 7 && file[|file| - 7..] == ".tar.gz"
  }

  function BundlesIn(release: map<string, string>): set<string> {
    set f | f in release && IsBundleName(f)
  }

  /** The checksum file beside the bundle names it and its digest. */
  predicate SidecarOk(c: Codec, release: map<string, string>, name: string) {
    && name in release && name + ".sha256" in release
    && var line := Strip(release[name + ".sha256"]);
      LineFits(line, false) && NameOf(line) == name && line[..64] == c.world.hash(release[name])
  }

  predicate DirectoryAccepts(c: Codec, release: map<string, string>, name: string, expected: seq<string>) {
    && BundlesIn(release) == {name} && SidecarOk(c, release, name)
    && var bundle := c.unpack(release[name], name);
      bundle.Some? && VerifyAccepts(c, bundle.value, release, name, expected)
  }

  /** Exactly one bundle is in the directory, its checksum file is right, and its contents are accepted. */
  method VerifyReleaseDir(c: Codec, release: map<string, string>, expected: seq<string>)
      returns (r: Result<Verified, Refusal>)
    ensures r.Ok? <==> exists name :: name in release && DirectoryAccepts(c, release, name, expected)
  {
    hide VerifyAccepts, SidecarOk, IsBundleName;
    var bundles := BundlesIn(release);
    if bundles == {} {
      return Err(NoBundle);
    }
    var name :| name in bundles;
    if bundles != {name} {
      return Err(ManyBundles);
    }
    if !SidecarOk(c, release, name) {
      return Err(BadSidecar);
    }
    var bundle := c.unpack(release[name], name);
    if bundle.None? {
      return Err(BadListing);
    }
    r := VerifyExtracted(c, bundle.value, release, name, expected);
    assert r.Ok? ==> DirectoryAccepts(c, release, name, expected);
    assert forall other :: DirectoryAccepts(c, release, other, expected) ==> other in {name};
  }
}
