/** The evidence bundle of a release: its documents, the checks both sides share, and how it is built. */
module Publication {
  import opened Prelude
  import opened Text
  import opened SupportMatrix
  import opened Evidence
  import opened Coverage
  import opened Gate
  import opened GateDecision
  import opened Checksums
  import opened Sorting

  const PUBLICATION_SCHEMA := "rustqec.envelope-publication.v1"
  const RETAINED_SCHEMA := "rustqec.envelope-resources-manifest.v1"
  const BUNDLE_PREFIX := "envelope-support-evidence-"
  const TARGETS: seq<string> := ["x86_64-unknown-linux-gnu", "aarch64-apple-darwin"]

  // ------------------------------------------------------------- documents

  datatype Identity = Identity(target: string, filename: string, sha256: string, size: int)

  datatype ReleaseManifest = ReleaseManifest(tag: string, sourceSha: string, archives: map<string, Identity>)

  datatype RetainedCase = RetainedCase(raw: string, rawSha: Option<string>)

  datatype RetainedManifest = RetainedManifest(schema: string, status: string, checkoutRevision: string,
                                               cases: seq<RetainedCase>)

  datatype Claim = Claim(maturity: string, objective: string, features: seq<string>, families: seq<Family>,
                         scopeStatement: string, limits: string, limitations: seq<string>, scopePlan: bool)

  datatype ArchiveRef = ArchiveRef(filename: string, sha256: string, size: int)

  datatype Platform = Platform(target: string, archive: ArchiveRef, report: string, reportSha: string)

  datatype ScopeRef = ScopeRef(path: string, sha256: string, sourceRevision: string)

  datatype PublicationRecord = PublicationRecord(
    schema: string, tag: string, version: string, sourceSha: string, decoders: map<string, Claim>,
    supported: seq<string>, platforms: seq<Platform>, matrixSha: string, policySha: string, scope: Option<ScopeRef>,
    gateSha: string, evidence: map<EvidenceName, string>, retainedRevision: string, retainedFiles: map<string, string>)

  /** What the bytes of the files mean, and how the two documents the bundle adds are written. */
  datatype Codec = Codec(
    world: World,
    gateOf: string -> Option<GateReport>,
    publicationOf: string -> Option<PublicationRecord>,
    publicationText: PublicationRecord -> string,
    reportText: Installed -> string,
    summaryText: PublicationRecord -> string,
    retainedOf: string -> Option<RetainedManifest>,
    manifestOf: string -> Option<ReleaseManifest>,
    manifestDetails: ReleaseManifest -> bool,
    pack: (string, map<string, string>) -> string,
    unpack: (string, string) -> Option<map<string, string>>)

  /** Digests are digests, what is written reads back, and what is packed unpacks. */
  ghost predicate Faithful(c: Codec) {
    && (forall x :: HexOf(c.world.hash(x), 64))
    && (forall p :: c.publicationOf(c.publicationText(p)) == Some(p))
    && (forall r :: c.world.installedOf(c.reportText(r)) == Some(r))
    && (forall name, files :: c.unpack(c.pack(name, files), name) == Some(files))
  }

  // ----------------------------------------------------------------- paths

  /** The members of a bundle. */
  datatype Member =
    | SumsMember | PublicationMember | SummaryMember | MatrixMember | PolicyMember | ScopeMember | GateMember
    | EvidenceMember(name: EvidenceName) | ReportMember(target: string) | RetainedMember(relative: string)

  function PathOf(m: Member): string {
    match m
    case SumsMember => "SHA256SUMS"
    case PublicationMember => "publication.json"
    case SummaryMember => "SUMMARY.md"
    case MatrixMember => "matrix/envelope-support.json"
    case PolicyMember => "policy/envelope-compatibility-policy.md"
    case ScopeMember => "scope/envelope-mle-scope.json"
    case GateMember => "release-gate.json"
    case EvidenceMember(name) => "evidence/" + FileOf(name)
    case ReportMember(target) => "evidence/installed-" + target + ".json"
    case RetainedMember(relative) => "retained-resources/" + relative
  }

  lemma {:induction false} EvidencePathsDiffer(a: EvidenceName, b: EvidenceName)
    ensures FileOf(a) == FileOf(b) ==> a == b
    ensures FileOf(a)[0] != 'i'
  {
    assert FileOf(SupportEvidence)[0] == 's' && FileOf(CorrectnessEvidence)[0] == 'c';
    assert FileOf(ResourcesEvidence)[0] == 'r' && FileOf(MleEvidence)[0] == 'm';
  }

  /** The first characters of a path tell the kind of the member. */
  function Head(m: Member): string {
    match m
    case SumsMember => "SHA"
    case PublicationMember => "pub"
    case SummaryMember => "SUM"
    case MatrixMember => "mat"
    case PolicyMember => "pol"
    case ScopeMember => "sco"
    case GateMember => "rel"
    case EvidenceMember(_) => "evi"
    case ReportMember(_) => "evi"
    case RetainedMember(_) => "ret"
  }

  lemma {:induction false} PathHead(m: Member)
    ensures Head(m) <= PathOf(m) && |Head(m)| == 3
  {
    match m {
      case EvidenceMember(name) => assert "evidence/" <= PathOf(m);
      case ReportMember(target) => assert "evidence/installed-" <= PathOf(m) by { ReportHead(target); }
      case RetainedMember(relative) => assert "retained-resources/" <= PathOf(m);
      case _ =>
    }
  }

  lemma {:induction false} ReportHead(target: string)
    ensures "evidence/installed-" <= PathOf(ReportMember(target))
    ensures PathOf(ReportMember(target))[19..] == target + ".json"
  {
    assert PathOf(ReportMember(target)) == "evidence/installed-" + (target + ".json");
  }

  lemma {:induction false} HeadsDiffer(a: Member, b: Member)
    requires Head(a) == Head(b)
    ensures match a
      case EvidenceMember(_) => b.EvidenceMember? || b.ReportMember?
      case ReportMember(_) => b.EvidenceMember? || b.ReportMember?
      case RetainedMember(_) => b.RetainedMember?
      case _ => a == b
  {
    assert Head(a)[0] == Head(b)[0] && Head(a)[1] == Head(b)[1] && Head(a)[2] == Head(b)[2];
  }

  lemma {:induction false} SameTail(prefix: string, x: string, y: string)
    requires prefix + x == prefix + y
    ensures x == y
  {
    assert x == (prefix + x)[|prefix|..] && y == (prefix + y)[|prefix|..];
  }

  lemma {:induction false} SameReportPath(s: string, t: string)
    requires PathOf(ReportMember(s)) == PathOf(ReportMember(t))
    ensures s == t
  {
    ReportHead(s);
    ReportHead(t);
    assert |s| == |t|;
    assert s == (s + ".json")[..|s|] && t == (t + ".json")[..|t|];
  }

  lemma {:induction false} ReportIsNoEvidence(name: EvidenceName, target: string)
    ensures PathOf(EvidenceMember(name)) != PathOf(ReportMember(target))
  {
    EvidencePathsDiffer(name, name);
    ReportHead(target);
    assert PathOf(EvidenceMember(name))[9] == FileOf(name)[0];
    assert PathOf(ReportMember(target))[9] == "evidence/installed-"[9] == 'i';
  }

  /** Different members have different paths. */
  lemma {:induction false} PathsDiffer(a: Member, b: Member)
    requires PathOf(a) == PathOf(b)
    ensures a == b
  {
    hide Head, FileOf;
    PathHead(a);
    PathHead(b);
    assert Head(a) == PathOf(a)[..3] == PathOf(b)[..3] == Head(b);
    HeadsDiffer(a, b);
    if a.EvidenceMember? && b.EvidenceMember? {
      SameTail("evidence/", FileOf(a.name), FileOf(b.name));
      EvidencePathsDiffer(a.name, b.name);
    } else if a.EvidenceMember? && b.ReportMember? {
      ReportIsNoEvidence(a.name, b.target);
    } else if a.ReportMember? && b.EvidenceMember? {
      ReportIsNoEvidence(b.name, a.target);
    } else if a.ReportMember? && b.ReportMember? {
      SameReportPath(a.target, b.target);
    } else if a.RetainedMember? && b.RetainedMember? {
      SameTail("retained-resources/", a.relative, b.relative);
    }
  }

  // ------------------------------------------------------ decisions, claims

  predicate IsDecision(s: string) {
    s == "supported" || s == "beta"
  }

  predicate Supports(g: GateReport, decoder: string) {
    var d := Lookup(g.decoders, decoder);
    d.Some? && d.value.decision == "supported"
  }

  function ClaimOf(m: Matrix, d: Decoder, decision: string, plan: Option<Plan>): Claim {
    var planned := d.name == MLE && plan.Some?;
    Claim(decision, d.objective, d.features, m.families, if planned then plan.value.noInterpolation else m.statement,
          d.limits, d.limitations, planned)
  }

  predicate HasDecision(g: GateReport, d: Decoder) {
    Lookup(g.decoders, d.name).Some? && IsDecision(Lookup(g.decoders, d.name).value.decision)
  }

  predicate AllDecided(m: Matrix, g: GateReport) {
    forall d :: d in m.decoders ==> HasDecision(g, d)
  }

  function ClaimFor(m: Matrix, g: GateReport, d: Decoder, plan: Option<Plan>): Claim {
    var decision := Lookup(g.decoders, d.name);
    ClaimOf(m, d, if decision.Some? then decision.value.decision else "", plan)
  }

  /** The claims of the first decoders of the matrix. */
  function ClaimsOf(m: Matrix, g: GateReport, plan: Option<Plan>, decoders: seq<Decoder>): map<string, Claim> {
    if decoders == [] then map[]
    else ClaimsOf(m, g, plan, decoders[..|decoders| - 1])
      [decoders[|decoders| - 1].name := ClaimFor(m, g, decoders[|decoders| - 1], plan)]
  }

  datatype Refusal =
    | BadTag | BadSourceSha | BadManifest | BadArchive | BadMatrixFile | BadGateReport | BadPlan | BadBinding
    | BadEvidence | BadReport | BadRetained | IncompleteEvidence | Undecided | BadListing | BadRecord | BadPolicy
    | BadPlatforms | BadClaims | Unsupported | NoBundle | ManyBundles | BadSidecar

  method DeriveDecoders(m: Matrix, g: GateReport, plan: Option<Plan>) returns (r: Result<map<string, Claim>, Refusal>)
    ensures r.Ok? <==> AllDecided(m, g)
    ensures r.Ok? ==> r.value == ClaimsOf(m, g, plan, m.decoders)
  {
    hide ClaimOf, HasDecision;
    var decoders: map<string, Claim> := map[];
    for k := 0 to |m.decoders|
      invariant decoders == ClaimsOf(m, g, plan, m.decoders[..k])
      invariant forall j :: 0 <= j < k ==> HasDecision(g, m.decoders[j])
    {
      assert m.decoders[..k + 1][..k] == m.decoders[..k];
      var d := m.decoders[k];
      assert d in m.decoders;
      if !HasDecision(g, d) {
        return Err(Undecided);
      }
      decoders := decoders[d.name := ClaimFor(m, g, d, plan)];
    }
    assert m.decoders[..|m.decoders|] == m.decoders;
    r := Ok(decoders);
  }

  /** The names of the supported decoders of a matrix, sorted. */
  function SupportedNames(claims: map<string, Claim>, decoders: seq<Decoder>): seq<string> {
    SortBy(Supported(claims, decoders), (s: string) => s)
  }

  function Supported(claims: map<string, Claim>, decoders: seq<Decoder>): seq<string> {
    if decoders == [] then []
    else IfSupported(claims, decoders[0].name) + Supported(claims, decoders[1..])
  }

  function IfSupported(claims: map<string, Claim>, name: string): seq<string> {
    if name in claims && claims[name].maturity == "supported" then [name] else []
  }

  // -------------------------------------------------------------- bindings

  function SplitDots(s: string, part: string): seq<string>
    decreases |s|
  {
    if s == "" then [part]
    else if s[0] == '.' then [part] + SplitDots(s[1..], "")
    else SplitDots(s[1..], part + [s[0]])
  }

  /** The version of a tag of the form `v1.2.3`. */
  function VersionOf(tag: string): Option<seq<nat>> {
    if tag == "" || tag[0] != 'v' then None
    else
      var parts := SplitDots(tag[1..], "");
      if |parts| == 3 && Canonical(parts[0]) && Canonical(parts[1]) && Canonical(parts[2]) then
        Some([ParseNat(parts[0]), ParseNat(parts[1]), ParseNat(parts[2])])
      else None
  }

  predicate NotNewer(a: seq<nat>, b: seq<nat>)
    requires |a| == |b|
  {
    a == [] || a[0] < b[0] || (a[0] == b[0] && NotNewer(a[1..], b[1..]))
  }

  function FirstRelease(decoder: string): Option<string> {
    if decoder == MATCHING || decoder == MLE then Some("v0.3.3") else None
  }

  const REPOSITORY := "https://github.com/nzy1997/rust-qec/releases/"

  function AssetOf(release: string): string {
    BUNDLE_PREFIX + release + ".tar.gz"
  }

  predicate CanonicalRelease(p: PublishedSupport) {
    && p.releaseUrl == REPOSITORY + "tag/" + p.release
    && p.evidenceAsset == AssetOf(p.release)
    && p.evidenceUrl == REPOSITORY + "download/" + p.release + "/" + AssetOf(p.release)
    && Strip(p.scope) != ""
  }

  /** The durable record a supported decision needs in the bundle of a release. */
  predicate Published(version: seq<nat>, m: Matrix, decoder: string, plan: Option<Plan>) {
    var d := DecoderNamed(m.decoders, decoder);
    && d.Some? && d.value.currentMaturity == "supported" && d.value.published.Some?
    && var p := d.value.published.value;
      && p.maturity == "supported"
      && VersionOf(p.release).Some? && |VersionOf(p.release).value| == |version|
      && NotNewer(VersionOf(p.release).value, version)
      && Some(p.release) == FirstRelease(decoder)
      && CanonicalRelease(p)
      && (decoder == MLE ==>
        plan.Some? && plan.value.current == "supported" && plan.value.promotionRelease == p.release)
  }

  predicate BindingsOk(tag: string, m: Matrix, g: GateReport, plan: Option<Plan>) {
    VersionOf(tag).Some? ==> forall d :: d in g.decoders && d.value.decision == "supported" ==>
      Published(VersionOf(tag).value, m, d.name, plan)
  }

  method CheckPublishedSupportBindings(tag: string, m: Matrix, g: GateReport, plan: Option<Plan>)
      returns (r: Result<(), Refusal>)
    ensures r.Ok? <==> BindingsOk(tag, m, g, plan)
  {
    hide Published, VersionOf;
    var version := VersionOf(tag);
    if version.None? {
      return Ok(());
    }
    for k := 0 to |g.decoders|
      invariant forall j :: 0 <= j < k && g.decoders[j].value.decision == "supported" ==>
        Published(version.value, m, g.decoders[j].name, plan)
    {
      var d := g.decoders[k];
      assert d in g.decoders;
      if d.value.decision == "supported" && !Published(version.value, m, d.name, plan) {
        return Err(BadBinding);
      }
    }
    r := Ok(());
  }

  // ----------------------------------------------------------- gate report

  predicate BindsEvidence(g: GateReport, name: EvidenceName) {
    if name.MleEvidence? && name !in g.evidence && !Supports(g, MLE) then true
    else name in g.evidence && HexOf(g.evidence[name], 64)
  }

  predicate BindsReport(g: GateReport, target: string) {
    target in g.installed && HexOf(g.installed[target].sha256, 64) && HexOf(g.installed[target].portableSha256, 64)
  }

  predicate GateReportOk(g: GateReport, sourceSha: string, matrixSha: string, policySha: string) {
    && g.schema == GATE_SCHEMA && g.status == "pass" && g.candidate == sourceSha
    && g.matrixSha == matrixSha && g.policySha == policySha
    && g.retained.present && g.retained.binding == "source-equivalent" && HexOf(g.retained.sha256, 64)
    && (forall name :: name in NAMES ==> BindsEvidence(g, name))
    && (forall target :: target in TARGETS ==> BindsReport(g, target))
  }

  method CheckGateReport(g: GateReport, sourceSha: string, matrixSha: string, policySha: string)
      returns (r: Result<(), Refusal>)
    ensures r.Ok? <==> GateReportOk(g, sourceSha, matrixSha, policySha)
  {
    hide BindsEvidence, BindsReport, HexOf;
    if g.schema != GATE_SCHEMA || g.status != "pass" || g.candidate != sourceSha || g.matrixSha != matrixSha
      || g.policySha != policySha || !g.retained.present || g.retained.binding != "source-equivalent"
      || !HexOf(g.retained.sha256, 64)
    {
      return Err(BadGateReport);
    }
    for k := 0 to |NAMES|
      invariant forall j :: 0 <= j < k ==> BindsEvidence(g, NAMES[j])
    {
      assert NAMES[k] in NAMES;
      if !BindsEvidence(g, NAMES[k]) {
        return Err(BadGateReport);
      }
    }
    for k := 0 to |TARGETS|
      invariant forall j :: 0 <= j < k ==> BindsReport(g, TARGETS[j])
    {
      assert TARGETS[k] in TARGETS;
      if !BindsReport(g, TARGETS[k]) {
        return Err(BadGateReport);
      }
    }
    r := Ok(());
  }

  // ------------------------------------------------------ evidence documents

  datatype Docs = Docs(support: SupportDoc, correctness: CorrectnessDoc, resources: ResourcesDoc, mle: Option<MleDoc>)

  /** The documents of these texts; the MLE report may be left out. */
  function ReadDocs(c: Codec, texts: map<EvidenceName, string>): Option<Docs> {
    if SupportEvidence in texts && CorrectnessEvidence in texts && ResourcesEvidence in texts then
      var s := c.world.supportOf(texts[SupportEvidence]);
      var k := c.world.correctnessOf(texts[CorrectnessEvidence]);
      var r := c.world.resourcesOf(texts[ResourcesEvidence]);
      var m := if MleEvidence in texts then c.world.mleOf(texts[MleEvidence]) else None;
      if s.Some? && k.Some? && r.Some? && (MleEvidence in texts ==> m.Some?) then
        Some(Docs(s.value, k.value, r.value, m))
      else None
    else None
  }

  predicate DocumentOk<T(==)>(d: Generated<T>, schema: string, sourceSha: string) {
    d.schema == schema && d.revision == sourceSha && d.status == "pass"
  }

  predicate DocsOk(d: Docs, sourceSha: string) {
    && DocumentOk(d.support, SUPPORT_SCHEMA, sourceSha)
    && DocumentOk(d.correctness, CORRECTNESS_SCHEMA, sourceSha)
    && DocumentOk(d.resources, RESOURCES_SCHEMA, sourceSha)
    && (d.mle.Some? ==> DocumentOk(d.mle.value, MLE_SCHEMA, sourceSha))
  }

  /** The texts are the ones the gate inspected. */
  predicate Inspected(c: Codec, g: GateReport, texts: map<EvidenceName, string>) {
    forall name :: name in texts ==> InspectedAs(c, g, name, texts[name])
  }

  predicate InspectedAs(c: Codec, g: GateReport, name: EvidenceName, text: string) {
    name in g.evidence && g.evidence[name] == c.world.hash(text)
  }

  // --------------------------------------------------------- installed reports

  function ArchiveName(tag: string, target: string): string {
    "rustqec-" + tag + "-" + target + ".tar.gz"
  }

  predicate IdentityOk(tag: string, filename: string, identity: Identity) {
    && filename == ArchiveName(tag, identity.target) && identity.filename == filename
    && HexOf(identity.sha256, 64) && identity.size > 0
  }

  /** `validate_manifest`; the package, asset and compiler records are one opaque condition. */
  predicate ManifestOk(c: Codec, m: ReleaseManifest, tag: string) {
    && m.tag == tag && HexOf(m.sourceSha, 40) && c.manifestDetails(m)
    && m.archives.Keys == (set t | t in TARGETS :: ArchiveName(tag, t))
    && forall f :: f in m.archives ==> IdentityOk(tag, f, m.archives[f])
  }

  predicate ReportOk(c: Codec, g: GateReport, archives: map<string, Identity>, r: Installed, text: string,
                     target: string,
                     sourceSha: string, matrixSha: string) {
    && r.schema == INSTALLED_SCHEMA && r.target == target && r.sourceRevision == sourceSha && r.status == "pass"
    && r.ilp.expected && r.ilp.available
    && BaseName(r.archive.path) in archives && archives[BaseName(r.archive.path)].target == target
    && r.archive.sha256 == archives[BaseName(r.archive.path)].sha256
    && r.matrix.sha256 == matrixSha
    && target in g.installed && g.installed[target].sha256 == c.world.hash(text)
    && g.installed[target].portableSha256 == c.world.hash(c.world.portableText(Portable(r)))
  }

  // ------------------------------------------------------------ completeness

  /** What the structural checks of the gate see of a bundle. */
  function LoadedFor(m: Matrix, d: Docs, reports: map<string, Installed>): Loaded {
    Loaded(m, [], Some(d.support), Some(d.correctness), Some(d.resources), TARGETS, reports, None, "", false, [], d.mle)
  }

  predicate Complete(c: Codec, m: Matrix, g: GateReport, d: Docs, reports: map<string, Installed>) {
    && SummaryGaps(d.correctness.body) == []
    && forall e :: e in g.decoders && e.value.decision == "supported" ==>
      DecoderCoverageOf(LoadedFor(m, d, reports), e.name, c.world.digest) == Ok([])
  }

  predicate CoveredUpTo(c: Codec, l: Loaded, g: GateReport, k: nat)
    requires k <= |g.decoders|
  {
    forall j :: 0 <= j < k && g.decoders[j].value.decision == "supported" ==>
      DecoderCoverageOf(l, g.decoders[j].name, c.world.digest) == Ok([])
  }

  method CheckEvidenceCompleteness(c: Codec, m: Matrix, g: GateReport, d: Docs, reports: map<string, Installed>)
      returns (r: Result<(), Refusal>)
    ensures r.Ok? <==> Complete(c, m, g, d, reports)
  {
    hide SummaryGaps, DecoderCoverageOf, LoadedFor;
    ghost var l, summary := LoadedFor(m, d, reports), SummaryGaps(d.correctness.body);
    var gaps := CorrectnessSummaryGaps(d.correctness.body);
    for k := 0 to |g.decoders|
      invariant gaps == [] <==> summary == [] && CoveredUpTo(c, l, g, k)
    {
      var e := g.decoders[k];
      assert e in g.decoders;
      if e.value.decision == "supported" {
        var coverage := DecoderCoverage(LoadedFor(m, d, reports), e.name, c.world.digest);
        if coverage.Err? {
          return Err(IncompleteEvidence);
        }
        assert gaps + coverage.value == [] <==> gaps == [] && coverage.value == [] by {
          assert |gaps + coverage.value| == |gaps| + |coverage.value|;
        }
        gaps := gaps + coverage.value;
      }
    }
    r := if gaps == [] then Ok(()) else Err(IncompleteEvidence);
  }

  // ---------------------------------------------------------------- retained

  const MANIFEST := "manifest.json"

  /** The digest the manifest records for a raw observation; the last case that names it decides. */
  function RecordedSha(cases: seq<RetainedCase>, raw: string): Option<string> {
    if cases == [] then None
    else if cases[|cases| - 1].raw == raw then cases[|cases| - 1].rawSha
    else RecordedSha(cases[..|cases| - 1], raw)
  }

  predicate RawOk(c: Codec, retained: map<string, string>, cases: seq<RetainedCase>, raw: string) {
    && raw in retained
    && (RecordedSha(cases, raw).Some? ==> c.world.hash(retained[raw]) == RecordedSha(cases, raw).value)
  }

  predicate RetainedOk(c: Codec, retained: map<string, string>, revision: string) {
    && MANIFEST in retained && c.retainedOf(retained[MANIFEST]).Some?
    && var m := c.retainedOf(retained[MANIFEST]).value;
      && m.schema == RETAINED_SCHEMA && m.status == "pass" && m.checkoutRevision == revision
      && (forall file :: file in retained ==> !ClimbsUp(file))
      && forall k :: k in m.cases && k.raw != "" ==> RawOk(c, retained, m.cases, k.raw)
  }

  // ------------------------------------------------------------- building

  datatype BuildInputs = BuildInputs(tag: string, sourceSha: string, manifest: string, archives: map<string, string>,
                                     evidence: map<string, string>, gate: string, matrix: string, policy: string,
                                     plan: string, retained: map<string, string>)

  /** The documents a build reads. */
  datatype BuildDocs = BuildDocs(manifest: ReleaseManifest, matrix: Matrix, gate: GateReport, plan: Plan, docs: Docs,
                                 reports: map<string, Installed>, retained: RetainedManifest)

  function TextsOf(i: BuildInputs): map<EvidenceName, string> {
    map name | name in NAMES && FileOf(name) in i.evidence :: i.evidence[FileOf(name)]
  }

  function RawReports(c: Codec, i: BuildInputs): map<string, Installed> {
    map t | t in TARGETS && InstalledFile(t) in i.evidence && c.world.installedOf(i.evidence[InstalledFile(t)]).Some? ::
      c.world.installedOf(i.evidence[InstalledFile(t)]).value
  }

  function SanitizedReports(reports: map<string, Installed>): map<string, Installed> {
    map t | t in reports :: Sanitized(reports[t])
  }

  function ReadBuild(c: Codec, i: BuildInputs): Option<BuildDocs> {
    var manifest, matrix, gate, plan := c.manifestOf(i.manifest), c.world.matrixOf(i.matrix), c.gateOf(i.gate),
        c.world.planOf(i.plan);
    var docs, reports := ReadDocs(c, TextsOf(i)), RawReports(c, i);
    var retained := if MANIFEST in i.retained then c.retainedOf(i.retained[MANIFEST]) else None;
    if manifest.Some? && matrix.Some? && gate.Some? && plan.Some? && docs.Some? && docs.value.mle.Some?
      && retained.Some?
      && reports.Keys == (set t | t in TARGETS)
    then Some(BuildDocs(manifest.value, matrix.value, gate.value, plan.value, docs.value, reports, retained.value))
    else None
  }

  predicate ArchivesPresent(c: Codec, files: map<string, string>, archives: map<string, Identity>) {
    forall f :: f in archives ==> f in files && c.world.hash(files[f]) == archives[f].sha256
  }

  predicate ReportFits(c: Codec, i: BuildInputs, d: BuildDocs, t: string) {
    t in d.reports && InstalledFile(t) in i.evidence
    && ReportOk(c, d.gate, d.manifest.archives, d.reports[t], i.evidence[InstalledFile(t)], t, i.sourceSha,
                c.world.hash(i.matrix))
  }

  predicate ReportsOk(c: Codec, i: BuildInputs, d: BuildDocs) {
    forall t :: t in TARGETS ==> ReportFits(c, i, d, t)
  }

  /** Everything a build checks. */
  predicate BuildChecks(c: Codec, i: BuildInputs, d: BuildDocs) {
    && NameFits(i.tag, false) && HexOf(i.sourceSha, 40)
    && ManifestOk(c, d.manifest, i.tag) && d.manifest.sourceSha == i.sourceSha
    && ArchivesPresent(c, i.archives, d.manifest.archives)
    && d.matrix.schema == MATRIX_SCHEMA
    && GateReportOk(d.gate, i.sourceSha, c.world.hash(i.matrix), c.world.hash(i.policy))
    && d.gate.planSha == c.world.hash(i.plan)
    && BindingsOk(i.tag, d.matrix, d.gate, Some(d.plan))
    && DocsOk(d.docs, i.sourceSha) && Inspected(c, d.gate, TextsOf(i))
    && ReportsOk(c, i, d)
    && RetainedOk(c, i.retained, d.gate.retained.checkoutRevision)
    && MANIFEST in i.retained && c.world.hash(i.retained[MANIFEST]) == d.gate.retained.sha256
    && Complete(c, d.matrix, d.gate, d.docs, SanitizedReports(d.reports))
    && AllDecided(d.matrix, d.gate)
  }

  function HashOf(c: Codec, files: map<string, string>, file: string): string {
    if file in files then c.world.hash(files[file]) else ""
  }

  function ReportText(c: Codec, d: BuildDocs, target: string): string {
    if target in d.reports then c.reportText(Sanitized(d.reports[target])) else ""
  }

  function ArchiveOf(i: BuildInputs, d: BuildDocs, target: string): ArchiveRef {
    var name := ArchiveName(i.tag, target);
    if name in d.manifest.archives then
      var identity := d.manifest.archives[name];
      ArchiveRef(identity.filename, identity.sha256, identity.size)
    else ArchiveRef("", "", 0)
  }

  function PlatformOf(c: Codec, i: BuildInputs, d: BuildDocs, target: string): Platform {
    Platform(target, ArchiveOf(i, d, target), PathOf(ReportMember(target)), c.world.hash(ReportText(c, d, target)))
  }

  function RetainedShas(c: Codec, retained: map<string, string>): map<string, string> {
    RetainedPathsDiffer();
    map file | file in retained :: PathOf(RetainedMember(file)) := c.world.hash(retained[file])
  }

  lemma {:induction false} RetainedPathsDiffer()
    ensures forall a, b :: PathOf(RetainedMember(a)) == PathOf(RetainedMember(b)) ==> a == b
  {
    hide PathOf;
    forall a, b | PathOf(RetainedMember(a)) == PathOf(RetainedMember(b)) ensures a == b {
      PathsDiffer(RetainedMember(a), RetainedMember(b));
    }
  }

  function RecordOf(c: Codec, i: BuildInputs, d: BuildDocs): PublicationRecord {
    var claims := ClaimsOf(d.matrix, d.gate, Some(d.plan), d.matrix.decoders);
    PublicationRecord(
      PUBLICATION_SCHEMA, i.tag, if i.tag != "" && i.tag[0] == 'v' then i.tag[1..] else i.tag, i.sourceSha, claims,
      SupportedNames(claims, d.matrix.decoders),
      seq(|TARGETS|, k requires 0 <= k < |TARGETS| => PlatformOf(c, i, d, TARGETS[k])),
      c.world.hash(i.matrix), c.world.hash(i.policy),
      Some(ScopeRef(PathOf(ScopeMember), c.world.hash(i.plan), d.plan.sourceRevision)),
      c.world.hash(i.gate), map name | name in NAMES :: HashOf(c, i.evidence, FileOf(name)),
      d.gate.retained.checkoutRevision, RetainedShas(c, i.retained))
  }

  /** What a member of the bundle holds, apart from the listing. */
  function ContentOf(c: Codec, i: BuildInputs, d: BuildDocs, m: Member): Option<string> {
    match m
    case SumsMember => None
    case PublicationMember => Some(c.publicationText(RecordOf(c, i, d)))
    case SummaryMember => Some(c.summaryText(RecordOf(c, i, d)))
    case MatrixMember => Some(i.matrix)
    case PolicyMember => Some(i.policy)
    case ScopeMember => Some(i.plan)
    case GateMember => Some(i.gate)
    case EvidenceMember(name) => if FileOf(name) in i.evidence then Some(i.evidence[FileOf(name)]) else None
    case ReportMember(target) => if target in TARGETS then Some(ReportText(c, d, target)) else None
    case RetainedMember(file) => if file in i.retained then Some(i.retained[file]) else None
  }

  /** These are all the members of the bundle, apart from the listing. */
  ghost predicate AreMembers(c: Codec, i: BuildInputs, d: BuildDocs, members: map<Member, string>) {
    forall m :: if m in members then ContentOf(c, i, d, m) == Some(members[m]) else ContentOf(c, i, d, m).None?
  }

  function FilesOf(members: map<Member, string>): map<string, string> {
    AllPathsDiffer();
    map m | m in members :: PathOf(m) := members[m]
  }

  lemma {:induction false} AllPathsDiffer()
    ensures forall a, b :: PathOf(a) == PathOf(b) ==> a == b
  {
    hide PathOf;
    forall a, b | PathOf(a) == PathOf(b) ensures a == b {
      PathsDiffer(a, b);
    }
  }

  /** The text lists the digest of every file, by name. */
  ghost predicate IsListing(c: Codec, text: string, files: map<string, string>) {
    exists items: seq<Named<string>> :: text == Emit(items) && Lists(c, items, files)
  }

  ghost predicate Lists(c: Codec, items: seq<Named<string>>, files: map<string, string>) {
    && DistinctNames(items) && Sorted(items, (e: Named<string>) => e.name)
    && AsMap(items) == map path | path in files :: c.world.hash(files[path])
  }

  /** The bundle that a build makes of its inputs. */
  ghost predicate IsBundle(c: Codec, i: BuildInputs, d: BuildDocs, files: map<string, string>) {
    exists members, text ::
      AreMembers(c, i, d, members) && IsListing(c, text, FilesOf(members))
      && files == FilesOf(members)[PathOf(SumsMember) := text]
  }
}
