/**
 A bundle that is built and then refused: its retained manifest names one raw file twice and pins it once. The codec is
 any faithful one in which these texts are read as these documents.
*/
module BundleWitness {
  import opened Prelude
  import opened Text
  import opened SupportMatrix
  import opened SupportWitnesses
  import opened Evidence
  import opened Coverage
  import opened Gate
  import opened GateDecision
  import opened GateWitness
  import opened Checksums
  import opened Publication
  import opened BundleBuild
  import opened BundleVerify
  import opened NamesFit
  import opened Agreement

  const TAG := "trial"
  const RAW := "raw.json"
  const GATE_TEXT := "gate report"
  const RELEASE_TEXT := "release manifest"
  const RAW_TEXT := "raw observations"
  const MEASURED := Commit('b')

  // ------------------------------------------------------- the correctness

  const ROUND: Backend := Backend(Some([0, 0]), Some(2), Some(2), Some(0), Some(true), "", false, true)

  function History1(category: string): History {
    History(category, true)
  }

  /** One end-to-end case with all categories and channels. */
  function CaseOf(name: string): Case {
    Case(name, END_TO_END, "pass", map[], "",
         seq(|REQUIRED_CATEGORIES|, i requires 0 <= i < |REQUIRED_CATEGORIES| => History1(REQUIRED_CATEGORIES[i])),
         set c | c in REQUIRED_CHANNELS, 1, 1, Some(2), "1", [Named("x", ROUND)], map["x" := [1, 1]], {})
  }

  function Cases(): seq<Case> {
    [CaseOf("one"), CaseOf("two")]
  }

  function DeclaredOf(cases: seq<Case>): map<FieldName, Field> {
    map f | f in SUMMARY_FIELDS :: ExpectedField(Recomputed(cases), f)
  }

  function CleanCorrectness(): Correctness {
    Correctness(Cases(), DeclaredOf(Cases()))
  }

  lemma {:induction false} ExercisedAll(histories: seq<History>, category: string, k: nat)
    requires k < |histories| && histories[k] == History(category, true)
    ensures Exercised(histories, category) > 0
  {
    if k < |histories| - 1 {
      ExercisedAll(histories[..|histories| - 1], category, k);
    }
  }

  lemma {:induction false} CategoriesAreCovered()
    ensures CategoriesCovered(Recomputed(Cases()))
  {
    hide AllChannels, TotalChecked, TotalTies, Exercised;
    var cases := Cases();
    forall c | c in REQUIRED_CATEGORIES ensures CategoryCount(cases, c) > 0 {
      var k :| 0 <= k < |REQUIRED_CATEGORIES| && REQUIRED_CATEGORIES[k] == c;
      ExercisedAll(cases[1].histories, c, k);
      assert cases[|cases| - 1] == cases[1];
    }
  }

  lemma {:induction false} TotalsArePositive()
    ensures var s := Recomputed(Cases()); s.checked > 0 && s.pairs > 0 && |s.points| == 2 && s.seeds != []
    ensures ChannelsCovered(Recomputed(Cases()))
  {
    hide CategoryCount, TotalTies;
    var cases := Cases();
    assert cases[..1] == [cases[0]] && cases[..1][..0] == [] && cases[|cases| - 1] == cases[1];
    var b := [Named("x", ROUND)];
    assert b[..0] == [] && Checked(b) == 2;
    assert TotalChecked(cases[..1]) == 2 && TotalChecked(cases) == 4;
    assert Pairs(cases[..1]) == 1 && Pairs(cases) == 2;
    assert AllChannels(cases) == AllChannels(cases[..1]) + cases[1].channels;
  }

  lemma {:induction false} CorrectnessIsClean()
    ensures SummaryGaps(CleanCorrectness()) == []
  {
    hide Recomputed, CategoriesCovered, ChannelsCovered;
    CategoriesAreCovered();
    TotalsArePositive();
  }

  // ---------------------------------------------------------- the documents

  function EvidenceText(name: EvidenceName): string {
    match name
    case SupportEvidence => "support"
    case CorrectnessEvidence => "correctness"
    case ResourcesEvidence => "resources"
    case MleEvidence => MLE_TEXT
  }

  function ArchiveText(target: string): string {
    "archive for " + target
  }

  function Digest(base: Codec, text: string): string {
    base.world.hash(text)
  }

  function ReportOf(base: Codec, target: string): Installed {
    Installed(INSTALLED_SCHEMA, target, None, CANDIDATE, Ilp(true, true),
              MatrixRef(None, Digest(base, MATRIX_TEXT), MATRIX_SCHEMA), Binary(None, "", "", []),
              Archive(ArchiveName(TAG, target), "", Digest(base, ArchiveText(target))), [], "", "pass", [], [])
  }

  lemma {:induction false} ArchiveNamesDiffer()
    ensures forall s, t :: ArchiveName(TAG, s) == ArchiveName(TAG, t) ==> s == t
  {
    forall s, t | ArchiveName(TAG, s) == ArchiveName(TAG, t) ensures s == t {
      var x, y := ArchiveName(TAG, s), ArchiveName(TAG, t);
      var n := |"rustqec-" + TAG + "-"|;
      assert x == ("rustqec-" + TAG + "-") + (s + ".tar.gz") && y == ("rustqec-" + TAG + "-") + (t + ".tar.gz");
      assert x[n..] == s + ".tar.gz" && y[n..] == t + ".tar.gz" && |s| == |t|;
      assert s == x[n..][..|s|] && t == y[n..][..|t|];
    }
  }

  function Archives(base: Codec): map<string, Identity> {
    ArchiveNamesDiffer();
    map t | t in TARGETS ::
      ArchiveName(TAG, t) := Identity(t, ArchiveName(TAG, t), Digest(base, ArchiveText(t)), |ArchiveText(t)|)
  }

  function ReleaseDoc(base: Codec): ReleaseManifest {
    ReleaseManifest(TAG, CANDIDATE, Archives(base))
  }

  /** A matrix of one decoder that is at beta and not proposed. */
  function BetaMatrix(): Matrix {
    SoleMatrix(MATCHING, "", Other(""))
  }

  /** The report of a gate that read these files: every digest is the one of the file it names. */
  function PassingGate(base: Codec): GateReport {
    GateReport(GATE_SCHEMA, CANDIDATE, TARGETS, Digest(base, MATRIX_TEXT), Digest(base, POLICY_TEXT),
               RetainedRecord(true, "source-equivalent", Digest(base, RETAINED_TEXT), MEASURED),
               Digest(base, PLAN_TEXT), map name | name in NAMES :: Digest(base, EvidenceText(name)),
               map t | t in TARGETS :: RefOf(base, t), [Named(MATCHING, Decision("", "", "beta", [], []))], "pass", [])
  }

  function RefOf(base: Codec, target: string): InstalledRef {
    InstalledRef(Digest(base, base.reportText(ReportOf(base, target))),
                 Digest(base, base.world.portableText(Portable(ReportOf(base, target)))))
  }

  function Passed<T>(schema: string, body: T): Generated<T> {
    Generated(schema, CANDIDATE, "pass", body)
  }

  /** One raw file, two cases, and the digest in the last one only. */
  function Retained(base: Codec): RetainedManifest {
    RetainedManifest(RETAINED_SCHEMA, "pass", MEASURED,
                     [RetainedCase(RAW, None), RetainedCase(RAW, Some(Digest(base, RAW_TEXT)))])
  }

  function At<T>(text: string, document: T, parse: string -> Option<T>): string -> Option<T> {
    x => if x == text then Some(document) else parse(x)
  }

  /** The codec `base`, but that these texts are these documents. */
  function Reading(base: Codec): Codec {
    base.(
      world := base.world.(
        matrixOf := At(MATRIX_TEXT, BetaMatrix(), base.world.matrixOf),
        planOf := At(PLAN_TEXT, SCOPE_PLAN, base.world.planOf),
        supportOf := At(EvidenceText(SupportEvidence), Passed(SUPPORT_SCHEMA, []), base.world.supportOf),
        correctnessOf :=
          At(EvidenceText(CorrectnessEvidence), Passed(CORRECTNESS_SCHEMA, CleanCorrectness()),
             base.world.correctnessOf),
        resourcesOf := At(EvidenceText(ResourcesEvidence), Passed(RESOURCES_SCHEMA, []), base.world.resourcesOf),
        mleOf := At(EvidenceText(MleEvidence), Passed(MLE_SCHEMA, []), base.world.mleOf)),
      gateOf := At(GATE_TEXT, PassingGate(base), base.gateOf),
      retainedOf := At(RETAINED_TEXT, Retained(base), base.retainedOf),
      manifestOf := At(RELEASE_TEXT, ReleaseDoc(base), base.manifestOf),
      manifestDetails := manifest => manifest == ReleaseDoc(base) || base.manifestDetails(manifest))
  }

  // ------------------------------------------------------------- the inputs

  lemma {:induction false} EvidenceFilesDiffer()
    ensures forall a: EvidenceName, b: EvidenceName :: FileOf(a) == FileOf(b) ==> a == b
  {
    forall a: EvidenceName, b: EvidenceName | FileOf(a) == FileOf(b) ensures a == b {
      EvidencePathsDiffer(a, b);
    }
  }

  function EvidenceFiles(base: Codec): map<string, string> {
    GeneratedFiles() + InstalledFiles(base)
  }

  function GeneratedFiles(): map<string, string> {
    EvidenceFilesDiffer();
    map name | name in NAMES :: FileOf(name) := EvidenceText(name)
  }

  function InstalledFiles(base: Codec): map<string, string> {
    InstalledFilesDiffer();
    map t | t in TARGETS :: InstalledFile(t) := base.reportText(ReportOf(base, t))
  }

  lemma {:induction false} InstalledFilesDiffer()
    ensures forall s, t :: InstalledFile(s) == InstalledFile(t) ==> s == t
  {
    forall s, t | InstalledFile(s) == InstalledFile(t) ensures s == t {
      var x, y := InstalledFile(s), InstalledFile(t);
      assert x[10..] == s + ".json" && y[10..] == t + ".json" && |s| == |t|;
      assert s == x[10..][..|s|] && t == y[10..][..|t|];
    }
  }

  function ArchiveFiles(): map<string, string> {
    ArchiveNamesDiffer();
    map t | t in TARGETS :: ArchiveName(TAG, t) := ArchiveText(t)
  }

  function RetainedFiles(): map<string, string> {
    map[MANIFEST := RETAINED_TEXT, RAW := RAW_TEXT]
  }

  function FilesToBuild(base: Codec): BuildInputs {
    BuildInputs(TAG, CANDIDATE, RELEASE_TEXT, ArchiveFiles(), EvidenceFiles(base), GATE_TEXT, MATRIX_TEXT, POLICY_TEXT,
                PLAN_TEXT, RetainedFiles())
  }

  function Documents(): Docs {
    Docs(Passed(SUPPORT_SCHEMA, []), Passed(CORRECTNESS_SCHEMA, CleanCorrectness()), Passed(RESOURCES_SCHEMA, []),
         Some(Passed(MLE_SCHEMA, [])))
  }

  function Parsed(base: Codec): BuildDocs {
    BuildDocs(ReleaseDoc(base), BetaMatrix(), PassingGate(base), SCOPE_PLAN, Documents(),
              map t | t in TARGETS :: ReportOf(base, t), Retained(base))
  }

  // --------------------------------------------------------------- the build

  lemma {:induction false} ReadingIsFaithful(base: Codec)
    requires Faithful(base)
    ensures Faithful(Reading(base))
  {
    hide CleanCorrectness, PassingGate, ReleaseDoc, HexOf, BetaMatrix;
    assert Reading(base).publicationOf == base.publicationOf && Reading(base).publicationText == base.publicationText;
  }

  lemma {:induction false} ReadingHashes(base: Codec)
    ensures Reading(base).world.hash == base.world.hash && Reading(base).world.portableText == base.world.portableText
    ensures Reading(base).world.installedOf == base.world.installedOf && Reading(base).reportText == base.reportText
    ensures Reading(base).manifestDetails(ReleaseDoc(base))
    ensures Reading(base).retainedOf(RETAINED_TEXT) == Some(Retained(base))
  {
    hide CleanCorrectness, PassingGate, ReleaseDoc, BetaMatrix, Retained;
  }

  lemma {:induction false} TextsAre(base: Codec, name: EvidenceName)
    ensures name in TextsOf(FilesToBuild(base)) && TextsOf(FilesToBuild(base))[name] == EvidenceText(name)
  {
    hide InstalledFiles, FileOf, EvidenceText;
    AllNames(name);
    EvidenceFilesDiffer();
    assert FileOf(name) in GeneratedFiles() && GeneratedFiles()[FileOf(name)] == EvidenceText(name);
    NoReportFile(base, name);
  }

  lemma {:induction false} NoReportFile(base: Codec, name: EvidenceName)
    ensures FileOf(name) !in InstalledFiles(base)
  {
    hide ReportOf;
    EvidencePathsDiffer(name, name);
    assert forall t :: InstalledFile(t)[0] == 'i';
  }

  lemma {:induction false} ReadsDocs(base: Codec)
    ensures ReadDocs(Reading(base), TextsOf(FilesToBuild(base))) == Some(Documents())
  {
    hide TextsOf, CleanCorrectness, PassingGate, ReleaseDoc, FilesToBuild, BetaMatrix, Retained, EvidenceText;
    TextsAre(base, SupportEvidence);
    TextsAre(base, CorrectnessEvidence);
    TextsAre(base, ResourcesEvidence);
    TextsAre(base, MleEvidence);
  }

  lemma {:induction false} InstalledFileIs(base: Codec, t: string)
    requires t in TARGETS
    ensures InstalledFile(t) in InstalledFiles(base)
      && InstalledFiles(base)[InstalledFile(t)] == base.reportText(ReportOf(base, t))
  {
    hide InstalledFile, ReportOf, TARGETS;
    InstalledFilesDiffer();
  }

  lemma {:induction false} ReportIsThere(base: Codec, t: string)
    requires t in TARGETS
    ensures InstalledFile(t) in FilesToBuild(base).evidence
    ensures FilesToBuild(base).evidence[InstalledFile(t)] == base.reportText(ReportOf(base, t))
  {
    hide InstalledFile, ReportOf, GeneratedFiles, InstalledFiles, ArchiveFiles;
    InstalledFileIs(base, t);
  }

  lemma {:induction false} ReadsReports(base: Codec)
    requires Faithful(base)
    ensures RawReports(Reading(base), FilesToBuild(base)) == map t | t in TARGETS :: ReportOf(base, t)
  {
    hide InstalledFile, ReportOf, FilesToBuild, Reading, HexOf, TARGETS;
    ReadingHashes(base);
    forall t | t in TARGETS
      ensures InstalledFile(t) in FilesToBuild(base).evidence
      ensures Reading(base).world.installedOf(FilesToBuild(base).evidence[InstalledFile(t)]) == Some(ReportOf(base, t))
    {
      ReportIsThere(base, t);
    }
  }

  lemma {:induction false} ReadsAs(base: Codec)
    requires Faithful(base)
    ensures ReadBuild(Reading(base), FilesToBuild(base)) == Some(Parsed(base))
  {
    hide Faithful, TextsOf, RawReports, ReadDocs, PassingGate, ReleaseDoc, ReportOf, EvidenceFiles, ArchiveFiles;
    hide CleanCorrectness, BetaMatrix, Retained, SCOPE_CASES, TARGETS, Commit;
    ReadsDocs(base);
    ReadsReports(base);
    assert (map t | t in TARGETS :: ReportOf(base, t)).Keys == set t | t in TARGETS;
  }

  lemma {:induction false} ArchiveIs(base: Codec, t: string)
    requires t in TARGETS
    ensures ArchiveName(TAG, t) in Archives(base) && ArchiveName(TAG, t) in ArchiveFiles()
    ensures Archives(base)[ArchiveName(TAG, t)]
         == Identity(t, ArchiveName(TAG, t), Digest(base, ArchiveText(t)), |ArchiveText(t)|)
    ensures ArchiveFiles()[ArchiveName(TAG, t)] == ArchiveText(t)
  {
    hide ArchiveName;
    ArchiveNamesDiffer();
  }

  lemma {:induction false} ReleaseFits(base: Codec)
    requires Faithful(base)
    ensures ManifestOk(Reading(base), ReleaseDoc(base), TAG)
    ensures ArchivesPresent(Reading(base), ArchiveFiles(), Archives(base))
  {
    hide ArchiveName, Reading, TARGETS, Commit, HexOf;
    ReadingHashes(base);
    ArchiveNamesDiffer();
    var archives := Archives(base);
    forall f | f in archives
      ensures IdentityOk(TAG, f, archives[f]) && f in ArchiveFiles()
        && base.world.hash(ArchiveFiles()[f]) == archives[f].sha256
    {
      var t :| t in TARGETS && ArchiveName(TAG, t) == f;
      ArchiveIs(base, t);
      assert |ArchiveText(t)| > 0;
    }
  }

  lemma {:induction false} GateSays(base: Codec)
    ensures var g := PassingGate(base);
      && g.schema == GATE_SCHEMA && g.status == "pass" && g.candidate == CANDIDATE && g.requiredTargets == TARGETS
      && g.matrixSha == Digest(base, MATRIX_TEXT) && g.policySha == Digest(base, POLICY_TEXT)
      && g.planSha == Digest(base, PLAN_TEXT)
      && g.retained == RetainedRecord(true, "source-equivalent", Digest(base, RETAINED_TEXT), MEASURED)
      && g.decoders == [Named(MATCHING, Decision("", "", "beta", [], []))]
      && (forall name :: name in NAMES ==> name in g.evidence && g.evidence[name] == Digest(base, EvidenceText(name)))
      && (forall t :: t in TARGETS ==> t in g.installed && g.installed[t] == RefOf(base, t))
  {
    hide EvidenceText, RefOf;
  }

  lemma {:induction false} GateFits(base: Codec)
    requires Faithful(base)
    ensures GateReportOk(PassingGate(base), CANDIDATE, Digest(base, MATRIX_TEXT), Digest(base, POLICY_TEXT))
  {
    hide HexOf, PassingGate, EvidenceText, ReportOf, Portable, Supports;
    GateSays(base);
    assert forall name :: name in NAMES ==> BindsEvidence(PassingGate(base), name);
    assert forall t :: t in TARGETS ==> BindsReport(PassingGate(base), t);
  }

  lemma {:induction false} EvidenceFits(base: Codec)
    ensures Inspected(Reading(base), PassingGate(base), TextsOf(FilesToBuild(base)))
    ensures DocsOk(Documents(), CANDIDATE)
  {
    hide CleanCorrectness, FilesToBuild, TextsOf, PassingGate, EvidenceText, Reading;
    ReadingHashes(base);
    GateSays(base);
    forall name | name in TextsOf(FilesToBuild(base))
      ensures InspectedAs(Reading(base), PassingGate(base), name, TextsOf(FilesToBuild(base))[name])
    {
      AllNames(name);
      TextsAre(base, name);
    }
  }

  lemma {:induction false} TargetsArePlain(t: string)
    requires t in TARGETS
    ensures '/' !in t
  {
    assert t == TARGETS[0] || t == TARGETS[1];
  }

  lemma {:induction false} ArchiveIsPlain(t: string)
    requires t in TARGETS
    ensures '/' !in ArchiveName(TAG, t) && |ArchiveName(TAG, t)| > 1
  {
    TargetsArePlain(t);
    assert '/' !in "rustqec-" && '/' !in TAG && '/' !in "-" && '/' !in ".tar.gz";
    forall x | x in ArchiveName(TAG, t) ensures x != '/' {
      assert x in "rustqec-" || x in TAG || x in "-" || x in t || x in ".tar.gz";
    }
  }

  lemma {:induction false} NameOfArchive(t: string)
    requires t in TARGETS
    ensures BaseName(ArchiveName(TAG, t)) == ArchiveName(TAG, t)
  {
    hide ArchiveName, Parts;
    ArchiveIsPlain(t);
    var name := ArchiveName(TAG, t);
    PlainParts(name, "");
    assert "" + name == name;
  }

  lemma {:induction false} ReportSays(base: Codec, t: string)
    ensures var r := ReportOf(base, t);
      && r.schema == INSTALLED_SCHEMA && r.target == t && r.sourceRevision == CANDIDATE && r.status == "pass"
      && r.ilp == Ilp(true, true) && r.archive.path == ArchiveName(TAG, t)
      && r.archive.sha256 == Digest(base, ArchiveText(t)) && r.matrix.sha256 == Digest(base, MATRIX_TEXT)
  {
    hide ArchiveName;
  }

  lemma {:induction false} ReportFitsToo(base: Codec, t: string)
    requires Faithful(base) && t in TARGETS
    ensures ReportFits(Reading(base), FilesToBuild(base), Parsed(base), t)
  {
    hide Faithful, ArchiveName, InstalledFile, EvidenceFiles, BaseName, Portable, PassingGate, Documents;
    hide ReportOf, Archives, ArchiveText, BetaMatrix, SCOPE_CASES, Retained, Reading, ArchiveFiles;
    ReadingHashes(base);
    ReportIsThere(base, t);
    NameOfArchive(t);
    ArchiveIs(base, t);
    GateSays(base);
    ReportSays(base, t);
  }

  lemma {:induction false} NoClimbing(name: string)
    requires name == MANIFEST || name == RAW
    ensures !ClimbsUp(name)
  {
    assert '/' !in MANIFEST && '/' !in RAW;
    PlainParts(name, "");
    assert "" + name == name && name != ".." && name != ".";
  }

  lemma {:induction false} RetainedFits(base: Codec)
    ensures RetainedOk(Reading(base), RetainedFiles(), MEASURED)
  {
    hide ClimbsUp, Reading;
    ReadingHashes(base);
    var cases := Retained(base).cases;
    NoClimbing(MANIFEST);
    NoClimbing(RAW);
    assert MANIFEST[0] == 'm' && RAW[0] == 'r';
    assert cases[|cases| - 1].raw == RAW && RecordedSha(cases, RAW) == Some(Digest(base, RAW_TEXT));
    forall k | k in cases && k.raw != "" ensures RawOk(Reading(base), RetainedFiles(), cases, k.raw) {
      assert k.raw == RAW;
    }
  }

  lemma {:induction false} NothingClaimed(base: Codec, reports: map<string, Installed>)
    ensures BindingsOk(TAG, BetaMatrix(), PassingGate(base), Some(SCOPE_PLAN))
    ensures AllDecided(BetaMatrix(), PassingGate(base))
    ensures Complete(Reading(base), BetaMatrix(), PassingGate(base), Documents(), reports)
  {
    hide CleanCorrectness, SummaryGaps, DecoderCoverageOf, LoadedFor, PassingGate, VersionOf, SCOPE_CASES, SoleMatrix;
    GateSays(base);
    CorrectnessIsClean();
    assert "beta" != "supported" by { assert "beta"[0] == 'b'; }
    forall d | d in BetaMatrix().decoders ensures HasDecision(PassingGate(base), d) {
      BetaDecoders();
    }
  }

  lemma {:induction false} BetaDecoders()
    ensures forall d :: d in BetaMatrix().decoders ==> d.name == MATCHING
  {
    hide Required;
  }

  lemma {:induction false} TagIsPlain()
    ensures NameFits(TAG, false)
  {
    assert TAG[0] == 't';
  }

  lemma {:induction false} InputsAreAccepted(base: Codec)
    requires Faithful(base)
    ensures BuildChecks(Reading(base), FilesToBuild(base), Parsed(base))
  {
    hide Faithful, NameFits, HexOf, ManifestOk, GateReportOk, ReportFits, RetainedOk, Complete, Documents, Archives;
    hide PassingGate, SanitizedReports, TextsOf, EvidenceFiles, BindingsOk, AllDecided, ReportOf, ArchivesPresent;
    hide Inspected, DocsOk, BetaMatrix, SCOPE_CASES, Retained, Reading, ArchiveFiles, Commit;
    var c, i, d := Reading(base), FilesToBuild(base), Parsed(base);
    ReadingHashes(base);
    TagIsPlain();
    ReleaseFits(base);
    GateFits(base);
    GateSays(base);
    EvidenceFits(base);
    forall t | t in TARGETS ensures ReportFits(c, i, d, t) {
      ReportFitsToo(base, t);
    }
    RetainedFits(base);
    NothingClaimed(base, SanitizedReports(d.reports));
    SchemaOfBeta();
    assert HexOf(CANDIDATE, 40);
    assert MANIFEST in i.retained && i.retained[MANIFEST] == RETAINED_TEXT by { ManifestIsRetained(); }
  }

  lemma {:induction false} SchemaOfBeta()
    ensures BetaMatrix().schema == MATRIX_SCHEMA
  {
  }

  lemma {:induction false} ManifestIsRetained()
    ensures MANIFEST in RetainedFiles() && RetainedFiles()[MANIFEST] == RETAINED_TEXT
  {
    assert MANIFEST[0] == 'm' && RAW[0] == 'r';
  }

  // ------------------------------------------------------------- the release

  lemma {:induction false} NotPinned(base: Codec)
    ensures !RawPinned(Reading(base), RetainedFiles(), Parsed(base).retained.cases)
  {
    hide Documents, PassingGate, ReleaseDoc, BetaMatrix, SCOPE_CASES, ReportOf, Reading;
    assert Retained(base).cases[0] in Retained(base).cases && Retained(base).cases[0].raw != "";
  }

  /**
   A retained manifest that names a raw file twice and pins it in the last case only: the build accepts it, and the
   verifier refuses every bundle that the build makes of it, in every directory of its release.
  */
  lemma {:induction false} RepeatedRawIsBuiltAndRefused(base: Codec)
    requires Faithful(base)
    ensures var c, i, d := Reading(base), FilesToBuild(base), Parsed(base);
      && Faithful(c) && ReadBuild(c, i) == Some(d) && BuildAccepts(c, i)
      && forall b: Bundle, release :: Released(c, i, d, b, release) ==> !DirectoryAccepts(c, release, b.name, [])
  {
    hide Faithful, BuildChecks, ReadBuild, Beside, Holds, DirectoryAccepts, IsBundle, IsPacked, AssetOf;
    hide ReplayOk, RecordOf, Reading, Parsed, RawPinned, RetainedNamesFit;
    var c, i, d := Reading(base), FilesToBuild(base), Parsed(base);
    ReadsAs(base);
    InputsAreAccepted(base);
    ReadingIsFaithful(base);
    NotPinned(base);
    forall b: Bundle, release | Released(c, i, d, b, release)
      ensures !DirectoryAccepts(c, release, b.name, [])
    {
      PublishedBundleIsAcceptedIff(c, i, d, b, release, []);
    }
  }

  lemma {:induction false} ArchiveNameFits(t: string)
    requires t in TARGETS
    ensures NameFits(ArchiveName(TAG, t), false)
    ensures |ArchiveName(TAG, t)| > 1 && ArchiveName(TAG, t)[0] == 'r' && ArchiveName(TAG, t)[1] == 'u'
  {
    var name := ArchiveName(TAG, t);
    assert name[0] == 'r' && name[1] == 'u';
    assert t == TARGETS[0] || t == TARGETS[1];
    forall x | x in name ensures IsNameChar(x) && x != '/' {
      assert x in "rustqec-" || x in TAG || x in "-" || x in t || x in ".tar.gz";
    }
  }

  lemma {:induction false} ArchivesAreNamed(base: Codec, f: string)
    requires f in Archives(base) || f in ArchiveFiles()
    ensures exists t :: t in TARGETS && f == ArchiveName(TAG, t)
  {
    hide ArchiveName, TARGETS;
  }

  /** The listing of the release reads back as the digests of its archives. */
  lemma {:induction false} ReleaseListing(base: Codec, items: seq<Named<string>>)
    requires Faithful(base) && DistinctNames(items) && AsMap(items) == ArchiveShas(Archives(base))
    ensures Parse(Emit(items), false) == Ok(ArchiveShas(Archives(base)))
  {
    hide Parse, Emit, HexOf, NameFits, ArchiveName, TARGETS, Archives;
    AsMapKeys(items);
    AsMapLookup(items);
    forall e | e in items ensures NameFits(e.name, false) && HexOf(e.value, 64) {
      assert e.name in Archives(base);
      ArchivesAreNamed(base, e.name);
      var t :| t in TARGETS && e.name == ArchiveName(TAG, t);
      ArchiveNameFits(t);
      ArchiveIs(base, t);
    }
    ListingRoundTripsIff(items, false);
  }

  function ReleaseOf(b: Bundle, listing: string): map<string, string> {
    ArchiveFiles()[MANIFEST_FILE := RELEASE_TEXT][SUMS_FILE := listing][b.name := b.archive][
      b.name + ".sha256" := b.sidecar]
  }

  lemma {:induction false} ArchiveFileStarts(f: string)
    requires f in ArchiveFiles()
    ensures |f| > 1 && f[0] == 'r' && f[1] == 'u'
  {
    hide ArchiveName, TARGETS, ArchiveText;
    var t :| t in TARGETS && f == ArchiveName(TAG, t);
    ArchiveNameFits(t);
  }

  lemma {:induction false} BundleNameStarts()
    ensures |AssetOf(TAG)| > 7 && AssetOf(TAG)[0] == 'e' && IsBundleName(AssetOf(TAG))
    ensures !IsBundleName(AssetOf(TAG) + ".sha256")
  {
    hide NameFits, AssetOf;
    TagIsPlain();
    AssetIsBundleName(TAG);
    var name := AssetOf(TAG);
    var side := name + ".sha256";
    assert name[0] == BUNDLE_PREFIX[0];
    assert side[|side| - 7..] == ".sha256" && ".sha256"[1] == 's';
  }

  lemma {:induction false} BundlesStart(f: string)
    ensures IsBundleName(f) ==> f[0] == 'e'
  {
    assert BUNDLE_PREFIX[0] == 'e';
  }

  /** The files of the release by name, none of which hides another. */
  lemma {:induction false} ReleaseFiles(b: Bundle, listing: string, f: string)
    requires b.name == AssetOf(TAG)
    ensures var release := ReleaseOf(b, listing);
      && (f in ArchiveFiles() ==> f in release && release[f] == ArchiveFiles()[f])
      && MANIFEST_FILE in release && release[MANIFEST_FILE] == RELEASE_TEXT
      && SUMS_FILE in release && release[SUMS_FILE] == listing
      && b.name in release && release[b.name] == b.archive
      && b.name + ".sha256" in release && release[b.name + ".sha256"] == b.sidecar
      && (f in release && IsBundleName(f) ==> f == b.name)
  {
    hide ArchiveFiles, AssetOf, IsBundleName;
    BundleNameStarts();
    BundlesStart(f);
    var side := b.name + ".sha256";
    assert side[0] == 'e' && side != b.name;
    assert MANIFEST_FILE[0] == 'r' && MANIFEST_FILE[1] == 'e' && SUMS_FILE[0] == 'S';
    if f in ArchiveFiles() {
      ArchiveFileStarts(f);
    }
  }

  lemma {:induction false} ReleaseHolds(base: Codec, b: Bundle, listing: string)
    requires Faithful(base) && b.name == AssetOf(TAG) && Parse(listing, false) == Ok(ArchiveShas(Archives(base)))
    ensures Beside(Reading(base), FilesToBuild(base), ReleaseDoc(base), ReleaseOf(b, listing))
    ensures Holds(ReleaseOf(b, listing), b)
  {
    hide Parse, ArchiveFiles, Archives, Reading, EvidenceFiles, AssetOf, ReleaseOf, IsBundleName, Faithful, ManifestOk;
    ReleaseFits(base);
    ReadingHashes(base);
    ReleaseFiles(b, listing, b.name);
    var files, release := ArchiveFiles(), ReleaseOf(b, listing);
    forall f
      ensures f in files ==> f in release && release[f] == files[f]
      ensures f in release && IsBundleName(f) ==> f == b.name
    {
      ReleaseFiles(b, listing, f);
    }
  }

  /** Such a release exists: it is built here, and refused. */
  method PublishRepeatedRaw(base: Codec) returns (b: Bundle, release: map<string, string>)
    requires Faithful(base)
    ensures Released(Reading(base), FilesToBuild(base), Parsed(base), b, release)
    ensures !DirectoryAccepts(Reading(base), release, b.name, [])
  {
    hide Faithful, Reading, Parsed, Archives, ArchiveFiles, IsBundle, IsPacked, Beside, Holds, DirectoryAccepts;
    hide ReadBuild, BuildAccepts, RecordOf, Parse, Emit, ArchiveShas;
    RepeatedRawIsBuiltAndRefused(base);
    var built := BuildBundle(Reading(base), FilesToBuild(base));
    b := built.value;
    var items := SortedItems(ArchiveShas(Archives(base)));
    ReleaseListing(base, items);
    release := ReleaseOf(b, Emit(items));
    ReleaseHolds(base, b, Emit(items));
    assert Parsed(base).manifest == ReleaseDoc(base) by { ParsedManifest(base); }
  }

  lemma {:induction false} ParsedManifest(base: Codec)
    ensures Parsed(base).manifest == ReleaseDoc(base)
  {
    hide Documents, PassingGate, ReleaseDoc, BetaMatrix, SCOPE_CASES, ReportOf, Retained;
  }
}
