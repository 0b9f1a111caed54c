/** Producer and verifier agree: which of the bundles that are built are accepted. */
module Agreement {
  import opened Prelude
  import opened Text
  import opened SupportMatrix
  import opened Evidence
  import opened Gate
  import opened GateDecision
  import opened Checksums
  import opened Sorting
  import opened Publication
  import opened BundleBuild
  import opened BundleVerify
  import opened NamesFit

  /** The release the bundle is published with: the manifest it was built from, the archives and their listing. */
  predicate Beside(c: Codec, i: BuildInputs, m: ReleaseManifest, release: map<string, string>) {
    && MANIFEST_FILE in release && release[MANIFEST_FILE] == i.manifest
    && SUMS_FILE in release && Parse(release[SUMS_FILE], false) == Ok(ArchiveShas(m.archives))
    && ArchivesPresent(c, release, m.archives)
  }

  /** Every raw observation the retained manifest names has its digest there. */
  predicate RawPinned(c: Codec, retained: map<string, string>, cases: seq<RetainedCase>) {
    forall k :: k in cases && k.raw != "" ==> k.raw in retained && k.rawSha == Some(c.world.hash(retained[k.raw]))
  }

  /** What only the verifier checks. */
  ghost predicate VerifierOnly(c: Codec, i: BuildInputs, d: BuildDocs) {
    && d.gate.requiredTargets == TARGETS
    && RawPinned(c, i.retained, d.retained.cases)
    && RetainedNamesFit(i.retained)
    && ReplayOk(c, d.gate, d.docs, i.plan)
  }

  // --------------------------------------------------------- the same files

  /** What the theorems below say about a bundle: every member but the listing is where it was put. */
  ghost predicate Filed(c: Codec, i: BuildInputs, d: BuildDocs, files: map<string, string>) {
    forall m :: m != SumsMember ==> TextAt(files, m) == ContentOf(c, i, d, m)
  }

  lemma {:induction false} MembersAreFiled(c: Codec, i: BuildInputs, d: BuildDocs, members: map<Member, string>,
                                           text: string)
    requires AreMembers(c, i, d, members)
    ensures Filed(c, i, d, FilesOf(members)[PathOf(SumsMember) := text])
  {
    hide PathOf, ContentOf;
    AllPathsDiffer();
    var files := FilesOf(members);
    forall m | m != SumsMember ensures TextAt(files[PathOf(SumsMember) := text], m) == ContentOf(c, i, d, m) {
      assert PathOf(m) != PathOf(SumsMember);
      assert PathOf(m) in files <==> m in members;
    }
  }

  function OpenedOf(c: Codec, i: BuildInputs, d: BuildDocs): Opened {
    Opened(RecordOf(c, i, d), d.manifest, d.matrix, Some(d.plan), d.gate, d.docs, d.retained)
  }

  lemma {:induction false} TextsAgree(c: Codec, i: BuildInputs, d: BuildDocs, files: map<string, string>)
    requires Filed(c, i, d, files)
    ensures TextsIn(files, RecordOf(c, i, d)) == TextsOf(i)
  {
    hide PathOf, FileOf, ClaimsOf, SupportedNames, PlatformOf, RetainedShas;
    forall name ensures TextAt(files, EvidenceMember(name)) == ContentOf(c, i, d, EvidenceMember(name)) {
    }
    forall name ensures name in RecordOf(c, i, d).evidence {
      AllNames(name);
    }
  }

  /** The verifier reads the documents the build read. */
  lemma {:induction false} BundleOpens(c: Codec, i: BuildInputs, d: BuildDocs, files: map<string, string>,
                                       release: map<string, string>)
    requires Faithful(c) && ReadBuild(c, i) == Some(d) && Filed(c, i, d, files) && Beside(c, i, d.manifest, release)
    ensures Open(c, files, release) == Some(OpenedOf(c, i, d))
  {
    hide PathOf, RecordOf, ReadDocs, TextsOf, TextsIn, TextAt, RawReports, Parse, ArchivesPresent, ReportText, FileOf;
    TextsAgree(c, i, d, files);
    RecordFields(c, i, d);
    assert TextAt(files, PublicationMember) == ContentOf(c, i, d, PublicationMember);
    assert TextAt(files, MatrixMember) == ContentOf(c, i, d, MatrixMember);
    assert TextAt(files, ScopeMember) == ContentOf(c, i, d, ScopeMember);
    assert TextAt(files, GateMember) == ContentOf(c, i, d, GateMember);
    assert TextAt(files, RetainedMember(MANIFEST)) == ContentOf(c, i, d, RetainedMember(MANIFEST));
  }

  /** The record repeats what it was made of. */
  lemma {:induction false} RecordFields(c: Codec, i: BuildInputs, d: BuildDocs)
    ensures var r := RecordOf(c, i, d);
      && r.schema == PUBLICATION_SCHEMA && r.tag == i.tag && r.sourceSha == i.sourceSha
      && r.matrixSha == c.world.hash(i.matrix) && r.policySha == c.world.hash(i.policy)
      && r.gateSha == c.world.hash(i.gate)
      && r.scope == Some(ScopeRef(PathOf(ScopeMember), c.world.hash(i.plan), d.plan.sourceRevision))
      && r.retainedRevision == d.gate.retained.checkoutRevision && r.retainedFiles == RetainedShas(c, i.retained)
      && r.decoders == ClaimsOf(d.matrix, d.gate, Some(d.plan), d.matrix.decoders)
      && r.supported == SupportedNames(r.decoders, d.matrix.decoders)
      && r.platforms == seq(|TARGETS|, k requires 0 <= k < |TARGETS| => PlatformOf(c, i, d, TARGETS[k]))
  {
    hide PathOf, FileOf, ClaimsOf, SupportedNames, PlatformOf, RetainedShas;
  }

  lemma {:induction false} RecordedEvidence(c: Codec, i: BuildInputs, d: BuildDocs)
    ensures MleEvidence in RecordOf(c, i, d).evidence
  {
    hide PathOf, FileOf, ClaimsOf, SupportedNames, PlatformOf, RetainedShas;
    AllNames(MleEvidence);
  }

  // ------------------------------------------------------------- the listing

  lemma {:induction false} ListedFiles(c: Codec, members: map<Member, string>, text: string)
    requires SumsMember !in members
    ensures var files := FilesOf(members)[PathOf(SumsMember) := text];
      (map path | path in files && path != PathOf(SumsMember) :: c.world.hash(files[path]))
      == map path | path in FilesOf(members) :: c.world.hash(FilesOf(members)[path])
  {
    ListingHasItsOwnPath(members);
    hide PathOf, FilesOf;
    OtherFiles(c, FilesOf(members), PathOf(SumsMember), text);
  }

  lemma {:induction false} ListingHasItsOwnPath(members: map<Member, string>)
    requires SumsMember !in members
    ensures PathOf(SumsMember) !in FilesOf(members)
  {
    hide PathOf;
    AllPathsDiffer();
  }

  lemma {:induction false} OtherFiles(c: Codec, plain: map<string, string>, listing: string, text: string)
    requires listing !in plain
    ensures var files := plain[listing := text];
      (map path | path in files && path != listing :: c.world.hash(files[path]))
      == map path | path in plain :: c.world.hash(plain[path])
  {
  }

  /** The listing of a built bundle is accepted exactly when the names of its members fit the grammar. */
  lemma {:induction false} ListingAcceptedIff(c: Codec, i: BuildInputs, d: BuildDocs, members: map<Member, string>,
                                              text: string)
    requires Faithful(c) && AreMembers(c, i, d, members) && IsListing(c, text, FilesOf(members))
    ensures ListingOk(c, FilesOf(members)[PathOf(SumsMember) := text]) <==> NamesGood(c, i, d)
  {
    hide PathOf, ContentOf, Parse, GoodName, Emit, Sorted, HexOf, Faithful, FilesOf, NamesGood;
    var plain := FilesOf(members);
    var shas := map path | path in plain :: c.world.hash(plain[path]);
    var items :| text == Emit(items) && Lists(c, items, plain);
    assert SumsMember !in members by { assert ContentOf(c, i, d, SumsMember).None? by { ListingIsNoContent(c, i, d); } }
    ListedFiles(c, members, text);
    AsMapKeys(items);
    AsMapLookup(items);
    forall e: Named<string> | e in items ensures HexOf(e.value, 64) && e.name in plain {
      DigestsAreHex(c, plain, e.name);
    }
    ListingRoundTripsIff(items, true);
    NamesAreMembers(c, i, d, members, items);
  }

  lemma {:induction false} ListingIsNoContent(c: Codec, i: BuildInputs, d: BuildDocs)
    ensures ContentOf(c, i, d, SumsMember).None?
  {
  }

  lemma {:induction false} DigestsAreHex(c: Codec, files: map<string, string>, path: string)
    requires Faithful(c)
    ensures path in files ==> HexOf(c.world.hash(files[path]), 64)
  {
  }

  lemma {:induction false} NamesAreMembers(c: Codec, i: BuildInputs, d: BuildDocs, members: map<Member, string>,
                                           items: seq<Named<string>>)
    requires AreMembers(c, i, d, members)
    requires AsMap(items) == map path | path in FilesOf(members) :: c.world.hash(FilesOf(members)[path])
    ensures (forall e :: e in items ==> GoodName(e.name)) <==> NamesGood(c, i, d)
  {
    hide PathOf, ContentOf, GoodName;
    AsMapKeys(items);
    var shas := AsMap(items);
    forall m ensures ContentOf(c, i, d, m).Some? <==> m in members {
    }
    if forall e :: e in items ==> GoodName(e.name) {
      forall m | m in members ensures GoodName(PathOf(m)) {
        assert PathOf(m) in shas;
      }
    }
    if NamesGood(c, i, d) {
      forall e: Named<string> | e in items ensures GoodName(e.name) {
        assert e.name in shas;
        var m :| m in members && PathOf(m) == e.name;
      }
    }
  }

  // ------------------------------------------------------------- the checks

  lemma {:induction false} FiledMatches(c: Codec, i: BuildInputs, d: BuildDocs, files: map<string, string>, m: Member,
                                        text: string)
    requires Filed(c, i, d, files) && m != SumsMember && ContentOf(c, i, d, m) == Some(text)
    ensures PathOf(m) in files && files[PathOf(m)] == text && FileMatches(c, files, m, c.world.hash(text))
  {
    hide PathOf, ContentOf;
    assert TextAt(files, m) == Some(text);
  }

  /** The parts of a passing build, by the checks of the verifier they answer. */
  lemma {:induction false} Passed(c: Codec, i: BuildInputs, d: BuildDocs)
    requires BuildChecks(c, i, d)
    ensures HexOf(i.sourceSha, 40) && ManifestOk(c, d.manifest, i.tag) && d.manifest.sourceSha == i.sourceSha
    ensures d.matrix.schema == MATRIX_SCHEMA
    ensures GateReportOk(d.gate, i.sourceSha, c.world.hash(i.matrix), c.world.hash(i.policy))
    ensures d.gate.planSha == c.world.hash(i.plan) && BindingsOk(i.tag, d.matrix, d.gate, Some(d.plan))
    ensures DocsOk(d.docs, i.sourceSha) && Inspected(c, d.gate, TextsOf(i))
    ensures ReportsOk(c, i, d)
    ensures RetainedOk(c, i.retained, d.gate.retained.checkoutRevision)
    ensures MANIFEST in i.retained && c.world.hash(i.retained[MANIFEST]) == d.gate.retained.sha256
    ensures Complete(c, d.matrix, d.gate, d.docs, SanitizedReports(d.reports)) && AllDecided(d.matrix, d.gate)
  {
    hide HexOf, ManifestOk, GateReportOk, BindingsOk, DocsOk, Inspected, ReportsOk, RetainedOk, Complete, AllDecided;
    hide SanitizedReports, TextsOf, ArchivesPresent, NameFits;
  }

  lemma {:induction false} ContentsAcceptedIff(c: Codec, i: BuildInputs, d: BuildDocs, files: map<string, string>,
                                               expected: seq<string>)
    requires Filed(c, i, d, files) && d.matrix.schema == MATRIX_SCHEMA && d.gate.planSha == c.world.hash(i.plan)
    requires GateReportOk(d.gate, i.sourceSha, c.world.hash(i.matrix), c.world.hash(i.policy))
    requires BindingsOk(i.tag, d.matrix, d.gate, Some(d.plan))
    ensures ContentsOk(c, files, OpenedOf(c, i, d), expected) <==> d.gate.requiredTargets == TARGETS
  {
    hide PathOf, RecordOf, FileMatches, GateReportOk, BindingsOk, Filed, ReportText, ClaimsOf;
    FiledMatches(c, i, d, files, MatrixMember, i.matrix);
    FiledMatches(c, i, d, files, PolicyMember, i.policy);
    FiledMatches(c, i, d, files, GateMember, i.gate);
    FiledMatches(c, i, d, files, ScopeMember, i.plan);
    RecordFields(c, i, d);
  }

  lemma {:induction false} EvidenceAcceptedIff(c: Codec, i: BuildInputs, d: BuildDocs, files: map<string, string>)
    requires Filed(c, i, d, files) && DocsOk(d.docs, i.sourceSha) && Inspected(c, d.gate, TextsOf(i))
    requires MleEvidence in TextsOf(i)
    ensures EvidenceOk(c, files, OpenedOf(c, i, d)) <==> ReplayOk(c, d.gate, d.docs, i.plan)
  {
    hide PathOf, RecordOf, FileMatches, Filed, DocsOk, Inspected, ReportText, ClaimsOf, TextsOf, TextsIn, Recorded;
    hide ReplayOk;
    TextsAgree(c, i, d, files);
    FiledMatches(c, i, d, files, ScopeMember, i.plan);
    EvidenceRecorded(c, i, d);
    RecordFields(c, i, d);
    RecordedEvidence(c, i, d);
  }

  lemma {:induction false} EvidenceComplete(c: Codec, i: BuildInputs, d: BuildDocs)
    requires ReadBuild(c, i) == Some(d)
    ensures MleEvidence in TextsOf(i) && ReadDocs(c, TextsOf(i)) == Some(d.docs)
  {
    hide TextsOf, RawReports;
  }

  lemma {:induction false} EvidenceRecorded(c: Codec, i: BuildInputs, d: BuildDocs)
    ensures Recorded(c, RecordOf(c, i, d), TextsOf(i))
  {
    hide PathOf, FileOf, ClaimsOf, SupportedNames, PlatformOf, RetainedShas;
  }

  lemma {:induction false} RawBundledIff(c: Codec, i: BuildInputs, d: BuildDocs, files: map<string, string>,
                                         k: RetainedCase)
    requires Faithful(c) && Filed(c, i, d, files) && k.raw in i.retained && !ClimbsUp(k.raw)
    ensures RawBundled(c, files, k) <==> (k.raw != "" ==> k.rawSha == Some(c.world.hash(i.retained[k.raw])))
  {
    hide PathOf, ClimbsUp, RecordOf, ReportText;
    FiledMatches(c, i, d, files, RetainedMember(k.raw), i.retained[k.raw]);
  }

  lemma {:induction false} RetainedListed(c: Codec, i: BuildInputs, d: BuildDocs, files: map<string, string>)
    requires Filed(c, i, d, files)
    ensures forall path :: path in RetainedShas(c, i.retained) ==>
      DigestMatches(c, files, path, RetainedShas(c, i.retained)[path])
  {
    hide PathOf, RecordOf, ReportText, Filed;
    forall path | path in RetainedShas(c, i.retained)
      ensures DigestMatches(c, files, path, RetainedShas(c, i.retained)[path])
    {
      var file :| file in i.retained && PathOf(RetainedMember(file)) == path;
      FiledMatches(c, i, d, files, RetainedMember(file), i.retained[file]);
      RetainedPathsDiffer();
    }
  }

  lemma {:induction false} RawsAcceptedIff(c: Codec, i: BuildInputs, d: BuildDocs, files: map<string, string>)
    requires Faithful(c) && Filed(c, i, d, files)
    requires forall k :: k in d.retained.cases && k.raw != "" ==> k.raw in i.retained && !ClimbsUp(k.raw)
    ensures (forall k :: k in d.retained.cases ==> RawBundled(c, files, k)) <==>
      RawPinned(c, i.retained, d.retained.cases)
  {
    hide PathOf, ClimbsUp, RecordOf, Filed, Faithful, RawBundled;
    forall k | k in d.retained.cases
      ensures RawBundled(c, files, k) <==> (k.raw != "" ==> k.rawSha == Some(c.world.hash(i.retained[k.raw])))
    {
      if k.raw == "" {
        NoRawIsFine(c, files, k);
      } else {
        RawBundledIff(c, i, d, files, k);
      }
    }
  }

  lemma {:induction false} NoRawIsFine(c: Codec, files: map<string, string>, k: RetainedCase)
    requires k.raw == ""
    ensures RawBundled(c, files, k)
  {
  }

  lemma {:induction false} RawsArePresent(c: Codec, i: BuildInputs, d: BuildDocs)
    requires RetainedOk(c, i.retained, d.gate.retained.checkoutRevision)
    requires c.retainedOf(i.retained[MANIFEST]) == Some(d.retained)
    ensures forall k :: k in d.retained.cases && k.raw != "" ==> k.raw in i.retained && !ClimbsUp(k.raw)
    ensures d.retained.schema == RETAINED_SCHEMA && d.retained.status == "pass"
    ensures d.retained.checkoutRevision == d.gate.retained.checkoutRevision
  {
    hide ClimbsUp, RecordedSha;
  }

  lemma {:induction false} RetainedAcceptedIff(c: Codec, i: BuildInputs, d: BuildDocs, files: map<string, string>)
    requires Faithful(c) && Filed(c, i, d, files) && RetainedOk(c, i.retained, d.gate.retained.checkoutRevision)
    requires c.retainedOf(i.retained[MANIFEST]) == Some(d.retained)
    requires c.world.hash(i.retained[MANIFEST]) == d.gate.retained.sha256
    ensures RetainedBundled(c, files, OpenedOf(c, i, d)) <==> RawPinned(c, i.retained, d.retained.cases)
  {
    hide PathOf, RecordOf, FileMatches, Filed, RetainedOk, ReportText, ClaimsOf, RawBundled, Faithful;
    hide RetainedShas, ClimbsUp, RawPinned;
    assert MANIFEST in i.retained by { RetainedHasManifest(c, i, d); }
    FiledMatches(c, i, d, files, RetainedMember(MANIFEST), i.retained[MANIFEST]);
    RetainedListed(c, i, d, files);
    RawsArePresent(c, i, d);
    RawsAcceptedIff(c, i, d, files);
    RecordFields(c, i, d);
  }

  lemma {:induction false} RetainedHasManifest(c: Codec, i: BuildInputs, d: BuildDocs)
    requires RetainedOk(c, i.retained, d.gate.retained.checkoutRevision)
    ensures MANIFEST in i.retained
  {
  }

  lemma {:induction false} RetainedIsRead(c: Codec, i: BuildInputs, d: BuildDocs)
    requires ReadBuild(c, i) == Some(d)
    ensures MANIFEST in i.retained && c.retainedOf(i.retained[MANIFEST]) == Some(d.retained)
  {
    hide TextsOf, RawReports, ReadDocs;
  }

  // ---------------------------------------------------------- the platforms

  /** The report of a target names the one archive of that target. */
  lemma {:induction false} ReportNamesItsArchive(c: Codec, m: ReleaseManifest, tag: string, path: string,
                                                 target: string)
    requires ManifestOk(c, m, tag) && BaseName(path) in m.archives && m.archives[BaseName(path)].target == target
    ensures path != "" && BaseName(path) == ArchiveName(tag, target)
    ensures m.archives[BaseName(path)].filename == BaseName(path)
  {
    hide HexOf;
    assert IdentityOk(tag, BaseName(path), m.archives[BaseName(path)]);
    assert |ArchiveName(tag, target)| > 0;
    assert BaseName("") == "";
  }

  lemma {:induction false} SanitizedFields(r: Installed)
    ensures var s := Sanitized(r);
      && s.schema == r.schema && s.target == r.target && s.sourceRevision == r.sourceRevision && s.status == r.status
      && s.ilp == r.ilp && s.matrix.sha256 == r.matrix.sha256 && s.archive.sha256 == r.archive.sha256
      && (r.archive.path != "" ==> s.archive.filename == BaseName(r.archive.path))
      && Portable(s) == Portable(r)
  {
    SanitizedIsPortable(r);
  }

  lemma {:induction false} ReportIsFiled(c: Codec, i: BuildInputs, d: BuildDocs, files: map<string, string>,
                                         target: string)
    requires Faithful(c) && Filed(c, i, d, files) && target in TARGETS && target in d.reports
    ensures var p := PlatformOf(c, i, d, target);
      && ReportAt(c, files, p) == Some(Sanitized(d.reports[target])) && p.target == target
      && p.report in files && c.world.hash(files[p.report]) == p.reportSha
      && p.archive == ArchiveOf(i, d, target)
  {
    hide PathOf, RecordOf, Filed, Sanitized, ArchiveOf;
    FiledMatches(c, i, d, files, ReportMember(target), ReportText(c, d, target));
  }

  lemma {:induction false} PlatformAccepted(c: Codec, i: BuildInputs, d: BuildDocs, files: map<string, string>,
                                            release: map<string, string>, target: string)
    requires Faithful(c) && Filed(c, i, d, files) && Beside(c, i, d.manifest, release)
    requires ManifestOk(c, d.manifest, i.tag) && target in TARGETS && ReportFits(c, i, d, target)
    ensures PlatformOk(c, files, release, OpenedOf(c, i, d), PlatformOf(c, i, d, target))
  {
    hide PathOf, RecordOf, FileMatches, Filed, ManifestOk, ReportText, ClaimsOf, Faithful, Parse, ReportAt;
    hide Sanitized, Portable, BaseName, ArchiveName, PlatformOf, InstalledFile;
    var r := d.reports[target];
    ReportNamesItsArchive(c, d.manifest, i.tag, r.archive.path, target);
    SanitizedFields(r);
    ReportIsFiled(c, i, d, files, target);
    FiledMatches(c, i, d, files, MatrixMember, i.matrix);
    RecordFields(c, i, d);
  }

  lemma {:induction false} ReportsAgree(c: Codec, i: BuildInputs, d: BuildDocs, files: map<string, string>,
                                        platforms: seq<Platform>, n: nat)
    requires Faithful(c) && Filed(c, i, d, files) && n == |platforms| <= |TARGETS|
    requires forall k :: 0 <= k < n ==> platforms[k] == PlatformOf(c, i, d, TARGETS[k]) && TARGETS[k] in d.reports
    ensures ReportsIn(c, files, platforms) == map t | t in TARGETS[..n] && t in d.reports :: Sanitized(d.reports[t])
    decreases n
  {
    hide PathOf, RecordOf, Filed, Sanitized, ReportAt, PlatformOf, Faithful;
    if n > 0 {
      ReportsAgree(c, i, d, files, platforms[..n - 1], n - 1);
      ReportIsFiled(c, i, d, files, TARGETS[n - 1]);
      assert TARGETS[..n] == TARGETS[..n - 1] + [TARGETS[n - 1]];
    }
  }

  lemma {:induction false} PlatformAt(c: Codec, i: BuildInputs, d: BuildDocs, k: nat)
    requires k < |TARGETS|
    ensures |RecordOf(c, i, d).platforms| == |TARGETS|
    ensures RecordOf(c, i, d).platforms[k] == PlatformOf(c, i, d, TARGETS[k])
    ensures RecordOf(c, i, d).platforms[k].target == TARGETS[k]
  {
    hide RecordOf, PlatformOf;
    RecordFields(c, i, d);
    PlatformTarget(c, i, d, TARGETS[k]);
  }

  lemma {:induction false} TargetsAgree(c: Codec, i: BuildInputs, d: BuildDocs)
    ensures |RecordOf(c, i, d).platforms| == |TARGETS| && TargetsOf(RecordOf(c, i, d).platforms) == TARGETS
  {
    hide RecordOf;
    PlatformAt(c, i, d, 0);
    forall k | 0 <= k < |TARGETS| ensures RecordOf(c, i, d).platforms[k].target == TARGETS[k] {
      PlatformAt(c, i, d, k);
    }
  }

  lemma {:induction false} PlatformsAccepted(c: Codec, i: BuildInputs, d: BuildDocs, files: map<string, string>,
                                             release: map<string, string>)
    requires Faithful(c) && Filed(c, i, d, files) && Beside(c, i, d.manifest, release)
    requires ManifestOk(c, d.manifest, i.tag) && ReportsOk(c, i, d)
    ensures PlatformsOk(c, files, release, OpenedOf(c, i, d))
  {
    hide RecordOf, Filed, Faithful, PlatformOk, Beside, TargetsOf, ManifestOk, ReportFits;
    TargetsAgree(c, i, d);
    var platforms := RecordOf(c, i, d).platforms;
    forall k | 0 <= k < |platforms| ensures PlatformOk(c, files, release, OpenedOf(c, i, d), platforms[k]) {
      assert TARGETS[k] in TARGETS;
      PlatformAt(c, i, d, k);
      PlatformAccepted(c, i, d, files, release, TARGETS[k]);
    }
  }

  lemma {:induction false} PlatformReportsAgree(c: Codec, i: BuildInputs, d: BuildDocs, files: map<string, string>)
    requires Faithful(c) && Filed(c, i, d, files) && d.reports.Keys == set t | t in TARGETS
    ensures ReportsIn(c, files, RecordOf(c, i, d).platforms) == SanitizedReports(d.reports)
  {
    hide RecordOf, Filed, Faithful, PlatformOf, Sanitized;
    TargetsAgree(c, i, d);
    forall k | 0 <= k < |TARGETS|
      ensures RecordOf(c, i, d).platforms[k] == PlatformOf(c, i, d, TARGETS[k]) && TARGETS[k] in d.reports
    {
      assert TARGETS[k] in TARGETS;
      PlatformAt(c, i, d, k);
    }
    ReportsAgree(c, i, d, files, RecordOf(c, i, d).platforms, |TARGETS|);
    assert TARGETS[..|TARGETS|] == TARGETS;
  }

  lemma {:induction false} PlatformTarget(c: Codec, i: BuildInputs, d: BuildDocs, target: string)
    ensures PlatformOf(c, i, d, target).target == target
  {
    hide PathOf, ReportText, ArchiveOf;
  }

  lemma {:induction false} ReportsAreForTargets(c: Codec, i: BuildInputs, d: BuildDocs)
    requires ReadBuild(c, i) == Some(d)
    ensures d.reports.Keys == set t | t in TARGETS
  {
    hide TextsOf, ReadDocs;
  }

  // --------------------------------------------------------------- agreement

  /** The same of the unpacked bundle: it is accepted exactly when what only the verifier checks holds. */
  lemma {:induction false} BuiltBundleIsAcceptedIff(c: Codec, i: BuildInputs, d: BuildDocs, files: map<string, string>,
                                                    release: map<string, string>, expected: seq<string>)
    requires Faithful(c) && ReadBuild(c, i) == Some(d) && BuildChecks(c, i, d) && IsBundle(c, i, d, files)
    requires Beside(c, i, d.manifest, release)
    requires AllSupported(RecordOf(c, i, d).decoders, expected)
    ensures VerifyAccepts(c, files, release, AssetOf(i.tag), expected) <==> VerifierOnly(c, i, d)
  {
    hide Faithful, ReadBuild, BuildChecks, Beside, RecordOf, ContentOf, PathOf, AreMembers, IsListing, ListingOk, Open;
    hide ContentsOk, EvidenceOk, RetainedBundled, PlatformsOk, Complete, AllDecided, AllSupported, ReplayOk;
    hide NamesGood, RetainedNamesFit, RawPinned, Filed, AssetOf, FilesOf, ReleaseOk, ClaimsOf, SupportedNames;
    hide ReportsIn, ManifestOk;
    hide DocsOk, Inspected, ReportsOk, RetainedOk, BindingsOk, GateReportOk, SanitizedReports, HexOf, ReadDocs;
    hide TextsOf, Parse;
    var members, text :| AreMembers(c, i, d, members) && IsListing(c, text, FilesOf(members))
      && files == FilesOf(members)[PathOf(SumsMember) := text];
    Passed(c, i, d);
    EvidenceComplete(c, i, d);
    RetainedIsRead(c, i, d);
    ReportsAreForTargets(c, i, d);
    MembersAreFiled(c, i, d, members, text);
    BundleOpens(c, i, d, files, release);
    ListingAcceptedIff(c, i, d, members, text);
    ContentsAcceptedIff(c, i, d, files, expected);
    EvidenceAcceptedIff(c, i, d, files);
    RetainedAcceptedIff(c, i, d, files);
    PlatformsAccepted(c, i, d, files, release);
    PlatformReportsAgree(c, i, d, files);
    ReleaseAcceptedToo(c, i, d, release);
    NamesGoodIff(c, i, d);
    RecordFields(c, i, d);
  }

  lemma {:induction false} ReleaseAcceptedToo(c: Codec, i: BuildInputs, d: BuildDocs, release: map<string, string>)
    requires ManifestOk(c, d.manifest, i.tag) && d.manifest.sourceSha == i.sourceSha
      && Beside(c, i, d.manifest, release)
    ensures ReleaseOk(c, release, RecordOf(c, i, d), d.manifest)
  {
    hide RecordOf, ManifestOk, ArchivesPresent, ArchiveShas, Parse;
    RecordFields(c, i, d);
  }

  // ------------------------------------------------------ the whole directory

  /** A directory that holds the packed bundle and its checksum file, and no other bundle. */
  predicate Holds(release: map<string, string>, b: Bundle) {
    && b.name in release && release[b.name] == b.archive
    && b.name + ".sha256" in release && release[b.name + ".sha256"] == b.sidecar
    && forall f :: f in release && IsBundleName(f) ==> f == b.name
  }

  lemma {:induction false} AssetIsBundleName(tag: string)
    requires NameFits(tag, false)
    ensures IsBundleName(AssetOf(tag)) && NameFits(AssetOf(tag), false) && AssetOf(tag)[|AssetOf(tag)| - 1] == 'z'
  {
    var name := AssetOf(tag);
    assert name == BUNDLE_PREFIX + (tag + ".tar.gz");
    assert BUNDLE_PREFIX <= name;
    assert name[|name| - 7..] == ".tar.gz";
    forall c | c in name ensures IsNameChar(c) && c != '/' {
      PrefixIsPlain(c);
      assert c in BUNDLE_PREFIX || c in tag || c in ".tar.gz";
    }
    assert name[0] == 'e';
  }

  lemma {:induction false} PrefixIsPlain(c: char)
    ensures c in BUNDLE_PREFIX || c in ".tar.gz" ==> IsNameChar(c) && c != '/'
  {
  }

  lemma {:induction false} StripLine(line: string)
    requires line != "" && !IsSpace(line[0]) && !IsSpace(line[|line| - 1])
    ensures Strip(line + "\n") == line
  {
    var text := line + "\n";
    assert text[0] == line[0] && text[|text| - 1] == '\n' && text[..|text| - 1] == line;
    assert StripLeft(text) == text;
    assert StripRight(text) == StripRight(line) == line;
  }

  lemma {:induction false} NoSpaceAround(digest: string, name: string)
    requires HexOf(digest, 64) && name != "" && name[|name| - 1] == 'z'
    ensures var line := Line(digest, name);
      && line != "" && !IsSpace(line[0]) && !IsSpace(line[|line| - 1])
      && line[..64] == digest && line[64..66] == "  " && line[66..] == name
  {
    var line := Line(digest, name);
    assert line[0] == digest[0] && digest[0] in digest && IsHex(line[0]);
    assert line[|line| - 1] == name[|name| - 1];
  }

  /** The checksum file that the build writes is the one the verifier asks for. */
  lemma {:induction false} SidecarAccepted(c: Codec, release: map<string, string>, b: Bundle, tag: string)
    requires Faithful(c) && NameFits(tag, false) && b.name == AssetOf(tag) && IsPacked(c, b) && Holds(release, b)
    ensures BundlesIn(release) == {b.name} && SidecarOk(c, release, b.name)
  {
    var digest := c.world.hash(b.archive);
    assert HexOf(digest, 64);
    AssetIsBundleName(tag);
    hide Faithful, NameFits, HexOf, IsBundleName, Strip, AssetOf, Line;
    NoSpaceAround(digest, b.name);
    StripLine(Line(digest, b.name));
  }

  lemma {:induction false} Unpacks(c: Codec, release: map<string, string>, b: Bundle)
    requires Faithful(c) && IsPacked(c, b) && Holds(release, b)
    ensures b.name in release && c.unpack(release[b.name], b.name) == Some(b.files)
  {
    hide HexOf, Line, IsBundleName;
  }

  lemma {:induction false} TagFits(c: Codec, i: BuildInputs, d: BuildDocs)
    requires BuildChecks(c, i, d)
    ensures NameFits(i.tag, false)
  {
    hide HexOf, ManifestOk, GateReportOk, BindingsOk, DocsOk, Inspected, ReportsOk, RetainedOk, Complete, AllDecided;
    hide SanitizedReports, TextsOf, ArchivesPresent, NameFits;
  }

  /** A bundle that was built, in the directory of its release. */
  ghost predicate Released(c: Codec, i: BuildInputs, d: BuildDocs, b: Bundle, release: map<string, string>) {
    && IsBundle(c, i, d, b.files) && b.name == AssetOf(i.tag) && IsPacked(c, b)
    && Beside(c, i, d.manifest, release) && Holds(release, b)
  }

  /**
   Agreement: in a directory with the manifest, the archives and their listing, with the bundle that was built and its
   checksum file and no other bundle, and for decoders among the supported ones, the verifier accepts exactly when
   what only the verifier checks holds of the inputs of the build.
  */
  lemma {:induction false} PublishedBundleIsAcceptedIff(c: Codec, i: BuildInputs, d: BuildDocs, b: Bundle,
                                                        release: map<string, string>, expected: seq<string>)
    requires Faithful(c) && ReadBuild(c, i) == Some(d) && BuildChecks(c, i, d)
    requires Released(c, i, d, b, release)
    requires AllSupported(RecordOf(c, i, d).decoders, expected)
    ensures DirectoryAccepts(c, release, b.name, expected) <==> VerifierOnly(c, i, d)
  {
    hide ReadBuild, BuildChecks, IsBundle, Beside, AllSupported, RecordOf, VerifierOnly, VerifyAccepts, SidecarOk;
    hide Faithful, Holds, IsPacked, NameFits, AssetOf, BundlesIn;
    BuiltBundleIsAcceptedIff(c, i, d, b.files, release, expected);
    TagFits(c, i, d);
    SidecarAccepted(c, release, b, i.tag);
    Unpacks(c, release, b);
  }
}
