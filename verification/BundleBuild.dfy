/** `build_bundle` and what it calls. */
module BundleBuild {
  import opened Prelude
  import opened Text
  import opened SupportMatrix
  import opened Evidence
  import opened GateDecision
  import opened Checksums
  import opened Sorting
  import opened Publication

  function RetainedMembers(retained: map<string, string>): map<Member, string> {
    map file | file in retained :: RetainedMember(file) := retained[file]
  }

  method CollectRetainedResources(c: Codec, retained: map<string, string>, revision: string)
      returns (r: Result<map<Member, string>, Refusal>)
    ensures r.Ok? <==> RetainedOk(c, retained, revision)
    ensures r.Ok? ==> r.value == RetainedMembers(retained)
  {
    hide ClimbsUp, RawOk;
    if MANIFEST !in retained || c.retainedOf(retained[MANIFEST]).None? {
      return Err(BadRetained);
    }
    var m := c.retainedOf(retained[MANIFEST]).value;
    if m.schema != RETAINED_SCHEMA || m.status != "pass" || m.checkoutRevision != revision {
      return Err(BadRetained);
    }
    var payloads := CollectFiles(retained);
    if payloads.Err? {
      return payloads;
    }
    for k := 0 to |m.cases|
      invariant forall j :: 0 <= j < k && m.cases[j].raw != "" ==> RawOk(c, retained, m.cases, m.cases[j].raw)
    {
      assert m.cases[k] in m.cases;
      if m.cases[k].raw != "" && !RawOk(c, retained, m.cases, m.cases[k].raw) {
        return Err(BadRetained);
      }
    }
    r := payloads;
  }

  method CollectFiles(retained: map<string, string>) returns (r: Result<map<Member, string>, Refusal>)
    ensures r.Ok? <==> forall file :: file in retained ==> !ClimbsUp(file)
    ensures r.Ok? ==> r.value == RetainedMembers(retained)
  {
    hide ClimbsUp;
    var payloads: map<Member, string> := map[];
    var left := retained.Keys;
    while left != {}
      invariant left <= retained.Keys
      invariant forall file :: file in retained && file !in left ==> !ClimbsUp(file)
      invariant payloads == map file | file in retained && file !in left :: RetainedMember(file) := retained[file]
      decreases |left|
    {
      var file :| file in left;
      if ClimbsUp(file) {
        return Err(BadRetained);
      }
      payloads := payloads[RetainedMember(file) := retained[file]];
      left := left - {file};
    }
    r := Ok(payloads);
  }

  predicate EvidenceAccepted(c: Codec, i: BuildInputs, g: GateReport) {
    var docs := ReadDocs(c, TextsOf(i));
    docs.Some? && docs.value.mle.Some? && DocsOk(docs.value, i.sourceSha) && Inspected(c, g, TextsOf(i))
  }

  /** Each generated document is the one the gate inspected, and becomes a member. */
  method CheckGeneratedEvidenceFiles(c: Codec, i: BuildInputs, g: GateReport)
      returns (r: Result<map<Member, string>, Refusal>)
    ensures r.Ok? <==> EvidenceAccepted(c, i, g)
    ensures r.Ok? ==> r.value == EvidenceMembers(i)
  {
    hide DocsOk, ReadDocs, FileOf, Inspected, TextsOf, EvidenceMembers;
    TextNames(i);
    var texts := TextsOf(i);
    var docs := ReadDocs(c, texts);
    if docs.None? || docs.value.mle.None? || !DocsOk(docs.value, i.sourceSha) {
      return Err(BadEvidence);
    }
    r := InspectTexts(c, g, texts, NAMES);
    EvidenceMembersAre(i);
  }

  method InspectTexts(c: Codec, g: GateReport, texts: map<EvidenceName, string>, names: seq<EvidenceName>)
      returns (r: Result<map<Member, string>, Refusal>)
    requires forall name :: name in texts ==> name in names
    ensures r.Ok? <==> Inspected(c, g, texts)
    ensures r.Ok? ==> r.value == map name | name in texts :: EvidenceMember(name) := texts[name]
  {
    hide InspectedAs;
    var payloads: map<Member, string> := map[];
    for k := 0 to |names|
      invariant forall j :: 0 <= j < k && names[j] in texts ==> InspectedAs(c, g, names[j], texts[names[j]])
      invariant payloads == map name | name in texts && name in names[..k] :: EvidenceMember(name) := texts[name]
    {
      var name := names[k];
      assert names[..k + 1] == names[..k] + [name];
      if name in texts {
        if !InspectedAs(c, g, name, texts[name]) {
          return Err(BadEvidence);
        }
        payloads := payloads[EvidenceMember(name) := texts[name]];
      }
    }
    assert names[..|names|] == names;
    r := Ok(payloads);
  }

  lemma {:induction false} EvidenceMembersAre(i: BuildInputs)
    ensures EvidenceMembers(i) == map name | name in TextsOf(i) :: EvidenceMember(name) := TextsOf(i)[name]
  {
    TextNames(i);
    hide TextsOf;
  }

  lemma {:induction false} TextNames(i: BuildInputs)
    ensures forall name :: name in TextsOf(i) ==> name in NAMES
  {
  }

  function EvidenceMembers(i: BuildInputs): map<Member, string> {
    map name | name in NAMES && name in TextsOf(i) :: EvidenceMember(name) := TextsOf(i)[name]
  }

  /** The report of one target, without machine-local paths. */
  method LoadInstalledReport(c: Codec, i: BuildInputs, m: ReleaseManifest, g: GateReport, target: string)
      returns (r: Result<Installed, Refusal>)
    ensures r.Ok? <==> ReportAccepted(c, i, m, g, target)
    ensures r.Ok? ==> r.value == c.world.installedOf(i.evidence[InstalledFile(target)]).value
  {
    if InstalledFile(target) !in i.evidence {
      return Err(BadReport);
    }
    var text := i.evidence[InstalledFile(target)];
    var report := c.world.installedOf(text);
    if report.None? || !ReportOk(c, g, m.archives, report.value, text, target, i.sourceSha, c.world.hash(i.matrix)) {
      return Err(BadReport);
    }
    r := Ok(report.value);
  }

  predicate ReportAccepted(c: Codec, i: BuildInputs, m: ReleaseManifest, g: GateReport, target: string) {
    && InstalledFile(target) in i.evidence
    && var text := i.evidence[InstalledFile(target)];
      && c.world.installedOf(text).Some?
      && ReportOk(c, g, m.archives, c.world.installedOf(text).value, text, target, i.sourceSha, c.world.hash(i.matrix))
  }

  predicate ReadAs(c: Codec, i: BuildInputs, m: ReleaseManifest, g: GateReport, target: string, report: Installed) {
    ReportAccepted(c, i, m, g, target) && report == c.world.installedOf(i.evidence[InstalledFile(target)]).value
  }

  method LoadInstalledReports(c: Codec, i: BuildInputs, m: ReleaseManifest, g: GateReport)
      returns (r: Result<map<string, Installed>, Refusal>)
    ensures r.Ok? <==> forall t :: t in TARGETS ==> ReportAccepted(c, i, m, g, t)
    ensures r.Ok? ==> r.value == RawReports(c, i) && r.value.Keys == (set t | t in TARGETS)
  {
    hide ReportOk, InstalledFile;
    var reports: map<string, Installed> := map[];
    for k := 0 to |TARGETS|
      invariant forall j :: 0 <= j < k ==> ReportAccepted(c, i, m, g, TARGETS[j])
      invariant reports.Keys == set t | t in TARGETS[..k]
      invariant forall t :: t in TARGETS[..k] ==> ReadAs(c, i, m, g, t, reports[t])
    {
      var target := TARGETS[k];
      assert TARGETS[..k + 1] == TARGETS[..k] + [target];
      assert target in TARGETS;
      var report := LoadInstalledReport(c, i, m, g, target);
      if report.Err? {
        return Err(report.error);
      }
      reports := reports[target := report.value];
    }
    assert TARGETS[..|TARGETS|] == TARGETS;
    r := Ok(reports);
  }

  /** The items of a finite map, sorted by name. */
  method SortedItems(files: map<string, string>) returns (items: seq<Named<string>>)
    ensures DistinctNames(items) && Sorted(items, (e: Named<string>) => e.name) && AsMap(items) == files
  {
    var pending: seq<Named<string>> := [];
    var left := files.Keys;
    while left != {}
      invariant left <= files.Keys && DistinctNames(pending)
      invariant forall e :: e in pending <==> e.name in files && e.name !in left && e.value == files[e.name]
      decreases |left|
    {
      var name :| name in left;
      assert forall k :: 0 <= k < |pending| ==> pending[k] in pending;
      pending := pending + [Named(name, files[name])];
      left := left - {name};
    }
    items := SortBy(pending, (e: Named<string>) => e.name);
    SortSorts(pending, (e: Named<string>) => e.name);
    SortMembers(pending, (e: Named<string>) => e.name);
    SortKeepsDistinct(pending);
    MapOfItems(items, files);
  }

  lemma {:induction false} SortKeepsDistinct(items: seq<Named<string>>)
    requires DistinctNames(items)
    ensures DistinctNames(SortBy(items, (e: Named<string>) => e.name))
  {
    var key := (e: Named<string>) => e.name;
    var sorted := SortBy(items, key);
    SortByPermutes(items, key);
    SortMembers(items, key);
    forall a, b | 0 <= a < b < |sorted| ensures sorted[a].name != sorted[b].name {
      TwoOfOneName(sorted, a, b);
      assert sorted[a] in items && sorted[b] in items;
      SameEntry(items, sorted[a], sorted[b]);
      OnceOnly(items, sorted[a]);
    }
  }

  lemma {:induction false} SameEntry(items: seq<Named<string>>, x: Named<string>, y: Named<string>)
    requires DistinctNames(items) && x in items && y in items
    ensures x.name == y.name ==> x == y
  {
  }

  lemma {:induction false} TwoOfOneName(s: seq<Named<string>>, a: nat, b: nat)
    requires a < b < |s|
    ensures s[a] == s[b] ==> multiset(s)[s[a]] >= 2
  {
    assert s == s[..b] + [s[b]] + s[b + 1..];
    assert s[a] in s[..b];
  }

  lemma {:induction false} OnceOnly(items: seq<Named<string>>, x: Named<string>)
    requires DistinctNames(items)
    ensures multiset(items)[x] <= 1
  {
    if items != [] {
      var front, last := items[..|items| - 1], items[|items| - 1];
      assert items == front + [last];
      OnceOnly(front, x);
      if x == last {
        assert x !in front;
      }
    }
  }

  lemma {:induction false} MapOfItems(items: seq<Named<string>>, files: map<string, string>)
    requires DistinctNames(items)
    requires forall e :: e in items <==> e.name in files && e.value == files[e.name]
    ensures AsMap(items) == files
  {
    AsMapLookup(items);
    AsMapKeys(items);
    forall k ensures k in AsMap(items) <==> k in files {
      if k in files {
        assert Named(k, files[k]) in items;
      }
    }
    forall k | k in files ensures AsMap(items)[k] == files[k] {
      assert Named(k, files[k]) in items;
    }
  }

  lemma {:induction false} AsMapLookup<T>(items: seq<Named<T>>)
    requires DistinctNames(items)
    ensures forall e :: e in items ==> e.name in AsMap(items) && AsMap(items)[e.name] == e.value
  {
    if items != [] {
      var front, last := items[..|items| - 1], items[|items| - 1];
      AsMapLookup(front);
      assert forall e :: e in items ==> e in front || e == last;
      forall e | e in front ensures e.name != last.name {
        var k :| 0 <= k < |front| && front[k] == e;
        assert items[k] == e;
      }
    }
  }

  // --------------------------------------------------------------- assembly

  /** The packed bundle, the checksum file beside it, and the record inside it. */
  datatype Bundle = Bundle(name: string, files: map<string, string>, archive: string, sidecar: string,
                           record: PublicationRecord)

  /** The archive and its checksum file are made of the files. */
  predicate IsPacked(c: Codec, b: Bundle) {
    b.archive == c.pack(b.name, b.files) && b.sidecar == Line(c.world.hash(b.archive), b.name) + "\n"
  }

  /** The inputs can be read and pass every check of the build. */
  predicate BuildAccepts(c: Codec, i: BuildInputs) {
    ReadBuild(c, i).Some? && BuildChecks(c, i, ReadBuild(c, i).value)
  }

  predicate ReleaseAccepted(c: Codec, i: BuildInputs) {
    && NameFits(i.tag, false) && HexOf(i.sourceSha, 40)
    && c.manifestOf(i.manifest).Some?
    && var m := c.manifestOf(i.manifest).value;
      ManifestOk(c, m, i.tag) && m.sourceSha == i.sourceSha && ArchivesPresent(c, i.archives, m.archives)
  }

  predicate GateAccepted(c: Codec, i: BuildInputs) {
    && c.world.matrixOf(i.matrix).Some? && c.world.matrixOf(i.matrix).value.schema == MATRIX_SCHEMA
    && c.gateOf(i.gate).Some? && c.world.planOf(i.plan).Some?
    && var g := c.gateOf(i.gate).value;
      && GateReportOk(g, i.sourceSha, c.world.hash(i.matrix), c.world.hash(i.policy))
      && g.planSha == c.world.hash(i.plan)
      && BindingsOk(i.tag, c.world.matrixOf(i.matrix).value, g, c.world.planOf(i.plan))
  }

  predicate RetainedAccepted(c: Codec, i: BuildInputs, g: GateReport) {
    && RetainedOk(c, i.retained, g.retained.checkoutRevision)
    && MANIFEST in i.retained && c.world.hash(i.retained[MANIFEST]) == g.retained.sha256
  }

  predicate AllReportsAccepted(c: Codec, i: BuildInputs, m: ReleaseManifest, g: GateReport) {
    forall t :: t in TARGETS ==> ReportAccepted(c, i, m, g, t)
  }

  /** The checks of the build, in the order in which they are made. */
  predicate StepsAccept(c: Codec, i: BuildInputs) {
    && ReleaseAccepted(c, i) && GateAccepted(c, i)
    && var m, g := c.manifestOf(i.manifest).value, c.gateOf(i.gate).value;
      && EvidenceAccepted(c, i, g) && AllReportsAccepted(c, i, m, g) && RetainedAccepted(c, i, g)
      && Complete(c, c.world.matrixOf(i.matrix).value, g, ReadDocs(c, TextsOf(i)).value,
                  SanitizedReports(RawReports(c, i)))
      && AllDecided(c.world.matrixOf(i.matrix).value, g)
  }

  lemma {:induction false} ReportsFitIff(c: Codec, i: BuildInputs, d: BuildDocs)
    requires d.reports == RawReports(c, i)
    ensures ReportsOk(c, i, d) <==> AllReportsAccepted(c, i, d.manifest, d.gate)
    ensures AllReportsAccepted(c, i, d.manifest, d.gate) ==> RawReports(c, i).Keys == set t | t in TARGETS
  {
    hide ReportOk, InstalledFile;
    forall t | t in TARGETS ensures ReportFits(c, i, d, t) <==> ReportAccepted(c, i, d.manifest, d.gate, t) {
    }
  }

  lemma {:induction false} StepsAreTheChecks(c: Codec, i: BuildInputs)
    ensures StepsAccept(c, i) <==> BuildAccepts(c, i)
  {
    hide NameFits, HexOf, ManifestOk, ArchivesPresent, GateReportOk, BindingsOk, DocsOk, Inspected, ReportsOk, Complete;
    hide AllDecided, ReadDocs, TextsOf, RawReports, SanitizedReports, AllReportsAccepted;
    if ReadBuild(c, i).Some? {
      ReportsFitIff(c, i, ReadBuild(c, i).value);
    }
    if StepsAccept(c, i) {
      var d := BuildDocs(c.manifestOf(i.manifest).value, c.world.matrixOf(i.matrix).value, c.gateOf(i.gate).value,
                         c.world.planOf(i.plan).value, ReadDocs(c, TextsOf(i)).value, RawReports(c, i),
                         c.retainedOf(i.retained[MANIFEST]).value);
      ReportsFitIff(c, i, d);
      assert ReadBuild(c, i) == Some(d);
    }
  }

  method CheckRelease(c: Codec, i: BuildInputs) returns (r: Result<ReleaseManifest, Refusal>)
    ensures r.Ok? <==> ReleaseAccepted(c, i)
    ensures r.Ok? ==> c.manifestOf(i.manifest) == Some(r.value)
  {
    hide NameFits, HexOf, ManifestOk;
    if !NameFits(i.tag, false) {
      return Err(BadTag);
    }
    if !HexOf(i.sourceSha, 40) {
      return Err(BadSourceSha);
    }
    var m := c.manifestOf(i.manifest);
    if m.None? || !ManifestOk(c, m.value, i.tag) || m.value.sourceSha != i.sourceSha {
      return Err(BadManifest);
    }
    var archives := m.value.archives;
    var left := archives.Keys;
    while left != {}
      invariant left <= archives.Keys
      invariant forall f :: f in archives && f !in left ==>
        f in i.archives && c.world.hash(i.archives[f]) == archives[f].sha256
      decreases |left|
    {
      var f :| f in left;
      if f !in i.archives || c.world.hash(i.archives[f]) != archives[f].sha256 {
        return Err(BadArchive);
      }
      left := left - {f};
    }
    r := Ok(m.value);
  }

  method CheckGate(c: Codec, i: BuildInputs) returns (r: Result<(Matrix, GateReport, Plan), Refusal>)
    ensures r.Ok? <==> GateAccepted(c, i)
    ensures r.Ok? ==> c.world.matrixOf(i.matrix) == Some(r.value.0)
    ensures r.Ok? ==> c.gateOf(i.gate) == Some(r.value.1) && c.world.planOf(i.plan) == Some(r.value.2)
  {
    hide GateReportOk, BindingsOk;
    var m := c.world.matrixOf(i.matrix);
    if m.None? || m.value.schema != MATRIX_SCHEMA {
      return Err(BadMatrixFile);
    }
    var g := c.gateOf(i.gate);
    if g.None? {
      return Err(BadGateReport);
    }
    var checked := CheckGateReport(g.value, i.sourceSha, c.world.hash(i.matrix), c.world.hash(i.policy));
    if checked.Err? {
      return Err(checked.error);
    }
    var plan := c.world.planOf(i.plan);
    if plan.None? || g.value.planSha != c.world.hash(i.plan) {
      return Err(BadPlan);
    }
    var bound := CheckPublishedSupportBindings(i.tag, m.value, g.value, plan);
    if bound.Err? {
      return Err(bound.error);
    }
    r := Ok((m.value, g.value, plan.value));
  }

  function ReportMembers(c: Codec, d: BuildDocs): map<Member, string> {
    map t | t in TARGETS :: ReportMember(t) := ReportText(c, d, t)
  }

  function FixedMembers(c: Codec, i: BuildInputs, d: BuildDocs): map<Member, string> {
    map[MatrixMember := i.matrix, PolicyMember := i.policy, ScopeMember := i.plan, GateMember := i.gate,
        PublicationMember := c.publicationText(RecordOf(c, i, d)), SummaryMember := c.summaryText(RecordOf(c, i, d))]
  }

  function AllMembers(c: Codec, i: BuildInputs, d: BuildDocs): map<Member, string> {
    EvidenceMembers(i) + ReportMembers(c, d) + RetainedMembers(i.retained) + FixedMembers(c, i, d)
  }

  lemma {:induction false} AllNames(name: EvidenceName)
    ensures name in NAMES
  {
    match name {
      case SupportEvidence => assert NAMES[0] == name;
      case CorrectnessEvidence => assert NAMES[1] == name;
      case ResourcesEvidence => assert NAMES[2] == name;
      case MleEvidence => assert NAMES[3] == name;
    }
  }

  lemma {:induction false} EvidenceAre(i: BuildInputs, m: Member)
    ensures m in EvidenceMembers(i) <==> m.EvidenceMember? && FileOf(m.name) in i.evidence
    ensures m in EvidenceMembers(i) ==> EvidenceMembers(i)[m] == i.evidence[FileOf(m.name)]
  {
    hide FileOf;
    if m.EvidenceMember? {
      AllNames(m.name);
    }
  }

  lemma {:induction false} ReportsAre(c: Codec, d: BuildDocs, m: Member)
    ensures m in ReportMembers(c, d) <==> m.ReportMember? && m.target in TARGETS
    ensures m in ReportMembers(c, d) ==> ReportMembers(c, d)[m] == ReportText(c, d, m.target)
  {
  }

  lemma {:induction false} RetainedAre(retained: map<string, string>, m: Member)
    ensures m in RetainedMembers(retained) <==> m.RetainedMember? && m.relative in retained
    ensures m in RetainedMembers(retained) ==> RetainedMembers(retained)[m] == retained[m.relative]
  {
  }

  lemma {:induction false} FixedAre(c: Codec, i: BuildInputs, d: BuildDocs, m: Member)
    ensures m in FixedMembers(c, i, d) <==>
      !m.SumsMember? && !m.EvidenceMember? && !m.ReportMember? && !m.RetainedMember?
    ensures m in FixedMembers(c, i, d) ==> ContentOf(c, i, d, m) == Some(FixedMembers(c, i, d)[m])
  {
    hide RecordOf;
  }

  lemma {:induction false} MembersAreAll(c: Codec, i: BuildInputs, d: BuildDocs)
    ensures AreMembers(c, i, d, AllMembers(c, i, d))
  {
    hide RecordOf, ReportText, FileOf, EvidenceMembers, ReportMembers, RetainedMembers, FixedMembers;
    var members := AllMembers(c, i, d);
    forall m ensures if m in members then ContentOf(c, i, d, m) == Some(members[m]) else ContentOf(c, i, d, m).None? {
      EvidenceAre(i, m);
      ReportsAre(c, d, m);
      RetainedAre(i.retained, m);
      FixedAre(c, i, d, m);
    }
  }

  /** The bundle: every document a build read, the record, the summary and the listing of all of them. */
  method BuildBundle(c: Codec, i: BuildInputs) returns (r: Result<Bundle, Refusal>)
    ensures r.Ok? <==> BuildAccepts(c, i)
    ensures r.Ok? ==> r.value.name == AssetOf(i.tag) && r.value.record == RecordOf(c, i, ReadBuild(c, i).value)
    ensures r.Ok? ==> IsBundle(c, i, ReadBuild(c, i).value, r.value.files) && IsPacked(c, r.value)
  {
    hide ReleaseAccepted, GateAccepted, EvidenceAccepted, ReportAccepted, RetainedOk, Complete, AllDecided, ReadBuild;
    hide BuildChecks, RecordOf, ContentOf, PathOf, EvidenceMembers, ReportMembers, RetainedMembers, FixedMembers;
    hide SanitizedReports, RawReports, ReadDocs, TextsOf, ClaimsOf, AreMembers, IsListing, Line;
    StepsAreTheChecks(c, i);
    var release := CheckRelease(c, i);
    if release.Err? {
      return Err(release.error);
    }
    var gate := CheckGate(c, i);
    if gate.Err? {
      return Err(gate.error);
    }
    var (m, g, plan) := gate.value;
    var evidence := CheckGeneratedEvidenceFiles(c, i, g);
    if evidence.Err? {
      return Err(evidence.error);
    }
    var reports := LoadInstalledReports(c, i, release.value, g);
    if reports.Err? {
      return Err(reports.error);
    }
    var retained := CollectRetainedResources(c, i.retained, g.retained.checkoutRevision);
    if retained.Err? || MANIFEST !in i.retained || c.world.hash(i.retained[MANIFEST]) != g.retained.sha256 {
      return Err(BadRetained);
    }
    var docs := DocsRead(c, i, g);
    var complete := CheckEvidenceCompleteness(c, m, g, docs, SanitizedReports(reports.value));
    if complete.Err? {
      return Err(complete.error);
    }
    var claims := DeriveDecoders(m, g, Some(plan));
    if claims.Err? {
      return Err(claims.error);
    }
    assert BuildAccepts(c, i);
    var d := ReadBuild(c, i).value;
    r := AssembleBundle(c, i, d, evidence.value, retained.value);
  }

  method DocsRead(c: Codec, i: BuildInputs, g: GateReport) returns (docs: Docs)
    requires EvidenceAccepted(c, i, g)
    ensures ReadDocs(c, TextsOf(i)) == Some(docs)
  {
    docs := ReadDocs(c, TextsOf(i)).value;
  }

  method AssembleBundle(c: Codec, i: BuildInputs, d: BuildDocs, evidence: map<Member, string>,
                        retained: map<Member, string>)
      returns (r: Result<Bundle, Refusal>)
    requires evidence == EvidenceMembers(i) && retained == RetainedMembers(i.retained)
    ensures r.Ok? && r.value.name == AssetOf(i.tag) && r.value.record == RecordOf(c, i, d)
    ensures IsBundle(c, i, d, r.value.files) && IsPacked(c, r.value)
  {
    hide RecordOf, ReportText, EvidenceMembers, RetainedMembers, ContentOf, PathOf, FilesOf, AreMembers;
    var record := RecordOf(c, i, d);
    var payloads := evidence;
    payloads := payloads + ReportMembers(c, d);
    payloads := payloads + retained;
    payloads := payloads + FixedMembers(c, i, d);
    MembersAreAll(c, i, d);
    assert payloads == AllMembers(c, i, d);
    var files := FilesOf(payloads);
    var items := SortedItems(map path | path in files :: c.world.hash(files[path]));
    assert Lists(c, items, files);
    var listing := Emit(items);
    assert IsListing(c, listing, FilesOf(payloads));
    var name := AssetOf(i.tag);
    var whole := files[PathOf(SumsMember) := listing];
    var archive := c.pack(name, whole);
    r := Ok(Bundle(name, whole, archive, Line(c.world.hash(archive), name) + "\n", record));
  }
}
