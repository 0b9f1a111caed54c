/** What a bundle claims of each decoder, told from the matrix, the gate report and the scope plan alone. */
module ClaimLaws {
  import opened Prelude
  import opened Text
  import opened SupportMatrix
  import opened Evidence
  import opened Gate
  import opened GateLaws
  import opened Sorting
  import opened Checksums
  import opened Publication
  import opened BundleVerify
  import opened Agreement
  import opened Determination

  // -------------------------------------------------------------- one claim

  /** The scope is that of the plan, which the claim names, for the MLE decoder where there is a plan. */
  predicate ScopeIs(claim: Claim, m: Matrix, name: string, plan: Option<Plan>) {
    if name == MLE && plan.Some? then claim.scopeStatement == plan.value.noInterpolation && claim.scopePlan
    else claim.scopeStatement == m.statement && !claim.scopePlan
  }

  /** Everything a claim says: what the matrix declares for the decoder, the decision of the gate, the scope. */
  predicate ClaimSays(claim: Claim, m: Matrix, g: GateReport, d: Decoder, plan: Option<Plan>) {
    && claim.objective == d.objective && claim.features == d.features && claim.limits == d.limits
    && claim.limitations == d.limitations && claim.families == m.families
    && Lookup(g.decoders, d.name).Some? && claim.maturity == Lookup(g.decoders, d.name).value.decision
    && ScopeIs(claim, m, d.name, plan)
  }

  lemma {:induction false} ClaimsOfNames(m: Matrix, g: GateReport, plan: Option<Plan>, decoders: seq<Decoder>)
    ensures forall name :: name in ClaimsOf(m, g, plan, decoders) <==> exists d :: d in decoders && d.name == name
  {
    hide ClaimFor;
    if decoders != [] {
      var front, last := decoders[..|decoders| - 1], decoders[|decoders| - 1];
      ClaimsOfNames(m, g, plan, front);
      assert forall d :: d in decoders <==> d in front || d == last;
    }
  }

  lemma {:induction false} ClaimAt(m: Matrix, g: GateReport, plan: Option<Plan>, decoders: seq<Decoder>, k: nat)
    requires k < |decoders| && UniqueDecoders(decoders)
    ensures decoders[k].name in ClaimsOf(m, g, plan, decoders)
    ensures ClaimsOf(m, g, plan, decoders)[decoders[k].name] == ClaimFor(m, g, decoders[k], plan)
  {
    hide ClaimFor;
    if k < |decoders| - 1 {
      ClaimAt(m, g, plan, decoders[..|decoders| - 1], k);
    }
  }

  /** The derived claims: one for every decoder of the matrix, which says what it should. */
  lemma {:induction false} DerivedClaimsSay(m: Matrix, g: GateReport, plan: Option<Plan>)
    requires AllDecided(m, g) && UniqueDecoders(m.decoders)
    ensures var claims := ClaimsOf(m, g, plan, m.decoders);
      && (forall name :: name in claims <==> Declared(m, name))
      && forall d :: d in m.decoders ==> d.name in claims && ClaimSays(claims[d.name], m, g, d, plan)
  {
    hide ClaimsOf, UniqueDecoders;
    ClaimsOfNames(m, g, plan, m.decoders);
    forall d | d in m.decoders
      ensures d.name in ClaimsOf(m, g, plan, m.decoders)
        && ClaimSays(ClaimsOf(m, g, plan, m.decoders)[d.name], m, g, d, plan)
    {
      var k :| 0 <= k < |m.decoders| && m.decoders[k] == d;
      ClaimAt(m, g, plan, m.decoders, k);
      assert HasDecision(g, d);
    }
  }

  /** The statement of the matrix is no part of the MLE claim of a plan, and the plan no part of any other claim. */
  lemma {:induction false} ScopesAreApart(m: Matrix, statement: string, g: GateReport, p: Plan, q: Option<Plan>,
                                          name: string)
    requires UniqueDecoders(m.decoders) && Declared(m, name)
    ensures var other := m.(statement := statement);
      var claims, edited := ClaimsOf(m, g, Some(p), m.decoders), ClaimsOf(other, g, Some(p), m.decoders);
      name in claims && name in edited && (name == MLE ==> claims[name] == edited[name])
    ensures var claims, edited := ClaimsOf(m, g, Some(p), m.decoders), ClaimsOf(m, g, q, m.decoders);
      name in claims && name in edited && (name != MLE ==> claims[name] == edited[name])
  {
    hide ClaimsOf, Lookup;
    var d :| d in m.decoders && d.name == name;
    var k :| 0 <= k < |m.decoders| && m.decoders[k] == d;
    ClaimAt(m, g, Some(p), m.decoders, k);
    ClaimAt(m.(statement := statement), g, Some(p), m.decoders, k);
    ClaimAt(m, g, q, m.decoders, k);
  }

  // -------------------------------------------------------- the supported ones

  lemma {:induction false} SupportedMembers(claims: map<string, Claim>, decoders: seq<Decoder>)
    ensures forall name :: name in Supported(claims, decoders) <==>
      IsSupported(claims, name) && exists d :: d in decoders && d.name == name
  {
    if decoders != [] {
      SupportedMembers(claims, decoders[1..]);
      assert forall d :: d in decoders <==> d == decoders[0] || d in decoders[1..];
    }
  }

  lemma {:induction false} SupportedOnce(claims: map<string, Claim>, decoders: seq<Decoder>)
    requires UniqueDecoders(decoders)
    ensures Distinct(Supported(claims, decoders))
  {
    if decoders != [] {
      var rest := decoders[1..];
      assert forall i :: 0 <= i < |rest| ==> rest[i] == decoders[i + 1];
      SupportedOnce(claims, rest);
      SupportedMembers(claims, rest);
      assert decoders[0].name !in Supported(claims, rest);
    }
  }

  lemma {:induction false} DistinctIffCounted(s: seq<string>)
    ensures Distinct(s) <==> forall x :: multiset(s)[x] <= 1
  {
    if s == [] {
    } else {
      var n := |s| - 1;
      DistinctIffCounted(s[..n]);
      assert s == s[..n] + [s[n]];
      if Distinct(s) {
        assert Distinct(s[..n]) && s[n] !in s[..n];
      }
      if forall x :: multiset(s)[x] <= 1 {
        assert forall x :: multiset(s[..n])[x] <= multiset(s)[x];
        assert multiset(s)[s[n]] == multiset(s[..n])[s[n]] + 1;
        assert s[n] !in s[..n];
      }
    }
  }

  /** The list of supported decoders: exactly those whose claim is supported, each once, in order. */
  lemma {:induction false} SupportedNamesAre(claims: map<string, Claim>, decoders: seq<Decoder>)
    requires UniqueDecoders(decoders)
    ensures var names := SupportedNames(claims, decoders);
      && (forall name :: name in names <==> IsSupported(claims, name) && exists d :: d in decoders && d.name == name)
      && Distinct(names) && forall i, j :: 0 <= i < j < |names| ==> StringLe(names[i], names[j])
  {
    hide SortBy, Supported, UniqueDecoders, StringLe, IsSupported;
    var key := (s: string) => s;
    var plain := Supported(claims, decoders);
    assert SupportedNames(claims, decoders) == SortBy(plain, key);
    SupportedMembers(claims, decoders);
    SupportedOnce(claims, decoders);
    SortMembers(plain, key);
    SortSorts(plain, key);
    SortByPermutes(plain, key);
    DistinctIffCounted(plain);
    DistinctIffCounted(SortBy(plain, key));
  }

  // -------------------------------------------------------- what is published

  /** An accepted bundle says of every decoder what matrix, gate report and plan in it say. */
  lemma {:induction false} AcceptedClaimsSay(c: Codec, a: AcceptedBundle)
    requires IsAccepted(c, a) && UniqueDecoders(a.o.matrix.decoders)
    ensures AllDecided(a.o.matrix, a.o.gate)
    ensures forall name :: name in a.o.record.decoders <==> Declared(a.o.matrix, name)
    ensures forall d :: d in a.o.matrix.decoders ==>
      d.name in a.o.record.decoders
      && ClaimSays(a.o.record.decoders[d.name], a.o.matrix, a.o.gate, d, a.o.plan)
    ensures forall name :: name in a.o.record.supported <==> IsSupported(a.o.record.decoders, name)
    ensures Distinct(a.o.record.supported)
  {
    hide Open, ListingOk, RecordOk, ReleaseOk, ContentsOk, EvidenceOk, RetainedBundled, PlatformsOk, Complete;
    hide AllSupported, ClaimsOf, SupportedNames, UniqueDecoders, ReportsIn, ClaimSays, HasDecision;
    DerivedClaimsSay(a.o.matrix, a.o.gate, a.o.plan);
    SupportedNamesAre(ClaimsIn(a.o), a.o.matrix.decoders);
  }

  /** What the verifier reports of an accepted bundle is what the record in it says. */
  lemma {:induction false} VerifiedIsRecord(c: Codec, a: AcceptedBundle)
    requires IsAccepted(c, a)
    ensures var v, r := VerifiedOf(a.o), a.o.record;
      && v.tag == r.tag && v.version == r.version && v.sourceSha == r.sourceSha && v.platforms == r.platforms
      && v.decoders == r.decoders && v.supported == r.supported
  {
    hide Open, ListingOk, RecordOk, ReleaseOk, ContentsOk, EvidenceOk, RetainedBundled, PlatformsOk, Complete;
    hide AllSupported, ClaimsOf, SupportedNames, AllDecided, ReportsIn;
  }

  /** The checksums of an accepted release: one for the archive of every platform, each that of the file itself. */
  lemma {:induction false} ReleaseListingIsTrue(c: Codec, a: AcceptedBundle)
    requires IsAccepted(c, a)
    ensures "SHA256SUMS" in a.release && Parse(a.release["SHA256SUMS"], false).Ok?
    ensures var sums := Parse(a.release["SHA256SUMS"], false).value;
      && sums.Keys == (set t | t in TARGETS :: ArchiveName(a.o.record.tag, t))
      && forall f :: f in sums ==> f in a.release && sums[f] == c.world.hash(a.release[f])
  {
    hide Open, ListingOk, RecordOk, ContentsOk, EvidenceOk, RetainedBundled, PlatformsOk, Complete, Parse;
    hide AllSupported, ClaimsOf, SupportedNames, AllDecided, ReportsIn, ArchiveName, HexOf, IdentityOk;
  }

  /** Of several retained cases with the same raw file, the last says what digest it has to have. */
  lemma {:induction false} LastShaIsRecorded(cases: seq<RetainedCase>, raw: string)
    ensures (forall k :: 0 <= k < |cases| ==> cases[k].raw != raw) ==> RecordedSha(cases, raw) == None
    ensures forall k | 0 <= k < |cases| && cases[k].raw == raw
      && (forall j :: k < j < |cases| ==> cases[j].raw != raw) ::
      RecordedSha(cases, raw) == cases[k].rawSha
  {
    if cases != [] {
      LastShaIsRecorded(cases[..|cases| - 1], raw);
    }
  }

  /** The version is the tag without its `v`. */
  lemma {:induction false} RecordSaysVersion(c: Codec, i: BuildInputs, d: BuildDocs)
    ensures var r := RecordOf(c, i, d);
      && r.tag == i.tag && (i.tag == "v" + r.version || (i.tag == r.version && !("v" <= i.tag)))
  {
    hide ClaimsOf, SupportedNames, PlatformOf, RetainedShas, HashOf, PathOf;
    if i.tag != "" && i.tag[0] == 'v' {
      assert i.tag == "v" + i.tag[1..];
    }
  }

  /** The record lists every retained file of the bundle with its digest, and no other. */
  lemma {:induction false} RecordListsRetained(c: Codec, i: BuildInputs, d: BuildDocs, path: string)
    ensures var r := RecordOf(c, i, d);
      && (path in r.retainedFiles <==> exists file :: file in i.retained && path == PathOf(RetainedMember(file)))
      && forall file :: file in i.retained ==>
           PathOf(RetainedMember(file)) in r.retainedFiles
           && r.retainedFiles[PathOf(RetainedMember(file))] == c.world.hash(i.retained[file])
  {
    hide PathOf, RecordOf;
    RecordFields(c, i, d);
    RetainedPathsDiffer();
  }

  // --------------------------------------------------------------- versions

  lemma {:induction false} SplitPlain(s: string, part: string)
    requires '.' !in s
    ensures SplitDots(s, part) == [part + s]
    decreases |s|
  {
    if s == "" {
      assert part + s == part;
    } else {
      assert s[0] in s;
      SplitPlain(s[1..], part + [s[0]]);
      assert part + [s[0]] + s[1..] == part + s;
    }
  }

  lemma {:induction false} SplitAtDot(s: string, rest: string, part: string)
    requires '.' !in s
    ensures SplitDots(s + "." + rest, part) == [part + s] + SplitDots(rest, "")
    decreases |s|
  {
    var t := s + "." + rest;
    if s == "" {
      assert t[0] == '.' && t[1..] == rest && part + s == part;
    } else {
      assert s[0] in s && t[0] == s[0] && t[1..] == s[1..] + "." + rest;
      SplitAtDot(s[1..], rest, part + [s[0]]);
      assert part + [s[0]] + s[1..] == part + s;
    }
  }

  lemma {:induction false} DotsJoin(s: string, part: string)
    ensures SplitDots(s, part) != [] && JoinBy(".", SplitDots(s, part)) == part + s
    decreases |s|
  {
    if s == "" {
      assert part + "" == part;
    } else if s[0] == '.' {
      DotsJoin(s[1..], "");
      var rest := SplitDots(s[1..], "");
      assert ([part] + rest)[1..] == rest;
      assert part + ("." + ("" + s[1..])) == part + s;
    } else {
      DotsJoin(s[1..], part + [s[0]]);
      assert part + [s[0]] + s[1..] == part + s;
    }
  }

  /** `v1.2.3` */
  function TagOf(a: nat, b: nat, c: nat): string {
    "v" + PrintNat(a) + "." + PrintNat(b) + "." + PrintNat(c)
  }

  lemma {:induction false} NoDotInNumber(n: nat)
    ensures '.' !in PrintNat(n) && Canonical(PrintNat(n)) && ParseNat(PrintNat(n)) == n
  {
    hide PrintNat;
    PrintCanonical(n);
    ParsePrint(n);
  }

  /** The tags with a version are exactly the `v1.2.3`, with plain decimals. */
  lemma {:induction false} VersionOfTag(a: nat, b: nat, c: nat)
    ensures VersionOf(TagOf(a, b, c)) == Some([a, b, c])
  {
    NoDotInNumber(a);
    NoDotInNumber(b);
    NoDotInNumber(c);
    hide PrintNat, ParseNat, Canonical, SplitDots;
    var x, y, z := PrintNat(a), PrintNat(b), PrintNat(c);
    var t := TagOf(a, b, c);
    assert t[1..] == x + "." + (y + "." + z);
    SplitAtDot(x, y + "." + z, "");
    SplitAtDot(y, z, "");
    SplitPlain(z, "");
    assert "" + x == x && "" + y == y && "" + z == z;
    assert SplitDots(t[1..], "") == [x, y, z];
  }

  lemma {:induction false} JoinThree(x: string, y: string, z: string)
    ensures JoinBy(".", [x, y, z]) == x + "." + y + "." + z
  {
    assert [x, y, z][1..] == [y, z] && [y, z][1..] == [z];
    assert JoinBy(".", [z]) == z + "" == z;
    assert JoinBy(".", [y, z]) == y + ("." + z);
    assert x + ("." + (y + ("." + z))) == x + "." + y + "." + z;
  }

  lemma {:induction false} TagOfVersion(tag: string)
    requires VersionOf(tag).Some?
    ensures var v := VersionOf(tag).value; |v| == 3 && tag == TagOf(v[0], v[1], v[2])
  {
    hide PrintNat, ParseNat, Canonical, SplitDots, JoinBy;
    var parts := SplitDots(tag[1..], "");
    DotsJoin(tag[1..], "");
    PrintParse(parts[0]);
    PrintParse(parts[1]);
    PrintParse(parts[2]);
    assert parts == [parts[0], parts[1], parts[2]];
    JoinThree(parts[0], parts[1], parts[2]);
    assert tag == "v" + ("" + tag[1..]);
    assert tag == "v" + (parts[0] + "." + parts[1] + "." + parts[2]);
    assert tag == "v" + parts[0] + "." + parts[1] + "." + parts[2];
  }

  /** Versions are compared number by number. */
  lemma {:induction false} NotNewerIff(a: seq<nat>, b: seq<nat>)
    requires |a| == |b| == 3
    ensures NotNewer(a, b) <==> a[0] < b[0] || (a[0] == b[0] && (a[1] < b[1] || (a[1] == b[1] && a[2] <= b[2])))
  {
    assert a[1..][1..][1..] == [] && b[1..][1..][1..] == [];
    assert NotNewer(a[1..][1..][1..], b[1..][1..][1..]);
    assert NotNewer(a[1..][1..], b[1..][1..]) <==> a[2] <= b[2];
  }
}
