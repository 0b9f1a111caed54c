/**
 The first-publication graph: the checks on workspace metadata, the closure of default features, and the
 order-driven packaging run that relies on them.
*/
module Crates {
  import opened Prelude

  datatype DependencyKind = Normal | Build | Dev

  datatype Dependency = Dependency(name: string, kind: DependencyKind, req: string)

  datatype Target = Target(name: string, isBin: bool, requiredFeatures: seq<string>)

  /** A workspace package; `publish` is absent, empty, or lists registries; `texts` are the descriptive fields. */
  datatype Package = Package(name: string, version: string, publish: Option<seq<string>>, texts: map<string, string>,
                             dependencies: seq<Dependency>, features: map<string, seq<string>>, targets: seq<Target>)

  datatype Policy = Policy(order: seq<string>, deferred: seq<string>)

  type Members = map<string, Package>

  const REQUIRED_TEXTS := ["description", "repository", "homepage", "documentation", "readme", "license",
                           "rust_version"]

  datatype CrateError =
    | DuplicateInOrder
    | NotClassified
    | DeferredMayPublish(name: string)
    | NotForCratesIo(name: string)
    | MissingText(name: string, key: string)
    | NoRegistryVersion(name: string, upstream: string)
    | PublishedTooLate(name: string, upstream: string)
    | WrongBinaries(name: string)
    | CompatibilityBinary(name: string)
    | SimulatorDependency
    | BenchmarkBinary

  function AsSet(s: seq<string>): set<string> {
    set x | x in s
  }

  /** `order.index(name)`; the length of the list for a name that is missing. */
  function Index(order: seq<string>, name: string): (i: nat)
    ensures i <= |order| && name !in order[..i] && (i < |order| ==> order[i] == name)
    ensures name in order <==> i < |order|
  {
    if order == [] || order[0] == name then 0
    else
      var i := 1 + Index(order[1..], name);
      assert order[..i] == [order[0]] + order[1..][..i - 1];
      i
  }

  // ----------------------------------------------------- publication order

  predicate HasText(p: Package, key: string) {
    key in p.texts && p.texts[key] != ""
  }

  /** The dependency is on another member of the workspace and survives publication. */
  predicate Internal(members: Members, d: Dependency) {
    d.name in members && d.kind != Dev
  }

  predicate DependencyOk(members: Members, order: seq<string>, name: string, d: Dependency) {
    Internal(members, d) ==>
      d.req != "*" && d.name in order && Index(order, d.name) < Index(order, name)
  }

  predicate PackageOk(members: Members, order: seq<string>, name: string, p: Package) {
    if name !in order then p.publish == Some([])
    else
      && p.publish == Some(["crates-io"])
      && (forall key :: key in REQUIRED_TEXTS ==> HasText(p, key))
      && (forall d :: d in p.dependencies ==> DependencyOk(members, order, name, d))
  }

  /** What the first half of the check demands. */
  predicate OrderOk(members: Members, policy: Policy) {
    && Distinct(policy.order)
    && members.Keys == AsSet(policy.order) + AsSet(policy.deferred)
    && forall name :: name in members ==> PackageOk(members, policy.order, name, members[name])
  }

  method PackageErrors(members: Members, order: seq<string>, name: string, p: Package) returns (errors: seq<CrateError>)
    ensures errors == [] <==> PackageOk(members, order, name, p)
  {
    errors := [];
    if name !in order {
      if p.publish != Some([]) {
        errors := errors + [DeferredMayPublish(name)];
      }
      return;
    }
    if p.publish != Some(["crates-io"]) {
      errors := errors + [NotForCratesIo(name)];
    }
    for i := 0 to |REQUIRED_TEXTS|
      invariant errors == [] <==>
        p.publish == Some(["crates-io"]) && forall j :: 0 <= j < i ==> HasText(p, REQUIRED_TEXTS[j])
    {
      if !HasText(p, REQUIRED_TEXTS[i]) {
        errors := errors + [MissingText(name, REQUIRED_TEXTS[i])];
      }
    }
    ghost var before := errors == [];
    for i := 0 to |p.dependencies|
      invariant errors == [] <==>
        before && forall j :: 0 <= j < i ==> DependencyOk(members, order, name, p.dependencies[j])
    {
      var d := p.dependencies[i];
      if d.name !in members || d.kind == Dev {
        continue;
      }
      if d.req == "*" {
        errors := errors + [NoRegistryVersion(name, d.name)];
      }
      if d.name !in order || Index(order, d.name) >= Index(order, name) {
        errors := errors + [PublishedTooLate(name, d.name)];
      }
    }
  }

  // -------------------------------------------------------- feature closure

  /** One feature selects another declared feature. */
  predicate Selects(features: map<string, seq<string>>, f: string, g: string) {
    f in features && g in features[f] && g in features
  }

  ghost predicate ClosedUnder(features: map<string, seq<string>>, s: set<string>) {
    forall f, g :: f in s && Selects(features, f, g) ==> g in s
  }

  /** A chain of selections that starts at a default feature. */
  predicate IsChain(features: map<string, seq<string>>, defaults: seq<string>, chain: seq<string>) {
    && chain != [] && chain[0] in defaults
    && forall i :: 0 <= i < |chain| - 1 ==> Selects(features, chain[i], chain[i + 1])
  }

  ghost predicate Reachable(features: map<string, seq<string>>, defaults: seq<string>, f: string) {
    exists chain :: IsChain(features, defaults, chain) && chain[|chain| - 1] == f
  }

  function Defaults(features: map<string, seq<string>>): seq<string> {
    if "default" in features then features["default"] else []
  }

  /**
   The expansion loop; it ends on every table, cyclic ones included, with the features reachable from the defaults.
  */
  method EnabledFeatures(features: map<string, seq<string>>) returns (enabled: set<string>)
    ensures forall f :: f in enabled <==> Reachable(features, Defaults(features), f)
  {
    var defaults := Defaults(features);
    enabled := AsSet(defaults);
    forall f | f in enabled
      ensures Reachable(features, defaults, f)
    {
      assert IsChain(features, defaults, [f]);
    }
    while true
      invariant AsSet(defaults) <= enabled <= AsSet(defaults) + features.Keys
      invariant forall f :: f in enabled ==> Reachable(features, defaults, f)
      decreases AsSet(defaults) + features.Keys - enabled
    {
      var expanded := enabled
        + set selected, feature | selected in enabled && selected in features && feature in features[selected]
                                  && feature in features :: feature;
      if expanded == enabled {
        break;
      }
      forall f | f in expanded
        ensures Reachable(features, defaults, f)
      {
        if f !in enabled {
          var selected :| selected in enabled && Selects(features, selected, f);
          ReachNext(features, defaults, selected, f);
        }
      }
      enabled := expanded;
    }
    forall f | Reachable(features, defaults, f)
      ensures f in enabled
    {
      LeastClosed(features, defaults, enabled, f);
    }
  }

  lemma {:induction false} ReachNext(features: map<string, seq<string>>, defaults: seq<string>, f: string, g: string)
    requires Reachable(features, defaults, f) && Selects(features, f, g)
    ensures Reachable(features, defaults, g)
  {
    var chain :| IsChain(features, defaults, chain) && chain[|chain| - 1] == f;
    assert IsChain(features, defaults, chain + [g]);
    assert (chain + [g])[|chain|] == g;
  }

  /** What is reachable lies in every closed set that holds the defaults: the closure is the least one. */
  lemma {:induction false} LeastClosed(features: map<string, seq<string>>, defaults: seq<string>, s: set<string>,
                                       f: string)
    requires AsSet(defaults) <= s && ClosedUnder(features, s) && Reachable(features, defaults, f)
    ensures f in s
  {
    var chain :| IsChain(features, defaults, chain) && chain[|chain| - 1] == f;
    ChainStays(features, defaults, s, chain, |chain| - 1);
  }

  lemma {:induction false} ChainStays(features: map<string, seq<string>>, defaults: seq<string>, s: set<string>,
                                      chain: seq<string>, i: nat)
    requires AsSet(defaults) <= s && ClosedUnder(features, s) && IsChain(features, defaults, chain) && i < |chain|
    ensures chain[i] in s
  {
    if i == 0 {
      assert chain[0] in AsSet(defaults);
    } else {
      ChainStays(features, defaults, s, chain, i - 1);
      assert Selects(features, chain[i - 1], chain[i]);
    }
  }

  /** The reachable features are themselves such a set. */
  lemma {:induction false} ReachableIsClosed(features: map<string, seq<string>>, defaults: seq<string>)
    ensures forall f :: f in defaults ==> Reachable(features, defaults, f)
    ensures forall f, g :: Reachable(features, defaults, f) && Selects(features, f, g) ==>
      Reachable(features, defaults, g)
  {
    forall f | f in defaults
      ensures Reachable(features, defaults, f)
    {
      assert IsChain(features, defaults, [f]);
    }
    forall f, g | Reachable(features, defaults, f) && Selects(features, f, g)
      ensures Reachable(features, defaults, g)
    {
      ReachNext(features, defaults, f, g);
    }
  }

  // --------------------------------------------------------------- binaries

  const EXPECTED_BINARIES: seq<(string, set<string>)> :=
    [("rstim", {"rstim"}), ("qec-code", {}), ("rmatching", {"rmatching_cli"}), ("rbposd", {}), ("rilpqec", {}),
     ("rsinter", {"rsinter"})]

  /** The target is installed by default: each feature it requires is reachable from the defaults. */
  ghost predicate Installed(p: Package, t: Target) {
    t.isBin && forall f :: f in t.requiredFeatures ==> Reachable(p.features, Defaults(p.features), f)
  }

  ghost predicate BinariesAre(p: Package, expected: set<string>) {
    forall name :: name in expected <==> exists t :: t in p.targets && t.name == name && Installed(p, t)
  }

  /** The compatibility binary exists once and requires the `cli` feature. */
  predicate CompatibilityOk(p: Package, name: string) {
    var bins := Named(p.targets, name);
    |bins| == 1 && "cli" in bins[0].requiredFeatures
  }

  function Named(targets: seq<Target>, name: string): seq<Target> {
    if targets == [] then []
    else (if targets[0].isBin && targets[0].name == name then [targets[0]] else []) + Named(targets[1..], name)
  }

  predicate IsBinary(t: Target, name: string) {
    t.isBin && t.name == name
  }

  /** The only one of the targets that is a binary of this name. */
  predicate OnlyBinary(targets: seq<Target>, name: string, k: nat) {
    k < |targets| && IsBinary(targets[k], name)
    && forall j :: 0 <= j < |targets| && j != k ==> !IsBinary(targets[j], name)
  }

  lemma {:induction false} NamedIs(targets: seq<Target>, name: string)
    ensures Named(targets, name) == [] <==> forall k :: 0 <= k < |targets| ==> !IsBinary(targets[k], name)
    ensures |Named(targets, name)| == 1 <==> exists k: nat :: OnlyBinary(targets, name, k)
    ensures forall k: nat :: OnlyBinary(targets, name, k) ==> Named(targets, name) == [targets[k]]
  {
    if targets != [] {
      var rest := targets[1..];
      NamedIs(rest, name);
      assert forall k :: 0 <= k < |rest| ==> rest[k] == targets[k + 1];
      forall k: nat | OnlyBinary(targets, name, k) ensures Named(targets, name) == [targets[k]] {
        if k == 0 {
          assert Named(rest, name) == [];
        } else {
          OnlyBinaryOfRest(targets, name, k);
        }
      }
      if |Named(targets, name)| == 1 {
        if IsBinary(targets[0], name) {
          assert Named(rest, name) == [];
          assert OnlyBinary(targets, name, 0) by {
            forall j | 1 <= j < |targets| ensures !IsBinary(targets[j], name) {
              assert rest[j - 1] == targets[j];
            }
          }
        } else {
          var k: nat :| OnlyBinary(rest, name, k);
          OnlyBinaryOfRest(targets, name, k + 1);
        }
      }
      if Named(targets, name) == [] {
        forall k | 0 <= k < |targets| ensures !IsBinary(targets[k], name) {
          assert k > 0 ==> rest[k - 1] == targets[k];
        }
      }
    }
  }

  lemma {:induction false} OnlyBinaryOfRest(targets: seq<Target>, name: string, k: nat)
    requires 1 <= k < |targets|
    ensures OnlyBinary(targets, name, k) <==>
      OnlyBinary(targets[1..], name, k - 1) && !IsBinary(targets[0], name)
  {
    var rest := targets[1..];
    assert forall j :: 0 <= j < |rest| ==> rest[j] == targets[j + 1];
    if OnlyBinary(rest, name, k - 1) && !IsBinary(targets[0], name) {
      forall j | 0 <= j < |targets| && j != k ensures !IsBinary(targets[j], name) {
        assert j > 0 ==> rest[j - 1] == targets[j];
      }
    }
  }

  /** There is one compatibility binary, and it is built only on demand. */
  lemma {:induction false} CompatibilityIff(p: Package, name: string)
    ensures CompatibilityOk(p, name) <==>
      exists k: nat :: OnlyBinary(p.targets, name, k) && "cli" in p.targets[k].requiredFeatures
  {
    hide OnlyBinary, Named;
    NamedIs(p.targets, name);
  }

  predicate MatchingOk(p: Package) {
    && (forall d :: d in p.dependencies ==> d.name != "rstim" || d.kind == Dev)
    && (forall t :: t in p.targets ==> !t.isBin || t.name == "rmatching_cli")
  }

  ghost predicate BinariesOk(members: Members)
    requires "qec-code" in members && "rmatching" in members
  {
    && (forall i :: 0 <= i < |EXPECTED_BINARIES| && EXPECTED_BINARIES[i].0 in members ==>
          BinariesAre(members[EXPECTED_BINARIES[i].0], EXPECTED_BINARIES[i].1))
    && CompatibilityOk(members["qec-code"], "qec-code")
    && MatchingOk(members["rmatching"])
  }

  method BinaryErrors(p: Package, name: string, expected: set<string>) returns (errors: seq<CrateError>)
    ensures errors == [] <==> BinariesAre(p, expected)
  {
    var enabled := EnabledFeatures(p.features);
    var actual := set t | t in p.targets && t.isBin && AsSet(t.requiredFeatures) <= enabled :: t.name;
    forall t | t in p.targets
      ensures t.isBin && AsSet(t.requiredFeatures) <= enabled <==> Installed(p, t)
    {
      assert forall f :: f in AsSet(t.requiredFeatures) <==> f in t.requiredFeatures;
    }
    assert forall n :: n in actual <==> exists t :: t in p.targets && t.name == n && Installed(p, t);
    errors := if actual != expected then [WrongBinaries(name)] else [];
  }

  // ---------------------------------------------------------- the whole check

  /** `{package["name"]: package for package in packages}`: the last package of a name counts. */
  function MembersOf(packages: seq<Package>): Members {
    if packages == [] then map[]
    else MembersOf(packages[..|packages| - 1])[packages[|packages| - 1].name := packages[|packages| - 1]]
  }

  /** The names in the order in which they first occur. */
  function NamesOf(packages: seq<Package>): (names: seq<string>)
    ensures forall n :: n in names <==> n in MembersOf(packages)
  {
    if packages == [] then []
    else
      var names := NamesOf(packages[..|packages| - 1]);
      var name := packages[|packages| - 1].name;
      if name in names then names else names + [name]
  }

  /** `metadata_errors`; it fails with a KeyError when a package it names is not a member. */
  method MetadataErrors(packages: seq<Package>, policy: Policy) returns (r: Result<seq<CrateError>, string>)
    ensures var members := MembersOf(packages);
            && (r.Ok? <==> "qec-code" in members && "rmatching" in members)
            && (r.Ok? ==> (r.value == [] <==> OrderOk(members, policy) && BinariesOk(members)))
  {
    hide MembersOf, NamesOf, PackageOk, BinariesAre, CompatibilityOk, MatchingOk, AsSet;
    var members := MembersOf(packages);
    var names := NamesOf(packages);
    var order := policy.order;
    var errors: seq<CrateError> := [];
    if |order| != |AsSet(order)| {
      errors := errors + [DuplicateInOrder];
    }
    DistinctByCount(order);
    if members.Keys != AsSet(order) + AsSet(policy.deferred) {
      errors := errors + [NotClassified];
    }
    ghost var classified := errors == [];
    for i := 0 to |names|
      invariant errors == [] <==>
        classified && forall j :: 0 <= j < i ==> PackageOk(members, order, names[j], members[names[j]])
    {
      assert names[i] in names;
      var more := PackageErrors(members, order, names[i], members[names[i]]);
      errors := errors + more;
    }
    assert errors == [] <==> OrderOk(members, policy) by {
      assert forall name :: name in members ==> name in names;
    }
    ghost var ordered := errors == [];
    for i := 0 to |EXPECTED_BINARIES|
      invariant errors == [] <==>
        ordered && forall j :: 0 <= j < i && EXPECTED_BINARIES[j].0 in members ==>
          BinariesAre(members[EXPECTED_BINARIES[j].0], EXPECTED_BINARIES[j].1)
    {
      var (name, expected) := EXPECTED_BINARIES[i];
      if name in members {
        var more := BinaryErrors(members[name], name, expected);
        errors := errors + more;
      }
    }
    if "qec-code" !in members {
      return Err("qec-code");
    }
    if !CompatibilityOk(members["qec-code"], "qec-code") {
      errors := errors + [CompatibilityBinary("qec-code")];
    }
    if "rmatching" !in members {
      return Err("rmatching");
    }
    var more := MatchingErrors(members["rmatching"]);
    errors := errors + more;
    return Ok(errors);
  }

  method MatchingErrors(p: Package) returns (errors: seq<CrateError>)
    ensures errors == [] <==> MatchingOk(p)
  {
    errors := [];
    if exists d :: d in p.dependencies && d.name == "rstim" && d.kind != Dev {
      errors := errors + [SimulatorDependency];
    }
    if exists t :: t in p.targets && t.isBin && t.name != "rmatching_cli" {
      errors := errors + [BenchmarkBinary];
    }
  }

  /** A list has as many elements as its set exactly when it has no duplicates. */
  lemma {:induction false} DistinctByCount(s: seq<string>)
    ensures |AsSet(s)| <= |s|
    ensures |s| == |AsSet(s)| <==> Distinct(s)
  {
    if s != [] {
      var n := |s| - 1;
      DistinctByCount(s[..n]);
      assert AsSet(s) == AsSet(s[..n]) + {s[n]};
      assert s[n] in AsSet(s[..n]) <==> s[n] in s[..n];
      DistinctPush(s);
      hide Distinct;
    }
  }

  lemma {:induction false} DistinctPush(s: seq<string>)
    requires s != []
    ensures Distinct(s) <==> Distinct(s[..|s| - 1]) && s[|s| - 1] !in s[..|s| - 1]
  {
    var n := |s| - 1;
    if Distinct(s[..n]) && s[n] !in s[..n] {
      forall i, j | 0 <= i < j < |s| ensures s[i] != s[j] {
        assert s[i] == s[..n][i];
        if j < n {
          assert s[j] == s[..n][j];
        }
      }
    }
  }

  // -------------------------------------------------- what an order that passes gives

  /** `upstream` is a non-dev workspace dependency of the published package `name`. */
  predicate DependsOn(members: Members, order: seq<string>, name: string, upstream: string) {
    && name in order && name in members && upstream in members
    && exists d :: d in members[name].dependencies && d.name == upstream && d.kind != Dev
  }

  /** Every package is preceded by what it depends on: each prefix of the order is closed under dependencies. */
  lemma {:induction false} PrefixesAreClosed(members: Members, policy: Policy, i: nat, upstream: string)
    requires OrderOk(members, policy) && i < |policy.order|
    requires DependsOn(members, policy.order, policy.order[i], upstream)
    ensures upstream in policy.order[..i]
  {
    var order, name := policy.order, policy.order[i];
    var d :| d in members[name].dependencies && d.name == upstream && d.kind != Dev;
    assert PackageOk(members, order, name, members[name]);
    assert DependencyOk(members, order, name, d);
    assert Index(order, name) == i;
    assert order[Index(order, upstream)] == upstream;
  }

  /** A walk along dependencies of published packages. */
  predicate IsDependencyWalk(members: Members, order: seq<string>, walk: seq<string>) {
    forall i :: 0 <= i < |walk| - 1 ==> DependsOn(members, order, walk[i], walk[i + 1])
  }

  /** Positions fall along every walk, so no walk returns to where it started: the graph is acyclic. */
  lemma {:induction false} WalksDescend(members: Members, policy: Policy, walk: seq<string>)
    requires OrderOk(members, policy) && |walk| >= 2 && IsDependencyWalk(members, policy.order, walk)
    ensures Index(policy.order, walk[|walk| - 1]) < Index(policy.order, walk[0])
    ensures walk[|walk| - 1] != walk[0]
  {
    var order := policy.order;
    var k := Index(order, walk[0]);
    assert DependsOn(members, order, walk[0], walk[1]);
    PrefixesAreClosed(members, policy, k, walk[1]);
    EarlierIndex(order, k, walk[1]);
    if |walk| > 2 {
      forall i | 0 <= i < |walk[1..]| - 1
        ensures DependsOn(members, order, walk[1..][i], walk[1..][i + 1])
      {
        assert DependsOn(members, order, walk[i + 1], walk[i + 2]);
      }
      WalksDescend(members, policy, walk[1..]);
    }
  }

  lemma {:induction false} EarlierIndex(order: seq<string>, k: nat, name: string)
    requires k <= |order| && name in order[..k]
    ensures Index(order, name) < k
  {
    var j :| 0 <= j < k && order[..k][j] == name;
    assert Index(order, name) <= j;
  }

  // ----------------------------------------------------------- the packaging run

  /** One `cargo package` invocation and the local sources it is told to use. */
  datatype Call = Call(name: string, patches: map<string, string>)

  datatype ConsumerError = UnknownPackage(name: string) | PackagingFailed(name: string)

  /** Whether packaging, finding the archive, extracting it and finding its manifest all succeed. */
  type Cargo = Call -> bool

  function UnpackedAfter(metadata: Members, order: seq<string>): (m: map<string, string>)
    requires forall n :: n in order ==> n in metadata
    ensures m.Keys == AsSet(order)
  {
    if order == [] then map[]
    else
      var n := |order| - 1;
      assert order == order[..n] + [order[n]];
      UnpackedAfter(metadata, order[..n])[order[n] := order[n] + "-" + metadata[order[n]].version]
  }

  /** The `i`-th call packages the `i`-th package, with everything before it patched in. */
  predicate CallIs(metadata: Members, order: seq<string>, i: nat, call: Call)
    requires i < |order|
  {
    (forall n :: n in order[..i] ==> n in metadata) && call == Call(order[i], UnpackedAfter(metadata, order[..i]))
  }

  /** `package_and_unpack`: packages in order, each time patching in everything unpacked so far. */
  method PackageAndUnpack(metadata: Members, order: seq<string>, cargo: Cargo)
    returns (r: Result<map<string, string>, ConsumerError>, calls: seq<Call>)
    ensures |calls| <= |order| && forall n :: n in order[..|calls|] ==> n in metadata
    ensures forall i :: 0 <= i < |calls| ==> CallIs(metadata, order, i, calls[i])
    ensures r.Ok? <==> (forall n :: n in order ==> n in metadata)
                       && |calls| == |order| && forall i :: 0 <= i < |calls| ==> cargo(calls[i])
    ensures r.Ok? ==> r.value == UnpackedAfter(metadata, order)
  {
    hide UnpackedAfter, CallIs;
    var unpacked: map<string, string> := map[];
    calls := [];
    EmptyRun(metadata);
    for k := 0 to |order|
      invariant |calls| == k && forall n :: n in order[..k] ==> n in metadata
      invariant unpacked == UnpackedAfter(metadata, order[..k])
      invariant forall i :: 0 <= i < k ==> CallIs(metadata, order, i, calls[i])
      invariant forall i :: 0 <= i < k ==> cargo(calls[i])
    {
      var name := order[k];
      if name !in metadata {
        r := Err(UnknownPackage(name));
        return;
      }
      assert order[..k + 1] == order[..k] + [name];
      CallFits(metadata, order, k, unpacked);
      calls := calls + [Call(name, unpacked)];
      if !cargo(calls[k]) {
        r := Err(PackagingFailed(name));
        return;
      }
      ExtendRun(metadata, order[..k], name);
      unpacked := unpacked[name := name + "-" + metadata[name].version];
    }
    assert order[..|order|] == order;
    r := Ok(unpacked);
  }

  lemma {:induction false} CallFits(metadata: Members, order: seq<string>, k: nat, unpacked: map<string, string>)
    requires k < |order| && (forall n :: n in order[..k] ==> n in metadata)
    requires unpacked == UnpackedAfter(metadata, order[..k])
    ensures CallIs(metadata, order, k, Call(order[k], unpacked))
  {
  }

  lemma {:induction false} EmptyRun(metadata: Members)
    ensures UnpackedAfter(metadata, []) == map[]
  {
  }

  lemma {:induction false} ExtendRun(metadata: Members, order: seq<string>, name: string)
    requires forall n :: n in order + [name] ==> n in metadata
    ensures forall n :: n in order ==> n in metadata
    ensures UnpackedAfter(metadata, order + [name])
         == UnpackedAfter(metadata, order)[name := name + "-" + metadata[name].version]
  {
    forall n | n in order
      ensures n in metadata
    {
      assert n in order + [name];
    }
    assert (order + [name])[..|order|] == order;
  }

  /** What is unpacked: for every package so far, its archive's directory, named after package and version. */
  lemma {:induction false} UnpackedIs(metadata: Members, order: seq<string>)
    requires forall n :: n in order ==> n in metadata
    ensures var unpacked := UnpackedAfter(metadata, order);
      && (forall n :: n in unpacked <==> n in order)
      && forall n :: n in order ==> unpacked[n] == n + "-" + metadata[n].version
  {
    if order != [] {
      var front, last := order[..|order| - 1], order[|order| - 1];
      assert order == front + [last];
      UnpackedIs(metadata, front);
    }
  }

  /** When the metadata passes, every call is given all workspace dependencies of the package it builds. */
  lemma {:induction false} RunHasDependencies(metadata: Members, policy: Policy, i: nat, upstream: string)
    requires OrderOk(metadata, policy) && i < |policy.order|
    requires DependsOn(metadata, policy.order, policy.order[i], upstream)
    requires forall n :: n in policy.order[..i] ==> n in metadata
    ensures upstream in UnpackedAfter(metadata, policy.order[..i])
  {
    PrefixesAreClosed(metadata, policy, i, upstream);
    assert upstream in AsSet(policy.order[..i]);
  }
}
