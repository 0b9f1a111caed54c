/** What the derivation of estimates keeps: independence of record order, every record once, and all shots. */
module EstimateLaws {
  import opened Prelude
  import opened Sorting
  import opened Statistics
  import opened Estimates
  import B = Bootstrap

  // ---------------------------------------------------- permuting records

  lemma {:induction false} FilterCounts(s: seq<Record>, p: Record -> bool, x: Record)
    ensures multiset(Filter(s, p))[x] == if p(x) then multiset(s)[x] else 0
  {
    if s != [] {
      FilterCounts(s[1..], p, x);
      assert s == [s[0]] + s[1..];
    }
  }

  lemma {:induction false} FilterPermuted(a: seq<Record>, b: seq<Record>, p: Record -> bool)
    requires multiset(a) == multiset(b)
    ensures multiset(Filter(a, p)) == multiset(Filter(b, p))
  {
    forall x
      ensures multiset(Filter(a, p))[x] == multiset(Filter(b, p))[x]
    {
      FilterCounts(a, p, x);
      FilterCounts(b, p, x);
    }
  }

  lemma {:induction false} FilterMembers(s: seq<Record>, p: Record -> bool)
    ensures forall x :: x in Filter(s, p) <==> x in s && p(x)
  {
    forall x
      ensures x in Filter(s, p) <==> x in s && p(x)
    {
      FilterCounts(s, p, x);
      assert x in s <==> x in multiset(s);
      assert x in Filter(s, p) <==> x in multiset(Filter(s, p));
    }
  }

  lemma {:induction false} TotalAppend(a: seq<Record>, b: seq<Record>, f: Record -> int)
    ensures Total(a + b, f) == Total(a, f) + Total(b, f)
  {
    if a == [] {
      assert a + b == b;
    } else {
      assert (a + b)[1..] == a[1..] + b;
      TotalAppend(a[1..], b, f);
    }
  }

  lemma {:induction false} TotalPermuted(a: seq<Record>, b: seq<Record>, f: Record -> int)
    requires multiset(a) == multiset(b)
    ensures Total(a, f) == Total(b, f)
  {
    SameLength(a, b);
    if a != [] {
      assert a[0] in multiset(b);
      var j: nat :| j < |b| && b[j] == a[0];
      RemoveFirst(a);
      RemoveAt(b, j);
      TotalPermuted(a[1..], b[..j] + b[j + 1..], f);
      TotalAppend(b[..j], b[j..], f);
      TotalAppend(b[..j], b[j + 1..], f);
      assert b == b[..j] + b[j..] && b[j..][1..] == b[j + 1..];
    }
  }

  lemma {:induction false} MappedPermuted(a: seq<Record>, b: seq<Record>)
    requires multiset(a) == multiset(b)
    ensures multiset(Ids(a)) == multiset(Ids(b)) && multiset(Numbers(a)) == multiset(Numbers(b))
  {
    var p := MatchPermuted(a, b);
    MatchedArePermuted(Ids(a), Ids(b), p);
    MatchedArePermuted(Numbers(a), Numbers(b), p);
  }

  lemma {:induction false} SortStrings(a: seq<string>, b: seq<string>)
    requires multiset(a) == multiset(b)
    ensures SortBy(a, Identity) == SortBy(b, Identity)
  {
    SortEqualIffPermuted(a, b, Identity);
  }

  /** The records of a group agree on everything the estimate copies from the first of them. */
  predicate Agree(r: Record, q: Record) {
    Kind(r) == Kind(q) && r.variant == q.variant && SortedScale(r) == SortedScale(q)
  }

  lemma {:induction false} EstimatePermuted(a: Arithmetic, key: string, s: seq<Record>, t: seq<Record>)
    requires a.Valid() && s != [] && t != [] && multiset(s) == multiset(t) && Agree(s[0], t[0])
    ensures EstimateOf(a, key, s) == EstimateOf(a, key, t)
  {
    hide SortBy, Filter, SortedScale, B.BootstrapInterval, Total, a.Valid;
    FilterPermuted(s, t, Counts);
    FilterPermuted(s, t, IsWarmup);
    SameLength(s, t);
    SameLength(Filter(s, Counts), Filter(t, Counts));
    SameLength(Filter(s, IsWarmup), Filter(t, IsWarmup));
    MappedPermuted(s, t);
    MappedPermuted(Filter(s, Counts), Filter(t, Counts));
    SortStrings(Ids(Filter(s, Counts)), Ids(Filter(t, Counts)));
    TotalPermuted(s, t, Shots);
    TotalPermuted(s, t, Errors);
    TotalPermuted(s, t, Input);
    TotalPermuted(s, t, Output);
    NumbersPermuted(a, s, t);
    NumbersPermuted(a, Filter(s, Counts), Filter(t, Counts));
    SameKind(s[0], t[0]);
  }

  lemma {:induction false} SameKind(r: Record, q: Record)
    requires Kind(r) == Kind(q)
    ensures r.values.LogicalError? == q.values.LogicalError? && r.values.Timing? == q.values.Timing?
    ensures r.values.Bytes? == q.values.Bytes? && r.values.Scalar? == q.values.Scalar?
  {
  }

  lemma {:induction false} NumbersPermuted(a: Arithmetic, s: seq<Record>, t: seq<Record>)
    requires a.Valid() && multiset(s) == multiset(t)
    ensures B.BootstrapInterval(Numbers(s), a.draw, a.round) == B.BootstrapInterval(Numbers(t), a.draw, a.round)
  {
    MappedPermuted(s, t);
    B.BootstrapForgetsOrder(Numbers(s), Numbers(t), a.draw, a.round);
  }

  /** Equal keys come with equal kind, variant and scale. */
  ghost predicate Coherent(records: seq<Record>) {
    forall r, q :: r in records && q in records && GroupKey(r) == GroupKey(q) ==> Agree(r, q)
  }

  lemma {:induction false} EstimatesForPermuted(a: Arithmetic, s: seq<Record>, t: seq<Record>, keys: seq<string>)
    requires a.Valid() && multiset(s) == multiset(t) && Coherent(s)
    ensures EstimatesFor(a, s, keys) == EstimatesFor(a, t, keys)
  {
    hide EstimateOf, Filter, Agree, GroupKey;
    if keys != [] {
      var g, h := Group(s, keys[0]), Group(t, keys[0]);
      var p := (r: Record) => GroupKey(r) == keys[0];
      FilterPermuted(s, t, p);
      SameLength(g, h);
      if g != [] {
        FilterMembers(s, p);
        FilterMembers(t, p);
        assert g[0] in g && h[0] in h;
        assert h[0] in multiset(t);
        assert h[0] in s;
        EstimatePermuted(a, keys[0], g, h);
      }
      EstimatesForPermuted(a, s, t, keys[1..]);
    }
  }

  lemma {:induction false} DistinctAsMultiset(a: seq<string>, b: seq<string>)
    requires forall i, j :: 0 <= i < j < |a| ==> a[i] != a[j]
    requires forall i, j :: 0 <= i < j < |b| ==> b[i] != b[j]
    requires forall k :: k in a <==> k in b
    ensures multiset(a) == multiset(b)
  {
    forall k
      ensures multiset(a)[k] == multiset(b)[k]
    {
      OccursOnce(a, k);
      OccursOnce(b, k);
    }
  }

  lemma {:induction false} OccursOnce(a: seq<string>, k: string)
    requires forall i, j :: 0 <= i < j < |a| ==> a[i] != a[j]
    ensures multiset(a)[k] == if k in a then 1 else 0
  {
    if a != [] {
      OccursOnce(a[1..], k);
      assert a == [a[0]] + a[1..];
      assert a[0] !in a[1..];
    }
  }

  /** The estimates do not depend on the order of the records. */
  lemma {:induction false} EstimatesForgetOrder(a: Arithmetic, s: seq<Record>, t: seq<Record>)
    requires a.Valid() && multiset(s) == multiset(t) && Coherent(s)
    ensures AllEstimates(a, s) == AllEstimates(a, t)
  {
    hide GroupKey, SortBy, EstimatesFor;
    KeysAreKeys(s);
    KeysAreKeys(t);
    assert forall r :: r in s <==> r in multiset(s);
    assert forall r :: r in t <==> r in multiset(t);
    DistinctAsMultiset(Keys(s), Keys(t));
    SortStrings(Keys(s), Keys(t));
    EstimatesForPermuted(a, s, t, SortBy(Keys(t), Identity));
  }

  /** Levels that print alike are alike: no record writes `3` where another writes `"3"`. */
  ghost predicate OneRepresentation(records: seq<Record>) {
    forall r, q, x, y ::
      (r in records && q in records && x in r.scale && y in q.scale && x.level.shown == y.level.shown)
      ==> x.level == y.level
  }

  lemma {:induction false} CleanIsCoherent(records: seq<Record>)
    requires forall r :: r in records ==> Clean(r.variant) && CleanAxes(r.scale)
    requires OneRepresentation(records)
    ensures Coherent(records)
  {
    forall r, q | r in records && q in records && GroupKey(r) == GroupKey(q)
      ensures Agree(r, q)
    {
      KeyIsInjective(r, q);
      SortMembers(r.scale, AxisName);
      SortMembers(q.scale, AxisName);
      PrintedAlike(SortedScale(r), SortedScale(q));
    }
  }

  lemma {:induction false} PrintedAlike(xs: seq<Axis>, ys: seq<Axis>)
    requires SamePrinted(xs, ys)
    requires forall x, y :: x in xs && y in ys && x.level.shown == y.level.shown ==> x.level == y.level
    ensures xs == ys
  {
    forall i | 0 <= i < |xs|
      ensures xs[i] == ys[i]
    {
      assert xs[i] in xs && ys[i] in ys;
    }
  }

  // ------------------------------------------------------- conservation

  /** The records with one of the keys. */
  function Covered(records: seq<Record>, keys: seq<string>): seq<Record> {
    Filter(records, r => GroupKey(r) in keys)
  }

  function RawOf(estimates: seq<Estimate>): seq<string> {
    if estimates == [] then [] else estimates[0].raw + RawOf(estimates[1..])
  }

  lemma {:induction false} RawAppend(a: seq<Estimate>, b: seq<Estimate>)
    ensures RawOf(a + b) == RawOf(a) + RawOf(b)
  {
    if a == [] {
      assert a + b == b;
    } else {
      assert (a + b)[1..] == a[1..] + b;
      RawAppend(a[1..], b);
    }
  }

  /** One more key covers the records of its group besides those covered already. */
  lemma {:induction false} CoverOne(records: seq<Record>, keys: seq<string>)
    requires keys != [] && keys[0] !in keys[1..]
    ensures multiset(Covered(records, keys)) == multiset(Group(records, keys[0]) + Covered(records, keys[1..]))
  {
    hide GroupKey;
    var p := (r: Record) => GroupKey(r) == keys[0];
    var q := (r: Record) => GroupKey(r) in keys;
    var q' := (r: Record) => GroupKey(r) in keys[1..];
    forall x
      ensures multiset(Filter(records, q))[x] == multiset(Filter(records, p))[x] + multiset(Filter(records, q'))[x]
    {
      FilterCounts(records, p, x);
      FilterCounts(records, q, x);
      FilterCounts(records, q', x);
    }
  }

  lemma {:induction false} FilterAppend(a: seq<Record>, b: seq<Record>, p: Record -> bool)
    ensures Filter(a + b, p) == Filter(a, p) + Filter(b, p)
  {
    if a == [] {
      assert a + b == b;
    } else {
      assert (a + b)[1..] == a[1..] + b;
      FilterAppend(a[1..], b, p);
    }
  }

  /** What a group of one kind contributes. */
  lemma {:induction false} EstimateContributes(a: Arithmetic, key: string, group: seq<Record>)
    requires a.Valid() && group != [] && EstimateOf(a, key, group).Ok?
    requires forall r :: r in group ==> Kind(r) == Kind(group[0])
    ensures var es := EstimateOf(a, key, group).value;
            && multiset(RawOf(es)) == multiset(Ids(Filter(group, Counts)))
            && PooledShots(es) == Total(group, Shots)
  {
    hide SortBy, Filter, SortedScale, B.BootstrapInterval, a.Valid, Kind;
    var es := EstimateOf(a, key, group).value;
    SortByPermutes(Ids(Filter(group, Counts)), Identity);
    if !group[0].values.LogicalError? {
      forall r | r in group
        ensures Shots(r) == 0
      {
        SameKind(r, group[0]);
      }
      NoShots(group);
    }
    if es != [] {
      assert es[1..] == [];
      assert es[0].raw + [] == es[0].raw;
      assert es[0].kind == Kind(group[0]);
      assert es[0].kind == "logical_error" <==> group[0].values.LogicalError? by { KindOfLogicalError(group[0]); }
    }
  }

  lemma {:induction false} KindOfLogicalError(r: Record)
    ensures Kind(r) == "logical_error" <==> r.values.LogicalError?
  {
  }

  lemma {:induction false} NoShots(s: seq<Record>)
    requires forall r :: r in s ==> Shots(r) == 0
    ensures Total(s, Shots) == 0
  {
    if s != [] {
      assert s[0] in s;
      NoShots(s[1..]);
    }
  }

  /** The sum of `n` over the logical-error estimates. */
  function PooledShots(estimates: seq<Estimate>): int {
    if estimates == [] then 0
    else (if estimates[0].kind == "logical_error" then estimates[0].n else 0) + PooledShots(estimates[1..])
  }

  lemma {:induction false} PooledAppend(a: seq<Estimate>, b: seq<Estimate>)
    ensures PooledShots(a + b) == PooledShots(a) + PooledShots(b)
  {
    if a == [] {
      assert a + b == b;
    } else {
      assert (a + b)[1..] == a[1..] + b;
      PooledAppend(a[1..], b);
    }
  }

  lemma {:induction false} EstimatesForConserve(a: Arithmetic, records: seq<Record>, keys: seq<string>)
    requires a.Valid() && EstimatesFor(a, records, keys).Ok?
    requires forall i, j :: 0 <= i < j < |keys| ==> keys[i] != keys[j]
    ensures var es := EstimatesFor(a, records, keys).value;
            && multiset(RawOf(es)) == multiset(Ids(Filter(Covered(records, keys), Counts)))
            && PooledShots(es) == Total(Covered(records, keys), Shots)
  {
    hide EstimateOf, Filter, GroupKey, RawOf, PooledShots, a.Valid, Ids;
    if keys == [] {
      NothingCovered(records);
    } else {
      var group, rest := Group(records, keys[0]), Covered(records, keys[1..]);
      EstimatesForConserve(a, records, keys[1..]);
      CoverOne(records, keys);
      CoveredContributes(records, keys);
      if group == [] {
        EmptyGroup();
      } else {
        GroupIsOfOneKind(records, keys[0]);
        EstimateContributes(a, keys[0], group);
        var head, tail := EstimateOf(a, keys[0], group).value, EstimatesFor(a, records, keys[1..]).value;
        RawAppend(head, tail);
        PooledAppend(head, tail);
      }
    }
  }

  lemma {:induction false} EmptyGroup()
    ensures Ids(Filter([], Counts)) == [] && Total([], Shots) == 0
  {
  }

  lemma {:induction false} NothingCovered(records: seq<Record>)
    ensures Covered(records, []) == [] && Filter([], Counts) == [] && Ids([]) == [] && RawOf([]) == []
      && PooledShots([]) == 0
  {
    hide GroupKey;
    if records != [] {
      NothingCovered(records[1..]);
    }
  }

  lemma {:induction false} GroupIsOfOneKind(records: seq<Record>, key: string)
    ensures var group := Group(records, key);
            forall r :: r in group ==> Kind(r) == Kind(group[0])
  {
    hide GroupKey, Filter, Kind;
    var group := Group(records, key);
    FilterMembers(records, r => GroupKey(r) == key);
    forall r | r in group
      ensures Kind(r) == Kind(group[0])
    {
      assert group[0] in group;
      KeyTellsKind(r, group[0]);
    }
  }

  lemma {:induction false} CoveredContributes(records: seq<Record>, keys: seq<string>)
    requires keys != [] && keys[0] !in keys[1..]
    ensures var group, rest := Group(records, keys[0]), Covered(records, keys[1..]);
            && multiset(Ids(Filter(Covered(records, keys), Counts)))
               == multiset(Ids(Filter(group, Counts))) + multiset(Ids(Filter(rest, Counts)))
            && Total(Covered(records, keys), Shots) == Total(group, Shots) + Total(rest, Shots)
  {
    hide Group, Covered, Filter, Ids, Total;
    CoverOne(records, keys);
    IdsOfParts(Covered(records, keys), Group(records, keys[0]), Covered(records, keys[1..]));
    TotalPermuted(Covered(records, keys), Group(records, keys[0]) + Covered(records, keys[1..]), Shots);
    TotalAppend(Group(records, keys[0]), Covered(records, keys[1..]), Shots);
  }

  lemma {:induction false} IdsOfParts(all: seq<Record>, a: seq<Record>, b: seq<Record>)
    requires multiset(all) == multiset(a + b)
    ensures multiset(Ids(Filter(all, Counts))) == multiset(Ids(Filter(a, Counts))) + multiset(Ids(Filter(b, Counts)))
  {
    hide Filter;
    FilterPermuted(all, a + b, Counts);
    FilterAppend(a, b, Counts);
    MappedPermuted(Filter(all, Counts), Filter(a, Counts) + Filter(b, Counts));
    assert Ids(Filter(a, Counts) + Filter(b, Counts)) == Ids(Filter(a, Counts)) + Ids(Filter(b, Counts));
  }

  /**
   Every record except timing warmups is listed by exactly one estimate, and the logical-error estimates account
   for exactly the shots recorded.
  */
  lemma {:induction false} EstimatesConserve(a: Arithmetic, records: seq<Record>)
    requires a.Valid() && AllEstimates(a, records).Ok?
    ensures var es := AllEstimates(a, records).value;
            && multiset(RawOf(es)) == multiset(Ids(Filter(records, Counts)))
            && PooledShots(es) == Total(records, Shots)
  {
    hide GroupKey, SortBy, EstimatesFor, Filter, RawOf, PooledShots, Ids, Total;
    var keys := SortBy(Keys(records), Identity);
    KeysAreKeys(records);
    SortMembers(Keys(records), Identity);
    SortByPermutes(Keys(records), Identity);
    SortedDistinct(Keys(records), keys);
    EstimatesForConserve(a, records, keys);
    AllCovered(records, keys);
  }

  lemma {:induction false} SortedDistinct(a: seq<string>, b: seq<string>)
    requires multiset(a) == multiset(b) && forall i, j :: 0 <= i < j < |a| ==> a[i] != a[j]
    ensures forall i, j :: 0 <= i < j < |b| ==> b[i] != b[j]
  {
    var p := MatchPermuted(b, a);
    forall i, j | 0 <= i < j < |b|
      ensures b[i] != b[j]
    {
      assert p[i] != p[j];
    }
  }

  lemma {:induction false} AllCovered(records: seq<Record>, keys: seq<string>)
    requires forall r :: r in records ==> GroupKey(r) in keys
    ensures Covered(records, keys) == records
  {
    hide GroupKey;
    if records != [] {
      assert records[0] in records;
      AllCovered(records[1..], keys);
      assert records == [records[0]] + records[1..];
    }
  }

  /** With the arithmetic of the code, the interval of a group is the Wilson interval of its pooled counts. */
  lemma {:induction false} PooledIntervalIsWilson(sqrt: real -> real, draw: B.Generator, round: real -> real,
                                                  group: seq<Record>)
    requires Monotone(round)
    requires var e, n := Total(group, Errors), Total(group, Shots);
             0 <= e <= n && n > 0 ==> IsSquareRoot(sqrt(Radicand(e, n)), Radicand(e, n))
    ensures var r := PooledInterval(Exact(sqrt, draw, round), group);
            var e, n := Total(group, Errors), Total(group, Shots);
            && (r.Ok? <==> 0 <= e <= n && n > 0)
            && (r.Ok? ==> r.value.low <= r.value.point <= r.value.high && r.value.point == round(Rate(e, n)))
  {
    hide WilsonInterval, Total, Radicand, Rate, IsSquareRoot;
    var e, n := Total(group, Errors), Total(group, Shots);
    WilsonIsOrdered(e, n, RootFor(sqrt, e, n), round);
  }

  // ------------------------------------------------------------ splitting

  /** `r` is a logical-error record, and `r1` and `r2` are two parts of it. */
  predicate SplitsInto(r: Record, r1: Record, r2: Record) {
    && r.values.LogicalError? && r1.values.LogicalError? && r2.values.LogicalError?
    && r1.variant == r2.variant == r.variant && r1.scale == r2.scale == r.scale
    && r.values.shots == r1.values.shots + r2.values.shots
    && r.values.errors == r1.values.errors + r2.values.errors
  }

  /** Splitting a logical-error record in two leaves the totals and the interval of its group alone. */
  lemma {:induction false} SplitKeepsTotals(a: Arithmetic, before: seq<Record>, r: Record, r1: Record, r2: Record,
                                            after: seq<Record>)
    requires a.Valid() && SplitsInto(r, r1, r2)
    ensures GroupKey(r1) == GroupKey(r) == GroupKey(r2)
    ensures var g := Group(before + [r] + after, GroupKey(r));
            var h := Group(before + [r1, r2] + after, GroupKey(r));
            && g == Group(before, GroupKey(r)) + [r] + Group(after, GroupKey(r))
            && h == Group(before, GroupKey(r)) + [r1, r2] + Group(after, GroupKey(r))
            && Total(h, Shots) == Total(g, Shots) && PooledInterval(a, h) == PooledInterval(a, g)
    ensures forall key :: key != GroupKey(r) ==>
              Group(before + [r1, r2] + after, key) == Group(before + [r] + after, key)
  {
    hide SortBy, PrintAxes, a.Valid;
    assert GroupKey(r1) == GroupKey(r) == GroupKey(r2);
    forall key
      ensures Group(before + [r1, r2] + after, key)
           == Group(before, key) + (if key == GroupKey(r) then [r1, r2] else []) + Group(after, key)
      ensures Group(before + [r] + after, key)
           == Group(before, key) + (if key == GroupKey(r) then [r] else []) + Group(after, key)
    {
      GroupAround(before, [r1, r2], after, key);
      GroupAround(before, [r], after, key);
      GroupOfTwo(r1, r2, key);
      GroupOfTwo(r, r, key);
    }
    var key := GroupKey(r);
    TotalsAround(Group(before, key), r, r1, r2, Group(after, key), Shots);
    TotalsAround(Group(before, key), r, r1, r2, Group(after, key), Errors);
  }

  lemma {:induction false} GroupAround(before: seq<Record>, middle: seq<Record>, after: seq<Record>, key: string)
    ensures Group(before + middle + after, key) == Group(before, key) + Group(middle, key) + Group(after, key)
  {
    var p := (r: Record) => GroupKey(r) == key;
    FilterAppend(before + middle, after, p);
    FilterAppend(before, middle, p);
  }

  lemma {:induction false} GroupOfTwo(x: Record, y: Record, key: string)
    requires GroupKey(x) == GroupKey(y)
    ensures Group([x, y], key) == if key == GroupKey(x) then [x, y] else []
    ensures Group([x], key) == if key == GroupKey(x) then [x] else []
  {
    hide GroupKey;
    assert [x][1..] == [] && [x, y][1..] == [y] && [y][1..] == [];
    var p := (r: Record) => GroupKey(r) == key;
    assert Filter([y], p) == (if p(y) then [y] else []) + Filter([], p);
  }

  lemma {:induction false} TotalsAround(before: seq<Record>, r: Record, r1: Record, r2: Record, after: seq<Record>,
                                        f: Record -> int)
    requires f(r) == f(r1) + f(r2)
    ensures Total(before + [r1, r2] + after, f) == Total(before + [r] + after, f)
  {
    TotalAppend(before + [r1, r2], after, f);
    TotalAppend(before, [r1, r2], f);
    TotalAppend(before + [r], after, f);
    TotalAppend(before, [r], f);
    assert [r][1..] == [] && [r1, r2][1..] == [r2] && [r2][1..] == [];
    assert Total([r2], f) == f(r2) + Total([], f);
  }

  /** Two lists of estimates that agree but for the record ids listed under one key. */
  ghost predicate SameButRaw(xs: seq<Estimate>, ys: seq<Estimate>, key: string) {
    |xs| == |ys| && forall k :: 0 <= k < |xs| ==>
      (if xs[k].group == key then ys[k] == xs[k].(raw := ys[k].raw) else ys[k] == xs[k])
  }

  /** Both computations are refused for the same reason, or give such lists. */
  ghost predicate SameOutcome(x: Result<seq<Estimate>, StatisticsError>, y: Result<seq<Estimate>, StatisticsError>,
                              key: string) {
    match x
    case Ok(xs) => y.Ok? && SameButRaw(xs, y.value, key)
    case Err(e) => y == x
  }

  lemma {:induction false} GroupHasKind(records: seq<Record>, key: string, r: Record)
    requires GroupKey(r) == key
    ensures forall q :: q in Group(records, key) ==> Kind(q) == Kind(r)
  {
    hide GroupKey;
    FilterMembers(records, q => GroupKey(q) == key);
    forall q | q in Group(records, key) ensures Kind(q) == Kind(r) {
      KeyTellsKind(q, r);
    }
  }

  /** The estimate of the group itself: only the list of record ids changes. */
  lemma {:induction false} EstimateOfSplit(a: Arithmetic, key: string, u: seq<Record>, r: Record, r1: Record,
                                           r2: Record, v: seq<Record>)
    requires a.Valid() && SplitsInto(r, r1, r2) && forall q :: q in u ==> Kind(q) == Kind(r)
    requires var g, h := u + [r] + v, u + [r1, r2] + v;
             Total(h, Shots) == Total(g, Shots) && PooledInterval(a, h) == PooledInterval(a, g)
    ensures SameOutcome(EstimateOf(a, key, u + [r] + v), EstimateOf(a, key, u + [r1, r2] + v), key)
  {
    hide SortBy, Filter, SortedScale, PooledInterval, Total, a.Valid;
    var g, h := u + [r] + v, u + [r1, r2] + v;
    if u != [] {
      assert u[0] in u && g[0] == u[0] && h[0] == u[0];
      SameKind(u[0], r);
    } else {
      assert g[0] == r && h[0] == r1;
    }
    assert SortedScale(r) == SortedScale(r1) by { SameScale(r, r1); }
    assert g[0].values.LogicalError? && h[0].values.LogicalError?;
    LogicalEstimate(a, key, g);
    LogicalEstimate(a, key, h);
    assert Kind(h[0]) == Kind(g[0]) && h[0].variant == g[0].variant && SortedScale(h[0]) == SortedScale(g[0]);
  }

  lemma {:induction false} SameScale(r: Record, q: Record)
    requires r.scale == q.scale
    ensures SortedScale(r) == SortedScale(q)
  {
  }

  lemma {:induction false} LogicalEstimate(a: Arithmetic, key: string, group: seq<Record>)
    requires a.Valid() && group != [] && group[0].values.LogicalError?
    ensures EstimateOf(a, key, group) == match PooledInterval(a, group)
      case Err(e) => Err(e)
      case Ok(interval) =>
        Ok([Estimate(key, Kind(group[0]), group[0].variant, SortedScale(group[0]), interval, Total(group, Shots), None,
                     "wilson_score_95", SortBy(Ids(Filter(group, Counts)), Identity))])
  {
    hide SortBy, Filter, SortedScale, Total, Ids;
  }

  lemma {:induction false} SameOutcomeAfter(x: seq<Estimate>, y: seq<Estimate>,
      s: Result<seq<Estimate>, StatisticsError>, t: Result<seq<Estimate>, StatisticsError>, key: string)
    requires SameButRaw(x, y, key) && SameOutcome(s, t, key)
    ensures SameOutcome(After(x, s), After(y, t), key)
  {
  }

  lemma {:induction false} SameIsSame(x: Result<seq<Estimate>, StatisticsError>, key: string)
    ensures SameOutcome(x, x, key)
  {
  }

  lemma {:induction false} EstimatesForSplit(a: Arithmetic, s: seq<Record>, t: seq<Record>, keys: seq<string>,
                                             key: string)
    requires a.Valid() && forall k :: k != key ==> Group(t, k) == Group(s, k)
    requires Group(s, key) != [] && Group(t, key) != []
    requires SameOutcome(EstimateOf(a, key, Group(s, key)), EstimateOf(a, key, Group(t, key)), key)
    ensures SameOutcome(EstimatesFor(a, s, keys), EstimatesFor(a, t, keys), key)
  {
    hide EstimateOf, Group, SameButRaw;
    if keys == [] {
      SameIsSame(EstimatesFor(a, s, keys), key);
    } else {
      EstimatesForSplit(a, s, t, keys[1..], key);
      var g, h := Group(s, keys[0]), Group(t, keys[0]);
      if g != [] {
        SameIsSame(EstimateOf(a, keys[0], g), key);
        var x, y := EstimateOf(a, keys[0], g), EstimateOf(a, keys[0], h);
        assert SameOutcome(x, y, key);
        if x.Ok? {
          SameOutcomeAfter(x.value, y.value, EstimatesFor(a, s, keys[1..]), EstimatesFor(a, t, keys[1..]), key);
        }
      }
    }
  }

  /**
   Splitting a logical-error record in two changes nothing in the list of estimates but the record ids of its group:
   group, point, interval and `n` of every estimate, their order, and a refusal stay as they were.
  */
  lemma {:induction false} SplitKeepsEstimate(a: Arithmetic, before: seq<Record>, r: Record, r1: Record, r2: Record,
                                              after: seq<Record>)
    requires a.Valid() && SplitsInto(r, r1, r2)
    ensures SameOutcome(AllEstimates(a, before + [r] + after), AllEstimates(a, before + [r1, r2] + after), GroupKey(r))
  {
    hide GroupKey, SortBy, EstimatesFor, EstimateOf, Group, SplitsInto, SameOutcome, PooledInterval, Total;
    var s, t := before + [r] + after, before + [r1, r2] + after;
    var key := GroupKey(r);
    SplitKeepsTotals(a, before, r, r1, r2, after);
    GroupHasKind(before, key, r);
    EstimateOfSplit(a, key, Group(before, key), r, r1, r2, Group(after, key));
    KeysAreKeys(s);
    KeysAreKeys(t);
    assert r in s && r1 in t;
    forall k ensures k in Keys(s) <==> k in Keys(t) {
      SplitKeys(before, r, r1, r2, after, k);
    }
    DistinctAsMultiset(Keys(s), Keys(t));
    SortStrings(Keys(s), Keys(t));
    EstimatesForSplit(a, s, t, SortBy(Keys(s), Identity), key);
  }

  lemma {:induction false} SplitKeys(before: seq<Record>, r: Record, r1: Record, r2: Record, after: seq<Record>,
                                     k: string)
    requires GroupKey(r1) == GroupKey(r) == GroupKey(r2)
    ensures (exists q :: q in before + [r] + after && GroupKey(q) == k)
      <==> (exists q :: q in before + [r1, r2] + after && GroupKey(q) == k)
  {
    hide GroupKey;
    var s, t := before + [r] + after, before + [r1, r2] + after;
    assert forall q :: q in s <==> q in before || q == r || q in after;
    assert forall q :: q in t <==> q in before || q == r1 || q == r2 || q in after;
    assert r in s && r1 in t;
  }
}
