/**
 Summary estimates derived from raw benchmark records: grouping by a textual key and one estimate per group. The
 derivation forgets the order of the records, puts every record into exactly one estimate, and conserves shots.
*/
module Estimates {
  import opened Prelude
  import opened Sorting
  import opened Statistics
  import B = Bootstrap

  // ------------------------------------------------------------- records

  /** A scale level is text or a number; `shown` is how it prints. */
  datatype Level = Word(shown: string) | Number(shown: string)

  datatype Axis = Axis(name: string, level: Level)

  datatype Measurement =
    | LogicalError(shots: int, errors: int)
    | Timing(measured: bool, elapsed: real)
    | Bytes(input: int, output: int)
    | Scalar(value: real)

  /** The axes of a scale have different names. */
  datatype Record = Record(id: string, variant: string, scale: seq<Axis>, values: Measurement)

  function Kind(r: Record): string {
    match r.values
    case LogicalError(_, _) => "logical_error"
    case Timing(_, _) => "timing"
    case Bytes(_, _) => "bytes"
    case Scalar(_) => "scalar"
  }

  function AxisName(a: Axis): string {
    a.name
  }

  function SortedScale(r: Record): seq<Axis> {
    SortBy(r.scale, AxisName)
  }

  function PrintAxes(axes: seq<Axis>): string {
    if axes == [] then ""
    else axes[0].name + "=" + axes[0].level.shown + if |axes| == 1 then "" else "," + PrintAxes(axes[1..])
  }

  /** `group_key` */
  function GroupKey(r: Record): string {
    Kind(r) + "|" + r.variant + "|" + PrintAxes(SortedScale(r))
  }

  // ------------------------------------------------- keys identify groups

  predicate Clean(s: string) {
    '|' !in s && ',' !in s && '=' !in s
  }

  predicate CleanAxes(axes: seq<Axis>) {
    forall a :: a in axes ==> Clean(a.name) && Clean(a.level.shown)
  }

  /** What a group has in common: kind, variant and scale as printed. */
  predicate SamePrinted(xs: seq<Axis>, ys: seq<Axis>) {
    |xs| == |ys| && forall i :: 0 <= i < |xs| ==> xs[i].name == ys[i].name && xs[i].level.shown == ys[i].level.shown
  }

  lemma {:induction false} SplitAt(a: string, b: string, c: char, u: string, v: string)
    requires c !in a && c !in b && a + [c] + u == b + [c] + v
    ensures a == b && u == v
  {
    assert a == "" <==> (a + [c] + u)[0] == c;
    assert b == "" <==> (b + [c] + v)[0] == c;
    if a == "" {
      assert u == (a + [c] + u)[1..] && v == (b + [c] + v)[1..];
    } else {
      assert a[0] == (a + [c] + u)[0] == (b + [c] + v)[0] == b[0];
      assert a[1..] + [c] + u == (a + [c] + u)[1..];
      assert b[1..] + [c] + v == (b + [c] + v)[1..];
      SplitAt(a[1..], b[1..], c, u, v);
      assert a == [a[0]] + a[1..] && b == [b[0]] + b[1..];
    }
  }

  /** Two levels, each followed by nothing or by a comma and more axes. */
  lemma {:induction false} SplitTail(a: string, b: string, u: string, v: string)
    requires ',' !in a && ',' !in b && a + u == b + v
    requires (u == "" || u[0] == ',') && (v == "" || v[0] == ',')
    ensures a == b && u == v
  {
    assert (a + u) + "," == a + (u + ",") && (b + v) + "," == b + (v + ",");
    var u', v' := (u + ",")[1..], (v + ",")[1..];
    assert u + "," == [','] + u' && v + "," == [','] + v';
    assert a + [','] + u' == a + ([','] + u') && b + [','] + v' == b + ([','] + v');
    SplitAt(a, b, ',', u', v');
    assert u + "," == v + ",";
    assert u == (u + ",")[..|u|] && v == (v + ",")[..|v|];
  }

  function MoreAxes(axes: seq<Axis>): string
    requires axes != []
  {
    if |axes| == 1 then "" else "," + PrintAxes(axes[1..])
  }

  lemma {:induction false} AxesInjective(xs: seq<Axis>, ys: seq<Axis>)
    requires CleanAxes(xs) && CleanAxes(ys) && PrintAxes(xs) == PrintAxes(ys)
    ensures SamePrinted(xs, ys)
  {
    hide PrintAxes;
    AxesShape(xs);
    AxesShape(ys);
    if xs != [] && ys != [] {
      var x, y := xs[0], ys[0];
      assert x in xs && y in ys;
      SplitAt(x.name, y.name, '=', x.level.shown + MoreAxes(xs), y.level.shown + MoreAxes(ys));
      SplitTail(x.level.shown, y.level.shown, MoreAxes(xs), MoreAxes(ys));
      assert |xs| == 1 <==> |ys| == 1;
      if |xs| > 1 {
        assert MoreAxes(xs)[1..] == PrintAxes(xs[1..]) && MoreAxes(ys)[1..] == PrintAxes(ys[1..]);
        AxesInjective(xs[1..], ys[1..]);
        assert forall i :: 0 < i < |xs| ==> xs[i] == xs[1..][i - 1] && ys[i] == ys[1..][i - 1];
      }
    }
  }

  lemma {:induction false} AxesShape(axes: seq<Axis>)
    ensures PrintAxes(axes) == "" <==> axes == []
    ensures axes != [] ==> PrintAxes(axes) == axes[0].name + ['='] + (axes[0].level.shown + MoreAxes(axes))
  {
  }

  /** The kind can be read off the key, whatever the labels contain. */
  lemma {:induction false} KeyTellsKind(r: Record, q: Record)
    requires GroupKey(r) == GroupKey(q)
    ensures Kind(r) == Kind(q)
    ensures r.variant + "|" + PrintAxes(SortedScale(r)) == q.variant + "|" + PrintAxes(SortedScale(q))
  {
    hide SortedScale;
    var u, v := r.variant + "|" + PrintAxes(SortedScale(r)), q.variant + "|" + PrintAxes(SortedScale(q));
    assert GroupKey(r) == Kind(r) + ['|'] + u && GroupKey(q) == Kind(q) + ['|'] + v;
    SplitAt(Kind(r), Kind(q), '|', u, v);
  }

  /** On labels free of separators the key is injective on kind, variant and printed scale. */
  lemma {:induction false} KeyIsInjective(r: Record, q: Record)
    requires Clean(r.variant) && CleanAxes(r.scale) && Clean(q.variant) && CleanAxes(q.scale)
    ensures GroupKey(r) == GroupKey(q)
       <==> Kind(r) == Kind(q) && r.variant == q.variant && SamePrinted(SortedScale(r), SortedScale(q))
  {
    SortMembers(r.scale, AxisName);
    SortMembers(q.scale, AxisName);
    assert CleanAxes(SortedScale(r)) && CleanAxes(SortedScale(q));
    hide SortedScale, SortBy, CleanAxes, PrintAxes;
    if GroupKey(r) == GroupKey(q) {
      KeyTellsKind(r, q);
      SplitAt(r.variant, q.variant, '|', PrintAxes(SortedScale(r)), PrintAxes(SortedScale(q)));
      AxesInjective(SortedScale(r), SortedScale(q));
    } else if SamePrinted(SortedScale(r), SortedScale(q)) {
      SamePrintedSame(SortedScale(r), SortedScale(q));
    }
  }

  lemma {:induction false} SamePrintedSame(xs: seq<Axis>, ys: seq<Axis>)
    requires SamePrinted(xs, ys)
    ensures PrintAxes(xs) == PrintAxes(ys)
  {
    if |xs| > 1 {
      SamePrintedSame(xs[1..], ys[1..]);
    }
  }

  // ----------------------------------------------------------- estimates

  datatype Estimate = Estimate(group: string, kind: string, variant: string, scale: seq<Axis>, interval: Interval,
                               n: int, warmups: Option<nat>, rule: string, raw: seq<string>)

  /** The arithmetic the estimates rest on: the interval of a count, the generator, rounding. */
  datatype Arithmetic = Arithmetic(wilson: (int, int) -> Result<Interval, StatisticsError>, draw: B.Generator,
                                   round: real -> real) {
    ghost predicate Valid() {
      B.InRange(draw)
    }
  }

  function Filter(s: seq<Record>, p: Record -> bool): seq<Record> {
    if s == [] then [] else (if p(s[0]) then [s[0]] else []) + Filter(s[1..], p)
  }

  function Total(s: seq<Record>, f: Record -> int): int {
    if s == [] then 0 else f(s[0]) + Total(s[1..], f)
  }

  function Ids(s: seq<Record>): seq<string> {
    seq(|s|, i requires 0 <= i < |s| => s[i].id)
  }

  function Numbers(s: seq<Record>): seq<real> {
    seq(|s|, i requires 0 <= i < |s| => Reading(s[i]))
  }

  function Identity(s: string): string {
    s
  }

  function Shots(r: Record): int {
    if r.values.LogicalError? then r.values.shots else 0
  }

  function Errors(r: Record): int {
    if r.values.LogicalError? then r.values.errors else 0
  }

  function Input(r: Record): int {
    if r.values.Bytes? then r.values.input else 0
  }

  function Output(r: Record): int {
    if r.values.Bytes? then r.values.output else 0
  }

  function Reading(r: Record): real {
    match r.values
    case Timing(_, elapsed) => elapsed
    case Scalar(value) => value
    case _ => 0.0
  }

  predicate IsWarmup(r: Record) {
    r.values.Timing? && !r.values.measured
  }

  predicate Counts(r: Record) {
    !IsWarmup(r)
  }

  /** The arithmetic of the code, given a square root, a generator and a rounding. */
  function Exact(sqrt: real -> real, draw: B.Generator, round: real -> real): Arithmetic {
    Arithmetic((errors: int, shots: int) => WilsonInterval(errors, shots, RootFor(sqrt, errors, shots), round), draw,
               round)
  }

  function RootFor(sqrt: real -> real, errors: int, shots: int): real {
    if 0 <= errors <= shots && shots > 0 then sqrt(Radicand(errors, shots)) else 0.0
  }

  /** The interval of a group of logical-error records: the pooled counts. */
  function PooledInterval(a: Arithmetic, group: seq<Record>): Result<Interval, StatisticsError> {
    a.wilson(Total(group, Errors), Total(group, Shots))
  }

  function Ratio(a: Arithmetic, group: seq<Record>): Interval {
    var input, output := Total(group, Input), Total(group, Output);
    var ratio := if input != 0 then a.round(output as real / input as real) else 0.0;
    Interval(ratio, ratio, ratio)
  }

  /** The estimate of one group, if it has one: warmups alone give none. */
  function EstimateOf(a: Arithmetic, key: string, group: seq<Record>): Result<seq<Estimate>, StatisticsError>
    requires group != [] && a.Valid()
  {
    var first := group[0];
    var used := Filter(group, Counts);
    var ids := SortBy(Ids(used), Identity);
    var make := (i: Interval, n: int, warmups: Option<nat>, rule: string) =>
      Ok([Estimate(key, Kind(first), first.variant, SortedScale(first), i, n, warmups, rule, ids)]);
    match first.values
    case LogicalError(_, _) =>
      (match PooledInterval(a, group)
       case Ok(interval) => make(interval, Total(group, Shots), None, "wilson_score_95")
       case Err(e) => Err(e))
    case Timing(_, _) =>
      if used == [] then Ok([])
      else
        (match B.BootstrapInterval(Numbers(used), a.draw, a.round)
         case Ok(interval) => make(interval, |used|, Some(|Filter(group, IsWarmup)|), "bootstrap_percentile_95")
         case Err(e) => Err(e))
    case Bytes(_, _) => make(Ratio(a, group), |group|, None, "deterministic_ratio")
    case Scalar(_) =>
      (match B.BootstrapInterval(Numbers(group), a.draw, a.round)
       case Ok(interval) => make(interval, |group|, None, "bootstrap_percentile_95")
       case Err(e) => Err(e))
  }

  /** The records with a given key. */
  function Group(records: seq<Record>, key: string): seq<Record> {
    Filter(records, r => GroupKey(r) == key)
  }

  /** The keys in the order in which they first occur. */
  function Keys(records: seq<Record>): seq<string> {
    if records == [] then []
    else
      var n := |records| - 1;
      var keys := Keys(records[..n]);
      if GroupKey(records[n]) in keys then keys else keys + [GroupKey(records[n])]
  }

  function EstimatesFor(a: Arithmetic, records: seq<Record>, keys: seq<string>): Result<seq<Estimate>, StatisticsError>
    requires a.Valid()
  {
    if keys == [] then Ok([])
    else
      var group := Group(records, keys[0]);
      if group == [] then EstimatesFor(a, records, keys[1..])
      else match EstimateOf(a, keys[0], group)
        case Err(e) => Err(e)
        case Ok(head) => After(head, EstimatesFor(a, records, keys[1..]))
  }

  /** What comes after the estimates already made. */
  function After(head: seq<Estimate>, rest: Result<seq<Estimate>, StatisticsError>)
    : Result<seq<Estimate>, StatisticsError>
  {
    match rest
    case Ok(tail) => Ok(head + tail)
    case Err(e) => Err(e)
  }

  lemma {:induction false} AfterTwice(a: seq<Estimate>, b: seq<Estimate>, rest: Result<seq<Estimate>, StatisticsError>)
    ensures After(a, After(b, rest)) == After(a + b, rest) && After([], rest) == rest
  {
    if rest.Ok? {
      assert (a + b) + rest.value == a + (b + rest.value);
      assert [] + rest.value == rest.value;
    }
  }

  function AllEstimates(a: Arithmetic, records: seq<Record>): Result<seq<Estimate>, StatisticsError>
    requires a.Valid()
  {
    EstimatesFor(a, records, SortBy(Keys(records), Identity))
  }

  // ------------------------------------------------ the loops of the code

  lemma {:induction false} FilterSnoc(s: seq<Record>, x: Record, p: Record -> bool)
    ensures Filter(s + [x], p) == Filter(s, p) + if p(x) then [x] else []
  {
    if s == [] {
      assert s + [x] == [x] && [x][1..] == [];
      assert Filter([x], p) == (if p(x) then [x] else []) + Filter([], p);
    } else {
      var head := if p(s[0]) then [s[0]] else [];
      assert (s + [x])[0] == s[0] && (s + [x])[1..] == s[1..] + [x];
      FilterSnoc(s[1..], x, p);
      assert head + (Filter(s[1..], p) + if p(x) then [x] else [])
          == (head + Filter(s[1..], p)) + if p(x) then [x] else [];
    }
  }

  lemma {:induction false} KeysAreKeys(records: seq<Record>)
    ensures forall k :: k in Keys(records) <==> exists r :: r in records && GroupKey(r) == k
    ensures forall i, j :: 0 <= i < j < |Keys(records)| ==> Keys(records)[i] != Keys(records)[j]
  {
    hide GroupKey;
    if records != [] {
      var n := |records| - 1;
      KeysAreKeys(records[..n]);
      assert records == records[..n] + [records[n]];
    }
  }

  /** `derive_estimates`: fills the groups record by record, then estimates them in the order of their keys. */
  method DeriveEstimates(a: Arithmetic, records: seq<Record>) returns (r: Result<seq<Estimate>, StatisticsError>)
    requires a.Valid()
    ensures r == AllEstimates(a, records)
  {
    hide GroupKey, EstimateOf, SortBy, Filter;
    var groups: map<string, seq<Record>> := map[];
    var order: seq<string> := [];
    for i := 0 to |records|
      invariant order == Keys(records[..i])
      invariant forall k :: k in groups <==> k in order
      invariant forall k :: k in groups ==> groups[k] == Group(records[..i], k)
    {
      var key := GroupKey(records[i]);
      assert records[..i + 1] == records[..i] + [records[i]];
      KeysAreKeys(records[..i]);
      forall k
        ensures Group(records[..i + 1], k) == Group(records[..i], k) + if key == k then [records[i]] else []
      {
        FilterSnoc(records[..i], records[i], r => GroupKey(r) == k);
      }
      if key in groups {
        groups := groups[key := groups[key] + [records[i]]];
      } else {
        NoGroup(records[..i], key);
        groups := groups[key := [records[i]]];
        order := order + [key];
      }
    }
    assert records[..|records|] == records;
    SortMembers(order, Identity);
    r := EstimateGroups(a, records, groups, SortBy(order, Identity));
  }

  method EstimateGroups(a: Arithmetic, ghost records: seq<Record>, groups: map<string, seq<Record>>, keys: seq<string>)
    returns (r: Result<seq<Estimate>, StatisticsError>)
    requires a.Valid()
    requires forall k :: k in keys ==> k in Keys(records) && k in groups && groups[k] == Group(records, k)
    ensures r == EstimatesFor(a, records, keys)
  {
    hide EstimateOf, Group, Keys;
    var estimates: seq<Estimate> := [];
    assert keys[0..] == keys;
    AfterTwice([], [], EstimatesFor(a, records, keys));
    for i := 0 to |keys|
      invariant EstimatesFor(a, records, keys) == After(estimates, EstimatesFor(a, records, keys[i..]))
    {
      assert keys[i] in keys;
      KeysAreKeys(records);
      GroupNotEmpty(records, keys[i]);
      assert keys[i..][1..] == keys[i + 1..];
      var group := groups[keys[i]];
      match EstimateOf(a, keys[i], group) {
        case Err(e) => return Err(e);
        case Ok(head) =>
          AfterTwice(estimates, head, EstimatesFor(a, records, keys[i + 1..]));
          estimates := estimates + head;
      }
    }
    assert keys[|keys|..] == [];
    assert estimates + [] == estimates;
    return Ok(estimates);
  }

  lemma {:induction false} NoGroup(records: seq<Record>, key: string)
    requires forall r :: r in records ==> GroupKey(r) != key
    ensures Group(records, key) == []
  {
    hide GroupKey;
    if records != [] {
      assert records[0] in records;
      NoGroup(records[1..], key);
    }
  }

  lemma {:induction false} GroupNotEmpty(records: seq<Record>, key: string)
    requires exists r :: r in records && GroupKey(r) == key
    ensures Group(records, key) != [] && GroupKey(Group(records, key)[0]) == key
  {
    hide GroupKey;
    if GroupKey(records[0]) != key {
      assert records == [records[0]] + records[1..];
      GroupNotEmpty(records[1..], key);
    }
  }
}
