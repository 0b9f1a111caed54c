/** What every derived estimate says of the records of its group, and which groups have one. */
module EstimateSays {
  import opened Prelude
  import opened Sorting
  import opened Statistics
  import opened Estimates
  import opened EstimateLaws
  import B = Bootstrap

  // ----------------------------------------------------------- pooled sums

  /** A byte record among others adds its input to the inputs, its output to the outputs, and nothing else. */
  lemma {:induction false} BytesAdd(before: seq<Record>, r: Record, after: seq<Record>)
    requires r.values.Bytes?
    ensures Total(before + [r] + after, Input) == Total(before + after, Input) + r.values.input
    ensures Total(before + [r] + after, Output) == Total(before + after, Output) + r.values.output
    ensures Total(before + [r] + after, Shots) == Total(before + after, Shots)
    ensures Total(before + [r] + after, Errors) == Total(before + after, Errors)
  {
    OneAdds(before, r, after, Input);
    OneAdds(before, r, after, Output);
    OneAdds(before, r, after, Shots);
    OneAdds(before, r, after, Errors);
  }

  /** A logical-error record among others adds its shots to the shots and its errors to the errors. */
  lemma {:induction false} LogicalErrorsAdd(before: seq<Record>, r: Record, after: seq<Record>)
    requires r.values.LogicalError?
    ensures Total(before + [r] + after, Shots) == Total(before + after, Shots) + r.values.shots
    ensures Total(before + [r] + after, Errors) == Total(before + after, Errors) + r.values.errors
  {
    OneAdds(before, r, after, Shots);
    OneAdds(before, r, after, Errors);
  }

  lemma {:induction false} OneAdds(before: seq<Record>, r: Record, after: seq<Record>, f: Record -> int)
    ensures Total(before + [r] + after, f) == Total(before + after, f) + f(r)
  {
    TotalAppend(before + [r], after, f);
    TotalAppend(before, [r], f);
    TotalAppend(before, after, f);
    assert [r][1..] == [];
  }

  // ---------------------------------------------------------------- ratios

  predicate IsRatio(ratio: real, input: int, output: int) {
    ratio * input as real == output as real
  }

  /** The ratio times the pooled input is the pooled output, up to the final rounding; no input has ratio zero. */
  lemma {:induction false} RatioIsExact(a: Arithmetic, group: seq<Record>) returns (ratio: real)
    ensures Ratio(a, group) == Interval(Ratio(a, group).point, Ratio(a, group).point, Ratio(a, group).point)
    ensures Total(group, Input) == 0 ==> Ratio(a, group).point == 0.0
    ensures Total(group, Input) != 0 ==>
      IsRatio(ratio, Total(group, Input), Total(group, Output)) && Ratio(a, group).point == a.round(ratio)
  {
    hide Total;
    var input, output := Total(group, Input), Total(group, Output);
    ratio := if input != 0 then output as real / input as real else 0.0;
  }

  // -------------------------------------------------------------- readings

  /** The times or values measured, one by one. */
  predicate AreReadings(readings: seq<real>, used: seq<Record>) {
    |readings| == |used| && forall i :: 0 <= i < |used| ==> ReadingIs(readings[i], used[i].values)
  }

  predicate ReadingIs(reading: real, values: Measurement) {
    match values
    case Timing(_, elapsed) => reading == elapsed
    case Scalar(value) => reading == value
    case _ => true
  }

  /** The interval is the bootstrap of the readings, about their median. */
  ghost predicate AboutMedian(a: Arithmetic, interval: Interval, used: seq<Record>)
    requires a.Valid()
  {
    exists readings ::
      && AreReadings(readings, used) && readings != [] && interval.point == a.round(B.Median(readings))
      && B.BootstrapInterval(readings, a.draw, a.round) == Ok(interval)
  }

  lemma {:induction false} PointIsMedian(values: seq<real>, draw: B.Generator, round: real -> real)
    requires B.InRange(draw)
    ensures B.BootstrapInterval(values, draw, round).Ok? <==> values != []
    ensures values != [] ==> B.BootstrapInterval(values, draw, round).value.point == round(B.Median(values))
  {
    hide B.Sort, B.Median, B.Medians;
    if values != [] {
      B.MedianOfSorted(values);
    }
  }

  lemma {:induction false} BootstrapSays(a: Arithmetic, interval: Interval, used: seq<Record>)
    requires a.Valid() && B.BootstrapInterval(Numbers(used), a.draw, a.round) == Ok(interval)
    ensures AboutMedian(a, interval, used)
  {
    hide B.BootstrapInterval, B.Median;
    PointIsMedian(Numbers(used), a.draw, a.round);
    assert AreReadings(Numbers(used), used);
  }

  // ------------------------------------------------------------- one group

  /** Kind, variant and scale of the group; the ids of its records, warmups apart, in order. */
  ghost predicate Describes(e: Estimate, group: seq<Record>) {
    && group != [] && e.variant == group[0].variant && e.scale == SortedScale(group[0])
    && (forall r :: r in group ==> e.kind == Kind(r) && e.group == GroupKey(r))
    && multiset(e.raw) == multiset(Ids(Filter(group, Counts))) && Sorted(e.raw, Identity)
  }

  /** The numbers: each rule with what it is a rule for. */
  ghost predicate Says(a: Arithmetic, e: Estimate, group: seq<Record>)
    requires a.Valid()
  {
    match e.kind
    case "logical_error" =>
      e.rule == "wilson_score_95" && e.warmups == None && e.n == Total(group, Shots)
      && a.wilson(Total(group, Errors), e.n) == Ok(e.interval)
    case "timing" =>
      e.rule == "bootstrap_percentile_95" && e.warmups.Some? && e.n + e.warmups.value == |group| && e.n == |e.raw| > 0
      && AboutMedian(a, e.interval, Filter(group, Counts))
    case "bytes" =>
      e.rule == "deterministic_ratio" && e.warmups == None && e.n == |group| && e.interval == Ratio(a, group)
    case _ =>
      e.kind == "scalar" && e.rule == "bootstrap_percentile_95" && e.warmups == None && e.n == |group|
      && AboutMedian(a, e.interval, group)
  }

  lemma {:induction false} WarmupsAndRest(s: seq<Record>)
    ensures |Filter(s, Counts)| + |Filter(s, IsWarmup)| == |s|
  {
    if s != [] {
      WarmupsAndRest(s[1..]);
    }
  }

  /** A group has at most one estimate, and has one unless it holds warmups alone. */
  lemma {:induction false} OneEstimate(a: Arithmetic, key: string, group: seq<Record>)
    requires a.Valid() && group != [] && EstimateOf(a, key, group).Ok?
    requires forall r :: r in group ==> Kind(r) == Kind(group[0]) && GroupKey(r) == key
    ensures var es := EstimateOf(a, key, group).value;
      && |es| <= 1 && (es != [] <==> exists r :: r in group && !IsWarmup(r))
      && (es != [] ==> es[0].group == key && Describes(es[0], group) && Says(a, es[0], group))
  {
    hide SortBy, Filter, SortedScale, B.BootstrapInterval, a.Valid, GroupKey, Total, Ratio, AboutMedian, Numbers, Ids;
    hide Sorted;
    var first, used := group[0], Filter(group, Counts);
    var es := EstimateOf(a, key, group).value;
    FilterMembers(group, Counts);
    assert first in group;
    assert used != [] ==> used[0] in used;
    SortByPermutes(Ids(used), Identity);
    SortSorts(Ids(used), Identity);
    WarmupsAndRest(group);
    assert |Ids(used)| == |used| by { IdsLength(used); }
    SameLength(SortBy(Ids(used), Identity), Ids(used));
    if first.values.Timing? && used != [] {
      BootstrapSays(a, es[0].interval, used);
    } else if first.values.Scalar? {
      BootstrapSays(a, es[0].interval, group);
    }
    forall r | r in group ensures r.values.Timing? == first.values.Timing? {
      SameKind(r, first);
    }
  }

  lemma {:induction false} IdsLength(s: seq<Record>)
    ensures |Ids(s)| == |s|
  {
  }

  // ------------------------------------------------------------ all groups

  /** The keys of groups with more than warmups are those that have an estimate. */
  ghost predicate Estimated(es: seq<Estimate>, records: seq<Record>, key: string) {
    (exists e :: e in es && e.group == key) <==> exists r :: r in records && GroupKey(r) == key && !IsWarmup(r)
  }

  ghost predicate Ascending(es: seq<Estimate>) {
    forall i, j :: 0 <= i < j < |es| ==> es[i].group != es[j].group && StringLe(es[i].group, es[j].group)
  }

  ghost predicate AscendingKeys(keys: seq<string>) {
    forall i, j :: 0 <= i < j < |keys| ==> keys[i] != keys[j] && StringLe(keys[i], keys[j])
  }

  lemma {:induction false} EstimatesForSay(a: Arithmetic, records: seq<Record>, keys: seq<string>)
    requires a.Valid() && EstimatesFor(a, records, keys).Ok? && AscendingKeys(keys)
    ensures var es := EstimatesFor(a, records, keys).value;
      && Ascending(es) && (forall e :: e in es ==> e.group in keys)
      && (forall key :: key in keys ==> Estimated(es, records, key))
      && forall e :: e in es ==> Describes(e, Group(records, e.group)) && Says(a, e, Group(records, e.group))
  {
    hide EstimateOf, Filter, GroupKey, Describes, Says, a.Valid, IsWarmup, StringLe;
    if keys != [] {
      var key, rest := keys[0], keys[1..];
      var group := Group(records, key);
      forall i, j | 0 <= i < j < |rest| ensures rest[i] != rest[j] && StringLe(rest[i], rest[j]) {
        assert rest[i] == keys[i + 1] && rest[j] == keys[j + 1];
      }
      EstimatesForSay(a, records, rest);
      var tail := EstimatesFor(a, records, rest).value;
      FilterMembers(records, r => GroupKey(r) == key);
      forall k | k in rest ensures key != k && StringLe(key, k) {
        var i :| 0 <= i < |rest| && rest[i] == k;
        assert keys[i + 1] == k;
      }
      if group == [] {
        assert forall r :: r in records ==> r !in group;
        assert Estimated(tail, records, key);
      } else {
        GroupIsOfOneKind(records, key);
        assert forall r :: r in group ==> GroupKey(r) == key;
        OneEstimate(a, key, group);
        var head := EstimateOf(a, key, group).value;
        var es := head + tail;
        assert forall e :: e in es <==> e in head || e in tail;
        assert head == [] || head == [head[0]];
        HeadFirst(head, tail, key);
        assert Estimated(es, records, key);
        forall k | k in rest ensures Estimated(es, records, k) {
          assert Estimated(tail, records, k);
        }
      }
    }
  }

  lemma {:induction false} HeadFirst(head: seq<Estimate>, tail: seq<Estimate>, key: string)
    requires |head| <= 1 && Ascending(tail) && forall e :: e in head ==> e.group == key
    requires forall e :: e in tail ==> key != e.group && StringLe(key, e.group)
    ensures Ascending(head + tail)
  {
    hide StringLe;
    var es := head + tail;
    forall i, j | 0 <= i < j < |es| ensures es[i].group != es[j].group && StringLe(es[i].group, es[j].group) {
      assert es[j] == tail[j - |head|] && es[j] in tail;
      if i < |head| {
        assert es[i] == head[i] && es[i] in head;
      } else {
        assert es[i] == tail[i - |head|];
      }
    }
  }

  /**
   The estimates come in ascending order of their keys, there is one for every key with more than warmups, and each
   describes the records of its group and says what the rule of their kind makes of them.
  */
  lemma {:induction false} EstimatesSay(a: Arithmetic, records: seq<Record>)
    requires a.Valid() && AllEstimates(a, records).Ok?
    ensures var es := AllEstimates(a, records).value;
      && Ascending(es) && (forall key :: Estimated(es, records, key))
      && forall e :: e in es ==> Describes(e, Group(records, e.group)) && Says(a, e, Group(records, e.group))
  {
    hide GroupKey, SortBy, EstimatesFor, Filter, Describes, Says, a.Valid, IsWarmup, StringLe;
    var keys := SortBy(Keys(records), Identity);
    KeysAreKeys(records);
    SortMembers(Keys(records), Identity);
    SortByPermutes(Keys(records), Identity);
    SortedDistinct(Keys(records), keys);
    SortSorts(Keys(records), Identity);
    assert forall i, j :: 0 <= i < j < |keys| ==> StringLe(Identity(keys[i]), Identity(keys[j]));
    EstimatesForSay(a, records, keys);
    var es := AllEstimates(a, records).value;
    forall key ensures Estimated(es, records, key) {
      if key in keys {
        assert Estimated(es, records, key);
      }
    }
  }
}
