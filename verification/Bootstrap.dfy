/** The deterministic percentile bootstrap of a median, and its order properties. */
module Bootstrap {
  import opened Prelude
  import opened Statistics
  import Sorting

  // ---------------------------------------------------- sorting numbers

  predicate AtMost(x: real, y: real) {
    x <= y
  }

  function Sort(s: seq<real>): (r: seq<real>)
    ensures |r| == |s|
  {
    Sorting.Sort(s, AtMost)
  }

  predicate Ascending(s: seq<real>) {
    forall i, j :: 0 <= i < j < |s| ==> s[i] <= s[j]
  }

  /** Every element of `s` is at most the element of `t` at its place. */
  predicate Below(s: seq<real>, t: seq<real>) {
    |s| == |t| && forall i :: 0 <= i < |s| ==> s[i] <= t[i]
  }

  predicate Within(low: real, s: seq<real>, high: real) {
    forall i :: 0 <= i < |s| ==> low <= s[i] <= high
  }

  lemma {:induction false} SortPermutes(s: seq<real>)
    ensures multiset(Sort(s)) == multiset(s)
  {
    Sorting.SortPermutes(s, AtMost);
  }

  lemma {:induction false} SortAscends(s: seq<real>)
    ensures Ascending(Sort(s))
  {
    hide Sorting.Sort;
    assert Sorting.IsOrder(AtMost);
    Sorting.SortOrders(s, AtMost);
    forall i, j | 0 <= i < j < |s| ensures Sort(s)[i] <= Sort(s)[j] {
      assert AtMost(Sort(s)[i], Sort(s)[j]);
    }
  }

  lemma {:induction false} AscendingRest(s: seq<real>)
    requires s != [] && Ascending(s)
    ensures Ascending(s[1..])
  {
  }

  lemma {:induction false} SortForgetsOrder(s: seq<real>, t: seq<real>)
    requires multiset(s) == multiset(t)
    ensures Sort(s) == Sort(t)
  {
    hide Sort;
    SortPermutes(s);
    SortPermutes(t);
    SortAscends(s);
    SortAscends(t);
    Sorting.OrderedIsUnique(Sort(s), Sort(t), AtMost);
  }

  lemma {:induction false} BelowRest(s: seq<real>, t: seq<real>)
    requires s != [] && Below(s, t)
    ensures t != [] && s[0] <= t[0] && Below(s[1..], t[1..])
  {
  }

  lemma {:induction false} BelowMore(x: real, y: real, s: seq<real>, t: seq<real>)
    requires x <= y && Below(s, t)
    ensures Below([x] + s, [y] + t)
  {
  }

  lemma {:induction false} FirstIsLeast(s: seq<real>)
    requires s != [] && Ascending(s)
    ensures forall i :: 0 <= i < |s[1..]| ==> s[0] <= s[1..][i]
  {
  }

  lemma {:induction false} InsertIsMonotone(x: real, y: real, s: seq<real>, t: seq<real>)
    requires x <= y && Below(s, t) && Ascending(s) && Ascending(t)
    ensures Below(Sorting.Insert(x, s, AtMost), Sorting.Insert(y, t, AtMost))
    decreases |s|
  {
    if s == [] {
      assert t == [];
    } else {
      BelowRest(s, t);
      AscendingRest(s);
      AscendingRest(t);
      FirstIsLeast(s);
      FirstIsLeast(t);
      hide Below, Ascending;
      var u, v := s[1..], t[1..];
      assert s == [s[0]] + u && t == [t[0]] + v;
      InsertFirst(t[0], v);
      InsertFirst(s[0], u);
      if s[0] < x && t[0] < y {
        InsertIsMonotone(x, y, u, v);
        BelowMore(s[0], t[0], Sorting.Insert(x, u, AtMost), Sorting.Insert(y, v, AtMost));
      } else if s[0] < x {
        InsertIsMonotone(x, t[0], u, v);
        BelowMore(s[0], y, Sorting.Insert(x, u, AtMost), t);
      } else if t[0] < y {
        InsertIsMonotone(s[0], y, u, v);
        BelowMore(x, t[0], s, Sorting.Insert(y, v, AtMost));
      } else {
        BelowMore(x, y, s, t);
      }
    }
  }

  lemma {:induction false} InsertFirst(x: real, s: seq<real>)
    requires forall i :: 0 <= i < |s| ==> x <= s[i]
    ensures Sorting.Insert(x, s, AtMost) == [x] + s
  {
  }

  /** Sorting keeps one list below another: every order statistic grows with the data. */
  lemma {:induction false} SortIsMonotone(s: seq<real>, t: seq<real>)
    requires Below(s, t)
    ensures Below(Sort(s), Sort(t))
  {
    if s != [] {
      SortIsMonotone(s[1..], t[1..]);
      SortAscends(s[1..]);
      SortAscends(t[1..]);
      InsertIsMonotone(s[0], t[0], Sort(s[1..]), Sort(t[1..]));
    }
  }

  lemma {:induction false} SortStaysWithin(low: real, s: seq<real>, high: real)
    requires Within(low, s, high)
    ensures Within(low, Sort(s), high)
  {
    SortPermutes(s);
    forall i | 0 <= i < |s|
      ensures low <= Sort(s)[i] <= high
    {
      assert Sort(s)[i] in multiset(s);
    }
  }

  // ---------------------------------------------------------- the median

  /** `statistics.median` */
  function Median(s: seq<real>): real
    requires s != []
  {
    var t, h := Sort(s), |s| / 2;
    if |s| % 2 == 1 then t[h] else (t[h - 1] + t[h]) / 2.0
  }

  lemma {:induction false} MedianIsMonotone(s: seq<real>, t: seq<real>)
    requires s != [] && Below(s, t)
    ensures Median(s) <= Median(t)
  {
    SortIsMonotone(s, t);
  }

  lemma {:induction false} MedianStaysWithin(low: real, s: seq<real>, high: real)
    requires s != [] && Within(low, s, high)
    ensures low <= Median(s) <= high
  {
    SortStaysWithin(low, s, high);
  }

  /** It is the middle of the sample, however that is put in order. */
  lemma {:induction false} MedianIsMiddle(s: seq<real>, u: seq<real>)
    requires s != [] && Ascending(u) && multiset(u) == multiset(s)
    ensures |u| == |s|
    ensures |s| % 2 == 1 ==> Median(s) == u[|s| / 2]
    ensures |s| % 2 == 0 ==> 2.0 * Median(s) == u[|s| / 2 - 1] + u[|s| / 2]
  {
    hide Sort;
    Sorting.SameLength(u, s);
    SortPermutes(s);
    SortAscends(s);
    Sorting.OrderedIsUnique(u, Sort(s), AtMost);
  }

  function Negated(s: seq<real>): seq<real> {
    seq(|s|, i requires 0 <= i < |s| => -s[i])
  }

  function Backwards(s: seq<real>): seq<real> {
    seq(|s|, i requires 0 <= i < |s| => s[|s| - 1 - i])
  }

  lemma {:induction false} MirrorPermutes(s: seq<real>, t: seq<real>)
    requires multiset(s) == multiset(t)
    ensures multiset(Backwards(Negated(s))) == multiset(Negated(t))
  {
    var p := Sorting.MatchPermuted(s, t);
    var u, n := Backwards(Negated(s)), |s|;
    var q: seq<nat> := seq(n, i requires 0 <= i < n => p[n - 1 - i]);
    assert Sorting.Matches(u, Negated(t), q);
    Sorting.MatchedArePermuted(u, Negated(t), q);
  }

  /** Mirroring the sample mirrors its median. */
  lemma {:induction false} MedianMirrors(s: seq<real>)
    requires s != []
    ensures Median(Negated(s)) == -Median(s)
  {
    hide Sort;
    SortPermutes(s);
    SortAscends(s);
    var u := Sort(s);
    MirrorPermutes(u, s);
    MedianIsMiddle(s, u);
    MedianIsMiddle(Negated(s), Backwards(Negated(u)));
  }

  // ---------------------------------------------------- order statistics

  /** How many elements are less than `x`. */
  function Less(s: seq<real>, x: real): (n: nat)
    ensures n <= |s|
  {
    if s == [] then 0 else Less(s[..|s| - 1], x) + if s[|s| - 1] < x then 1 else 0
  }

  /** How many elements are at most `x`. */
  function UpTo(s: seq<real>, x: real): (n: nat)
    ensures n <= |s|
  {
    if s == [] then 0 else UpTo(s[..|s| - 1], x) + if s[|s| - 1] <= x then 1 else 0
  }

  lemma {:induction false} CountsRemove(s: seq<real>, k: nat, x: real)
    requires k < |s|
    ensures Less(s, x) == Less(s[..k] + s[k + 1..], x) + if s[k] < x then 1 else 0
    ensures UpTo(s, x) == UpTo(s[..k] + s[k + 1..], x) + if s[k] <= x then 1 else 0
    decreases |s|
  {
    var n := |s| - 1;
    if k == n {
      assert s[..k] + s[k + 1..] == s[..n];
    } else {
      CountsRemove(s[..n], k, x);
      var t := s[..k] + s[k + 1..];
      assert t[|t| - 1] == s[n] && t[..|t| - 1] == s[..n][..k] + s[..n][k + 1..];
    }
  }

  lemma {:induction false} CountsForgetOrder(s: seq<real>, t: seq<real>, x: real)
    requires multiset(s) == multiset(t)
    ensures Less(s, x) == Less(t, x) && UpTo(s, x) == UpTo(t, x)
  {
    Sorting.SameLength(s, t);
    if s != [] {
      assert s[0] in multiset(t);
      var k: nat :| k < |t| && t[k] == s[0];
      Sorting.RemoveFirst(s);
      Sorting.RemoveAt(t, k);
      CountsForgetOrder(s[1..], t[..k] + t[k + 1..], x);
      CountsRemove(s, 0, x);
      assert s[..0] + s[1..] == s[1..];
      CountsRemove(t, k, x);
    }
  }

  lemma {:induction false} CountsOfAscending(u: seq<real>, k: nat, n: nat)
    requires Ascending(u) && k < |u| && n <= |u|
    ensures Less(u[..n], u[k]) <= k
    ensures UpTo(u[..n], u[k]) >= if n <= k then n else k + 1
  {
    if n > 0 {
      CountsOfAscending(u, k, n - 1);
      assert u[..n][..n - 1] == u[..n - 1];
      if n - 1 >= k {
        assert u[k] <= u[n - 1];
      } else {
        assert u[n - 1] <= u[k];
        LessAtMost(u[..n], u[k]);
      }
    }
  }

  lemma {:induction false} LessAtMost(s: seq<real>, x: real)
    ensures Less(s, x) <= |s|
  {
  }

  /** The element at place `k` in order: at most `k` elements are less than it, more than `k` are at most it. */
  lemma {:induction false} OrderStatistic(s: seq<real>, k: nat)
    requires k < |s|
    ensures Less(s, Sort(s)[k]) <= k < UpTo(s, Sort(s)[k])
    ensures Sort(s)[k] in s
  {
    hide Sort, Less, UpTo;
    SortPermutes(s);
    SortAscends(s);
    var u := Sort(s);
    CountsOfAscending(u, k, |u|);
    assert u[..|u|] == u;
    CountsForgetOrder(s, u, u[k]);
    assert u[k] in multiset(u) && (u[k] in multiset(s) <==> u[k] in s);
  }

  // ------------------------------------------------------- the bootstrap

  const RESAMPLES: nat := 2000
  const LOW_INDEX: nat := if (0.025 * RESAMPLES as real).Floor > 0 then (0.025 * RESAMPLES as real).Floor else 0
  const HIGH_INDEX: nat :=
    if (0.975 * RESAMPLES as real).Floor < RESAMPLES - 1 then (0.975 * RESAMPLES as real).Floor else RESAMPLES - 1

  /**
   The seeded generator: `draw(n, k)` is its `k`-th value below `n`. The stream depends on the sample size and
   on nothing else.
  */
  type Generator = (nat, nat) -> nat

  ghost predicate InRange(draw: Generator) {
    forall n, k :: n > 0 ==> draw(n, k) < n
  }

  function Resample(ordered: seq<real>, draw: Generator, r: nat): (s: seq<real>)
    requires ordered != [] && InRange(draw)
    ensures |s| == |ordered|
  {
    var n := |ordered|;
    seq(n, i requires 0 <= i < n => ordered[draw(n, r * n + i)])
  }

  function Medians(ordered: seq<real>, draw: Generator, count: nat): (s: seq<real>)
    requires ordered != [] && InRange(draw)
    ensures |s| == count
  {
    seq(count, r requires 0 <= r < count => Median(Resample(ordered, draw, r)))
  }

  /** `bootstrap_median_interval` as a function of the repetitions. */
  function BootstrapInterval(values: seq<real>, draw: Generator, round: real -> real): Result<Interval, StatisticsError>
    requires InRange(draw)
  {
    if values == [] then Err(NoRepetitions)
    else
      var ordered := Sort(values);
      var median := Median(ordered);
      if |ordered| == 1 then Ok(Interval(round(median), round(median), round(median)))
      else
        var medians := Sort(Medians(ordered, draw, RESAMPLES));
        Ok(Interval(round(median), round(medians[LOW_INDEX]), round(medians[HIGH_INDEX])))
  }

  method BootstrapMedianInterval(values: seq<real>, draw: Generator, round: real -> real)
    returns (r: Result<Interval, StatisticsError>)
    requires InRange(draw)
    ensures r == BootstrapInterval(values, draw, round)
  {
    hide Sort, Median;
    if values == [] {
      return Err(NoRepetitions);
    }
    var ordered := Sort(values);
    var median := Median(ordered);
    if |ordered| == 1 {
      return Ok(Interval(round(median), round(median), round(median)));
    }
    var n := |ordered|;
    var medians: seq<real> := [];
    for k := 0 to RESAMPLES
      invariant medians == Medians(ordered, draw, k)
    {
      var sample: seq<real> := [];
      for i := 0 to n
        invariant |sample| == i
        invariant forall j :: 0 <= j < i ==> sample[j] == ordered[draw(n, k * n + j)]
      {
        sample := sample + [ordered[draw(n, k * n + i)]];
      }
      assert sample == Resample(ordered, draw, k);
      medians := medians + [Median(sample)];
    }
    medians := Sort(medians);
    r := Ok(Interval(round(median), round(medians[LOW_INDEX]), round(medians[HIGH_INDEX])));
  }

  // ----------------------------------------------------- what it promises

  /**
   The point is the median. The bounds are resampled medians: of the 2000, at most 50 are less than the lower one and
   more than 50 at most it, at most 1950 are less than the upper one and more than 1950 at most it.
  */
  lemma {:induction false} BoundsAreQuantiles(values: seq<real>, draw: Generator, round: real -> real)
      returns (low: real, high: real)
    requires InRange(draw) && |values| > 1
    ensures BootstrapInterval(values, draw, round) == Ok(Interval(round(Median(values)), round(low), round(high)))
    ensures var m := Medians(Sort(values), draw, 2000);
      && low in m && Less(m, low) <= 50 < UpTo(m, low)
      && high in m && Less(m, high) <= 1950 < UpTo(m, high)
  {
    hide Sort, Median, Medians, Less, UpTo;
    var ordered := Sort(values);
    var m := Medians(ordered, draw, RESAMPLES);
    assert LOW_INDEX == 50 && HIGH_INDEX == 1950;
    low, high := Sort(m)[50], Sort(m)[1950];
    OrderStatistic(m, 50);
    OrderStatistic(m, 1950);
    MedianOfSorted(values);
  }

  lemma {:induction false} MedianOfSorted(s: seq<real>)
    requires s != []
    ensures Sort(s) != [] && Median(Sort(s)) == Median(s)
  {
    SortPermutes(s);
    SortForgetsOrder(s, Sort(s));
  }

  /** The places that resample `r` of `n` repetitions draws. */
  function Draws(n: nat, draw: Generator, r: nat): seq<nat> {
    seq(n, i requires 0 <= i < n => draw(n, r * n + i))
  }

  lemma {:induction false} ResampleTakes(ordered: seq<real>, draw: Generator, r: nat)
    requires ordered != [] && InRange(draw)
    ensures var p := Draws(|ordered|, draw, r);
      forall i :: 0 <= i < |ordered| ==> p[i] < |ordered| && Resample(ordered, draw, r)[i] == ordered[p[i]]
  {
  }

  /** A resample that draws every repetition once has the median of the repetitions. */
  lemma {:induction false} WholeResample(values: seq<real>, draw: Generator, r: nat)
    requires values != [] && InRange(draw) && Distinct(Draws(|values|, draw, r))
    ensures Median(Resample(Sort(values), draw, r)) == Median(values)
  {
    hide Sort, Median, Draws, Resample;
    var u := Sort(values);
    SortPermutes(values);
    var p := Draws(|values|, draw, r);
    ResampleTakes(u, draw, r);
    assert |p| == |values| by { DrawsLength(|values|, draw, r); }
    var sample := Resample(u, draw, r);
    assert Sorting.Matches(sample, u, p);
    Sorting.MatchedArePermuted(sample, u, p);
    MedianForgetsOrder(sample, values);
  }

  lemma {:induction false} DrawsLength(n: nat, draw: Generator, r: nat)
    ensures |Draws(n, draw, r)| == n
  {
  }

  lemma {:induction false} MedianForgetsOrder(s: seq<real>, t: seq<real>)
    requires s != [] && multiset(s) == multiset(t)
    ensures t != [] && Median(s) == Median(t)
  {
    Sorting.SameLength(s, t);
    SortForgetsOrder(s, t);
  }

  lemma {:induction false} ResampleIsMonotone(s: seq<real>, t: seq<real>, draw: Generator, count: nat)
    requires s != [] && Below(s, t) && InRange(draw)
    ensures Below(Medians(s, draw, count), Medians(t, draw, count))
  {
    hide Median, Resample;
    forall r | 0 <= r < count
      ensures Median(Resample(s, draw, r)) <= Median(Resample(t, draw, r))
    {
      SampleIsMonotone(s, t, draw, r);
      MedianIsMonotone(Resample(s, draw, r), Resample(t, draw, r));
    }
  }

  lemma {:induction false} SampleIsMonotone(s: seq<real>, t: seq<real>, draw: Generator, r: nat)
    requires s != [] && Below(s, t) && InRange(draw)
    ensures Resample(s, draw, r) != [] && Below(Resample(s, draw, r), Resample(t, draw, r))
  {
  }

  /** If one sample is below another once both are sorted, so are estimate and both bounds. */
  lemma {:induction false} BootstrapIsMonotone(s: seq<real>, t: seq<real>, draw: Generator, round: real -> real)
    requires InRange(draw) && Monotone(round) && s != [] && Below(Sort(s), Sort(t))
    ensures var a, b := BootstrapInterval(s, draw, round), BootstrapInterval(t, draw, round);
            && a.Ok? && b.Ok?
            && a.value.point <= b.value.point && a.value.low <= b.value.low && a.value.high <= b.value.high
  {
    hide Sort, Median, Medians;
    var u, v := Sort(s), Sort(t);
    MedianIsMonotone(u, v);
    ResampleIsMonotone(u, v, draw, RESAMPLES);
    SortIsMonotone(Medians(u, draw, RESAMPLES), Medians(v, draw, RESAMPLES));
  }

  /** The interval depends on the multiset of repetitions alone. */
  lemma {:induction false} BootstrapForgetsOrder(s: seq<real>, t: seq<real>, draw: Generator, round: real -> real)
    requires InRange(draw) && multiset(s) == multiset(t)
    ensures BootstrapInterval(s, draw, round) == BootstrapInterval(t, draw, round)
  {
    hide Sort, Median, Medians;
    Sorting.SameLength(s, t);
    SortForgetsOrder(s, t);
  }

  /** The bounds are ordered, and they and the estimate lie between the extreme repetitions. */
  lemma {:induction false} BootstrapIsEnclosed(values: seq<real>, low: real, high: real, draw: Generator,
                                               round: real -> real)
    requires InRange(draw) && Monotone(round) && values != [] && Within(low, values, high)
    ensures var r := BootstrapInterval(values, draw, round);
            && r.Ok? && round(low) <= r.value.low <= r.value.high <= round(high)
            && round(low) <= r.value.point <= round(high)
  {
    hide Sort, Median, Medians;
    var ordered := Sort(values);
    SortStaysWithin(low, values, high);
    MedianStaysWithin(low, ordered, high);
    var medians := Medians(ordered, draw, RESAMPLES);
    MediansStayWithin(low, ordered, high, draw, RESAMPLES);
    SortStaysWithin(low, medians, high);
    SortAscends(medians);
  }

  lemma {:induction false} MediansStayWithin(low: real, ordered: seq<real>, high: real, draw: Generator, count: nat)
    requires ordered != [] && Within(low, ordered, high) && InRange(draw)
    ensures Within(low, Medians(ordered, draw, count), high)
  {
    forall r | 0 <= r < count
      ensures low <= Median(Resample(ordered, draw, r)) <= high
    {
      MedianStaysWithin(low, Resample(ordered, draw, r), high);
    }
  }
}
