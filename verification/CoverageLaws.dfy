/**
 The recomputed coverage told case by case: what one case of any level adds, and that the summary of a list of cases
 is put together from the summaries of its parts, in whatever order the cases come.
*/
module CoverageLaws {
  import opened Prelude
  import opened Evidence
  import opened Coverage

  lemma {:induction false} Extended<T>(a: seq<T>, b: seq<T>)
    requires b != []
    ensures (a + b)[..|a + b| - 1] == a + b[..|b| - 1] && (a + b)[|a + b| - 1] == b[|b| - 1]
  {
  }

  // ------------------------------------------------------- parts of a case

  lemma {:induction false} BackendsAdd(a: seq<Named<Backend>>, b: seq<Named<Backend>>)
    ensures Checked(a + b) == Checked(a) + Checked(b) && Ties(a + b) == Ties(a) + Ties(b)
  {
    if b == [] {
      assert a + b == a;
    } else {
      Extended(a, b);
      BackendsAdd(a, b[..|b| - 1]);
    }
  }

  /** The histories of a category that a case exercises. */
  function Exercises(histories: seq<History>, category: string): set<nat> {
    set i | 0 <= i < |histories| && histories[i].exercised && histories[i].category == category
  }

  lemma {:induction false} ExercisedIsCount(histories: seq<History>, category: string)
    ensures Exercised(histories, category) == |Exercises(histories, category)|
  {
    if histories != [] {
      var n := |histories| - 1;
      var front := Exercises(histories[..n], category);
      ExercisedIsCount(histories[..n], category);
      assert Exercises(histories, category) == front + if OneOf(histories[n], category) == 1 then {n} else {};
      assert n !in front;
    }
  }

  /** One more backend adds the rows it records, and nothing where it records none. */
  lemma {:induction false} OneBackend(e: Named<Backend>)
    ensures Checked([e]) == OrZero(e.value.checkedRows) && Ties([e]) == OrZero(e.value.tieRows)
  {
    assert [e][..0] == [];
  }

  // ------------------------------------------------------- rows of a case

  /** The rows whose optimum is unique: the suite allows one prediction alone. */
  function UniqueAt(allowed: seq<nat>): set<nat> {
    set i | 0 <= i < |allowed| && allowed[i] == 1
  }

  lemma {:induction false} SinglesCount(allowed: seq<nat>)
    ensures Singles(allowed) == |UniqueAt(allowed)|
  {
    if allowed != [] {
      var n := |allowed| - 1;
      var front := UniqueAt(allowed[..n]);
      SinglesCount(allowed[..n]);
      assert UniqueAt(allowed) == front + if allowed[n] == 1 then {n} else {};
      assert n !in front;
    }
  }

  /** Placeholder invariance: an even number of rows, and every row of the first half as its partner in the second. */
  lemma {:induction false} HalvesAgreeIff(predictions: seq<Octet>)
    ensures HalvesAgree(predictions) <==>
      && |predictions| % 2 == 0
      && forall i :: 0 <= i < |predictions| / 2 ==> predictions[i] == predictions[i + |predictions| / 2]
  {
    var n := |predictions| / 2;
    var first, second := predictions[..n], predictions[n..];
    assert |predictions| == 2 * n + |predictions| % 2;
    if HalvesAgree(predictions) {
      assert |first| == |second|;
      forall i | 0 <= i < n ensures predictions[i] == predictions[i + n] {
        assert first[i] == second[i];
      }
    }
  }

  // ------------------------------------------------------------- one case

  lemma {:induction false} OneCase(c: Case)
    ensures AllRows([c]) == OrZero(c.rows) && Pairs([c]) == c.placeholderPairs && AllChannels([c]) == c.channels
    ensures TotalChecked([c]) == Within(c, Checked(c.backends)) && TotalTies([c]) == Within(c, Ties(c.backends))
  {
    hide OrZero, Within, Checked, Ties;
    var one := [c];
    var none := one[..|one| - 1];
    assert none == [] && one[|one| - 1] == c;
    assert AllChannels(one) == AllChannels(none) + c.channels && AllChannels(none) == {};
    assert TotalChecked(one) == TotalChecked(none) + Within(c, Checked(c.backends)) && TotalChecked(none) == 0;
    assert TotalTies(one) == TotalTies(none) + Within(c, Ties(c.backends)) && TotalTies(none) == 0;
  }

  /**
   What one case adds: its rows, placeholder pairs, channels and histories whatever its level, and the checked rows and
   ties of its backends if it is an end-to-end case.
  */
  lemma {:induction false} CaseAdds(c: Case)
    ensures var s := Recomputed([c]);
      && s.rows == OrZero(c.rows) && s.pairs == c.placeholderPairs && s.channels == c.channels
      && s.points == [Point(c.name, c.detectors, c.level)] && s.seeds == [c.seed]
      && s.checked == (if EndToEnd(c) then Checked(c.backends) else 0)
      && s.ties == (if EndToEnd(c) then Ties(c.backends) else 0)
      && s.singleLoss == |Exercises(c.histories, "single_loss")|
      && s.categories.Keys == (set category | category in REQUIRED_CATEGORIES)
      && forall category :: category in REQUIRED_CATEGORIES ==>
           s.categories[category] == |Exercises(c.histories, category)|
  {
    hide Exercised, Exercises, EndToEnd, Checked, Ties, AllRows, Pairs, AllChannels, TotalChecked, TotalTies, OrZero;
    var one := [c];
    OneCase(c);
    assert one[..|one| - 1] == [] && one[|one| - 1] == c;
    forall category ensures CategoryCount([c], category) == |Exercises(c.histories, category)| {
      ExercisedIsCount(c.histories, category);
    }
  }

  // ------------------------------------------------------- lists of cases

  lemma {:induction false} TotalsAdd(a: seq<Case>, b: seq<Case>)
    ensures AllRows(a + b) == AllRows(a) + AllRows(b) && Pairs(a + b) == Pairs(a) + Pairs(b)
    ensures TotalChecked(a + b) == TotalChecked(a) + TotalChecked(b)
    ensures TotalTies(a + b) == TotalTies(a) + TotalTies(b)
    ensures AllChannels(a + b) == AllChannels(a) + AllChannels(b)
  {
    hide Within, Checked, Ties, OrZero;
    if b == [] {
      assert a + b == a;
    } else {
      Extended(a, b);
      TotalsAdd(a, b[..|b| - 1]);
    }
  }

  lemma {:induction false} CategoriesAdd(a: seq<Case>, b: seq<Case>, category: string)
    ensures CategoryCount(a + b, category) == CategoryCount(a, category) + CategoryCount(b, category)
  {
    hide Exercised;
    if b == [] {
      assert a + b == a;
    } else {
      Extended(a, b);
      CategoriesAdd(a, b[..|b| - 1], category);
    }
  }

  /** Two summaries over the required categories put together. */
  function Joined(s: Summary, t: Summary): Summary
    requires s.categories.Keys == t.categories.Keys
  {
    Summary(map c | c in s.categories :: s.categories[c] + t.categories[c], s.singleLoss + t.singleLoss,
            s.channels + t.channels, s.points + t.points, s.pairs + t.pairs, s.rows + t.rows, s.checked + t.checked,
            s.ties + t.ties, s.seeds + t.seeds)
  }

  lemma {:induction false} ListsAdd(a: seq<Case>, b: seq<Case>)
    ensures PointsOf(a + b) == PointsOf(a) + PointsOf(b) && SeedsOf(a + b) == SeedsOf(a) + SeedsOf(b)
  {
  }

  lemma {:induction false} CategoryCountsAdd(a: seq<Case>, b: seq<Case>)
    ensures CategoryCounts(a).Keys == CategoryCounts(b).Keys
    ensures CategoryCounts(a + b) == map c | c in CategoryCounts(a) :: CategoryCounts(a)[c] + CategoryCounts(b)[c]
  {
    hide CategoryCount;
    forall category ensures CategoryCount(a + b, category) == CategoryCount(a, category) + CategoryCount(b, category) {
      CategoriesAdd(a, b, category);
    }
  }

  /** The summary of two lists of cases, one after the other, is the two summaries put together. */
  lemma {:induction false} RecomputedAdds(a: seq<Case>, b: seq<Case>)
    ensures Recomputed(a).categories.Keys == Recomputed(b).categories.Keys
    ensures Recomputed(a + b) == Joined(Recomputed(a), Recomputed(b))
  {
    hide CategoryCount, CategoryCounts, AllRows, Pairs, TotalChecked, TotalTies, AllChannels, PointsOf, SeedsOf;
    TotalsAdd(a, b);
    CategoriesAdd(a, b, "single_loss");
    CategoryCountsAdd(a, b);
    ListsAdd(a, b);
  }

  /** What a summary says apart from the order in which it lists points and seeds. */
  predicate SameButOrder(s: Summary, t: Summary) {
    && s == t.(points := s.points, seeds := s.seeds)
    && multiset(s.points) == multiset(t.points) && multiset(s.seeds) == multiset(t.seeds)
  }

  lemma {:induction false} JoinedForgetsOrder(s: Summary, t: Summary, u: Summary)
    requires s.categories.Keys == t.categories.Keys == u.categories.Keys
    ensures SameButOrder(Joined(Joined(s, t), u), Joined(s, Joined(u, t)))
  {
    assert Joined(Joined(s, t), u).categories == Joined(s, Joined(u, t)).categories;
  }

  lemma {:induction false} JoinedKeeps(s: Summary, t: Summary, u: Summary)
    requires s.categories.Keys == t.categories.Keys == u.categories.Keys && SameButOrder(s, t)
    ensures SameButOrder(Joined(s, u), Joined(t, u)) && SameButOrder(Joined(u, s), Joined(u, t))
  {
  }

  /** No order of the cases changes a total. */
  lemma {:induction false} RecomputedForgetsOrder(a: seq<Case>, b: seq<Case>)
    requires multiset(a) == multiset(b)
    ensures SameButOrder(Recomputed(a), Recomputed(b))
  {
    hide Recomputed, SameButOrder, Joined;
    if a == [] {
      assert |multiset(b)| == 0 && b == [];
      SameAsItself(Recomputed(a));
    } else {
      var n := |a| - 1;
      assert a == a[..n] + [a[n]] && a[n] in multiset(b);
      var k :| 0 <= k < |b| && b[k] == a[n];
      var u, v := b[..k], b[k + 1..];
      assert b == (u + [a[n]]) + v;
      assert multiset(b) == multiset(u) + multiset{a[n]} + multiset(v);
      assert multiset(a) == multiset(a[..n]) + multiset{a[n]};
      Cancel(multiset(u + v), multiset(a[..n]), a[n]);
      RecomputedForgetsOrder(a[..n], u + v);
      LastMoves(a[..n], u, v, a[n]);
    }
  }

  lemma {:induction false} SameAsItself(s: Summary)
    ensures SameButOrder(s, s)
  {
  }

  lemma {:induction false} SameTwice(s: Summary, t: Summary, u: Summary)
    requires SameButOrder(s, t) && SameButOrder(t, u)
    ensures SameButOrder(s, u)
  {
  }

  lemma {:induction false} Cancel<T>(a: multiset<T>, b: multiset<T>, x: T)
    requires a + multiset{x} == b + multiset{x}
    ensures a == b
  {
    forall y ensures a[y] == b[y] {
      assert (a + multiset{x})[y] == (b + multiset{x})[y];
    }
  }

  lemma {:induction false} LastMoves(front: seq<Case>, u: seq<Case>, v: seq<Case>, c: Case)
    requires SameButOrder(Recomputed(front), Recomputed(u + v))
    ensures SameButOrder(Recomputed(front + [c]), Recomputed(u + [c] + v))
  {
    hide Recomputed, SameButOrder, Joined;
    RecomputedAdds(front, [c]);
    RecomputedAdds(u, v);
    RecomputedAdds(u + v, [c]);
    RecomputedAdds(u, [c] + v);
    RecomputedAdds([c], v);
    RecomputedAdds(u + v, u);
    RecomputedAdds(u + v, u + [c] + v);
    assert u + ([c] + v) == u + [c] + v;
    JoinedKeeps(Recomputed(front), Recomputed(u + v), Recomputed([c]));
    JoinedForgetsOrder(Recomputed(u), Recomputed(v), Recomputed([c]));
    SameTwice(Recomputed(front + [c]), Recomputed(u + v + [c]), Recomputed(u + [c] + v));
  }
}
