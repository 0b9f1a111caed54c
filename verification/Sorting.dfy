/** Python's `sorted` with a string key, and what permutations preserve. */
module Sorting {

  /** Lexicographic order by code point. */
  predicate StringLe(a: string, b: string) {
    a == "" || (b != "" && (a[0] < b[0] || (a[0] == b[0] && StringLe(a[1..], b[1..]))))
  }

  lemma {:induction false} StringLeTotal(a: string, b: string)
    ensures StringLe(a, b) || StringLe(b, a)
  {
    if a != "" && b != "" {
      StringLeTotal(a[1..], b[1..]);
    }
  }

  lemma {:induction false} StringLeAntisymmetric(a: string, b: string)
    requires StringLe(a, b) && StringLe(b, a)
    ensures a == b
  {
    if a != "" && b != "" {
      StringLeAntisymmetric(a[1..], b[1..]);
      assert a == [a[0]] + a[1..] && b == [b[0]] + b[1..];
    }
  }

  lemma {:induction false} StringLeTransitive(a: string, b: string, c: string)
    requires StringLe(a, b) && StringLe(b, c)
    ensures StringLe(a, c)
  {
    if a != "" && a[0] == b[0] == c[0] {
      StringLeTransitive(a[1..], b[1..], c[1..]);
    }
  }

  // --------------------------------------------------------- sorting by an order

  function Insert<T>(x: T, s: seq<T>, le: (T, T) -> bool): (r: seq<T>)
    ensures |r| == |s| + 1
  {
    if s != [] && !le(x, s[0]) then [s[0]] + Insert(x, s[1..], le) else [x] + s
  }

  /** Elements that are equal in the order stay as they come. */
  function Sort<T>(s: seq<T>, le: (T, T) -> bool): (r: seq<T>)
    ensures |r| == |s|
  {
    if s == [] then [] else Insert(s[0], Sort(s[1..], le), le)
  }

  ghost predicate IsOrder<T(!new)>(le: (T, T) -> bool) {
    && (forall x, y :: le(x, y) || le(y, x))
    && (forall x, y, z :: le(x, y) && le(y, z) ==> le(x, z))
  }

  ghost predicate Ordered<T>(s: seq<T>, le: (T, T) -> bool) {
    forall i, j :: 0 <= i < j < |s| ==> le(s[i], s[j])
  }

  lemma {:induction false} InsertPermutes<T>(x: T, s: seq<T>, le: (T, T) -> bool)
    ensures multiset(Insert(x, s, le)) == multiset{x} + multiset(s)
  {
    if s != [] && !le(x, s[0]) {
      InsertPermutes(x, s[1..], le);
      assert s == [s[0]] + s[1..];
    }
  }

  lemma {:induction false} SortPermutes<T>(s: seq<T>, le: (T, T) -> bool)
    ensures multiset(Sort(s, le)) == multiset(s)
  {
    hide Insert;
    if s != [] {
      SortPermutes(s[1..], le);
      InsertPermutes(s[0], Sort(s[1..], le), le);
      assert s == [s[0]] + s[1..];
    }
  }

  lemma {:induction false} InsertOrders<T(!new)>(x: T, s: seq<T>, le: (T, T) -> bool)
    requires IsOrder(le) && Ordered(s, le)
    ensures Ordered(Insert(x, s, le), le)
  {
    if s != [] && !le(x, s[0]) {
      var rest := Insert(x, s[1..], le);
      InsertOrders(x, s[1..], le);
      InsertPermutes(x, s[1..], le);
      forall j | 0 <= j < |rest|
        ensures le(s[0], rest[j])
      {
        assert rest[j] in multiset(rest);
        assert rest[j] == x || rest[j] in s[1..];
      }
    } else {
      forall j | 0 <= j < |s|
        ensures le(x, s[j])
      {
      }
    }
  }

  lemma {:induction false} SortOrders<T(!new)>(s: seq<T>, le: (T, T) -> bool)
    requires IsOrder(le)
    ensures Ordered(Sort(s, le), le)
  {
    hide Insert, IsOrder;
    if s != [] {
      SortOrders(s[1..], le);
      InsertOrders(s[0], Sort(s[1..], le), le);
    }
  }

  lemma {:induction false} RemoveAt<T>(s: seq<T>, j: nat)
    requires j < |s|
    ensures multiset(s[..j] + s[j + 1..]) == multiset(s) - multiset{s[j]}
  {
    assert s == s[..j] + [s[j]] + s[j + 1..];
  }

  lemma {:induction false} RemoveFirst<T>(s: seq<T>)
    requires s != []
    ensures multiset(s[1..]) == multiset(s) - multiset{s[0]}
  {
    assert s == [s[0]] + s[1..];
  }

  lemma {:induction false} SameLength<T>(a: seq<T>, b: seq<T>)
    requires multiset(a) == multiset(b)
    ensures |a| == |b|
  {
    assert |multiset(a)| == |a| && |multiset(b)| == |b|;
  }

  lemma {:induction false} LeastIsFirst<T>(s: seq<T>, x: T, le: (T, T) -> bool)
    requires Ordered(s, le) && x in multiset(s)
    ensures x == s[0] || le(s[0], x)
  {
  }

  lemma {:induction false} OrderedRest<T>(s: seq<T>, le: (T, T) -> bool)
    requires s != [] && Ordered(s, le)
    ensures Ordered(s[1..], le)
  {
  }

  /** Two orderings of the same elements start alike, and go on with the same elements. */
  lemma {:induction false} SameFirst<T(!new)>(a: seq<T>, b: seq<T>, le: (T, T) -> bool)
    requires Ordered(a, le) && Ordered(b, le) && multiset(a) == multiset(b) && a != [] && b != []
    requires forall x, y :: x in a && y in a && le(x, y) && le(y, x) ==> x == y
    ensures a[0] == b[0] && multiset(a[1..]) == multiset(b[1..])
  {
    hide Ordered;
    assert a[0] in multiset(b) && b[0] in multiset(a);
    LeastIsFirst(a, b[0], le);
    LeastIsFirst(b, a[0], le);
    RemoveFirst(a);
    RemoveFirst(b);
  }

  /** There is one way to put elements in an order that tells them apart. */
  lemma {:induction false} OrderedIsUnique<T(!new)>(a: seq<T>, b: seq<T>, le: (T, T) -> bool)
    requires Ordered(a, le) && Ordered(b, le) && multiset(a) == multiset(b)
    requires forall x, y :: x in a && y in a && le(x, y) && le(y, x) ==> x == y
    ensures a == b
  {
    SameLength(a, b);
    if a != [] {
      SameFirst(a, b, le);
      OrderedRest(a, le);
      OrderedRest(b, le);
      assert forall x :: x in a[1..] ==> x in a;
      hide Ordered;
      OrderedIsUnique(a[1..], b[1..], le);
      assert a == [a[0]] + a[1..] && b == [b[0]] + b[1..];
    }
  }

  // ----------------------------------------------------------- sorting by a key

  function ByKey<T>(key: T -> string): (T, T) -> bool {
    (x, y) => StringLe(key(x), key(y))
  }

  /** `sorted(s, key=key)` */
  function SortBy<T>(s: seq<T>, key: T -> string): (r: seq<T>)
    ensures |r| == |s|
  {
    Sort(s, ByKey(key))
  }

  ghost predicate Sorted<T>(s: seq<T>, key: T -> string) {
    forall i, j :: 0 <= i < j < |s| ==> StringLe(key(s[i]), key(s[j]))
  }

  /** Different elements have different keys. */
  ghost predicate Keyed<T(!new)>(s: seq<T>, key: T -> string) {
    forall x, y :: x in s && y in s && key(x) == key(y) ==> x == y
  }

  lemma {:induction false} KeysOrder<T(!new)>(key: T -> string)
    ensures IsOrder(ByKey(key))
  {
    hide StringLe;
    forall x, y ensures ByKey(key)(x, y) || ByKey(key)(y, x) {
      StringLeTotal(key(x), key(y));
    }
    forall x, y, z | ByKey(key)(x, y) && ByKey(key)(y, z) ensures ByKey(key)(x, z) {
      StringLeTransitive(key(x), key(y), key(z));
    }
  }

  lemma {:induction false} SortByPermutes<T>(s: seq<T>, key: T -> string)
    ensures multiset(SortBy(s, key)) == multiset(s)
  {
    SortPermutes(s, ByKey(key));
  }

  lemma {:induction false} SortSorts<T(!new)>(s: seq<T>, key: T -> string)
    ensures Sorted(SortBy(s, key), key)
  {
    hide StringLe, Sort;
    KeysOrder(key);
    SortOrders(s, ByKey(key));
    var sorted := SortBy(s, key);
    forall i, j | 0 <= i < j < |sorted| ensures StringLe(key(sorted[i]), key(sorted[j])) {
      assert ByKey(key)(sorted[i], sorted[j]);
    }
  }

  lemma {:induction false} SortedIsUnique<T(!new)>(a: seq<T>, b: seq<T>, key: T -> string)
    requires Sorted(a, key) && Sorted(b, key) && multiset(a) == multiset(b) && Keyed(a, key)
    ensures a == b
  {
    hide StringLe;
    forall x, y | x in a && y in a && ByKey(key)(x, y) && ByKey(key)(y, x) ensures x == y {
      StringLeAntisymmetric(key(x), key(y));
    }
    OrderedIsUnique(a, b, ByKey(key));
  }

  /** Sorting forgets the order of its input and nothing else. */
  lemma {:induction false} SortEqualIffPermuted<T(!new)>(a: seq<T>, b: seq<T>, key: T -> string)
    requires Keyed(a, key)
    ensures SortBy(a, key) == SortBy(b, key) <==> multiset(a) == multiset(b)
  {
    hide SortBy;
    SortByPermutes(a, key);
    SortByPermutes(b, key);
    if multiset(a) == multiset(b) {
      SortSorts(a, key);
      SortSorts(b, key);
      forall x | x in SortBy(a, key)
        ensures x in a
      {
        assert x in multiset(SortBy(a, key));
      }
      SortedIsUnique(SortBy(a, key), SortBy(b, key), key);
    }
  }

  lemma {:induction false} SortOfSorted<T(!new)>(s: seq<T>, key: T -> string)
    requires Keyed(s, key) && Sorted(s, key)
    ensures SortBy(s, key) == s
  {
    hide SortBy;
    SortByPermutes(s, key);
    SortSorts(s, key);
    SortedIsUnique(s, SortBy(s, key), key);
  }

  lemma {:induction false} SortMembers<T>(s: seq<T>, key: T -> string)
    ensures forall x :: x in SortBy(s, key) <==> x in s
  {
    hide SortBy;
    SortByPermutes(s, key);
    assert forall x :: x in SortBy(s, key) <==> x in multiset(SortBy(s, key));
    assert forall x :: x in s <==> x in multiset(s);
  }

  // -------------------------------------------------------- permutations

  ghost predicate IsPermutation(p: seq<nat>) {
    && (forall i :: 0 <= i < |p| ==> p[i] < |p|)
    && (forall i, j :: 0 <= i < j < |p| ==> p[i] != p[j])
  }

  /** `p` matches every element of `a` with an equal element of `b`. */
  ghost predicate Matches<T>(a: seq<T>, b: seq<T>, p: seq<nat>) {
    |a| == |b| == |p| && IsPermutation(p) && forall i :: 0 <= i < |a| ==> a[i] == b[p[i]]
  }

  function Skip(k: nat, j: nat): nat {
    if k < j then k else k + 1
  }

  /** Equal multisets can be matched. */
  lemma {:induction false} MatchPermuted<T>(a: seq<T>, b: seq<T>) returns (p: seq<nat>)
    requires multiset(a) == multiset(b)
    ensures Matches(a, b, p)
  {
    SameLength(a, b);
    if a == [] {
      p := [];
    } else {
      assert a[0] in multiset(b);
      var j: nat :| j < |b| && b[j] == a[0];
      RemoveFirst(a);
      RemoveAt(b, j);
      var q := MatchPermuted(a[1..], b[..j] + b[j + 1..]);
      p := ExtendMatch(a, b, j, q);
    }
  }

  lemma {:induction false} ExtendMatch<T>(a: seq<T>, b: seq<T>, j: nat, q: seq<nat>) returns (p: seq<nat>)
    requires a != [] && j < |b| && a[0] == b[j] && Matches(a[1..], b[..j] + b[j + 1..], q)
    ensures Matches(a, b, p)
  {
    var b' := b[..j] + b[j + 1..];
    p := [j] + seq(|q|, i requires 0 <= i < |q| => Skip(q[i], j));
    forall i | 0 < i < |a|
      ensures p[i] < |p| && p[i] != j && a[i] == b[p[i]]
    {
      assert a[i] == a[1..][i - 1] == b'[q[i - 1]];
    }
  }

  /** What can be matched has equal multisets. */
  lemma {:induction false} MatchedArePermuted<T>(a: seq<T>, b: seq<T>, p: seq<nat>)
    requires Matches(a, b, p)
    ensures multiset(a) == multiset(b)
  {
    if a != [] {
      var j := p[0];
      var q := ShrinkMatch(a, b, p);
      MatchedArePermuted(a[1..], b[..j] + b[j + 1..], q);
      RemoveFirst(a);
      RemoveAt(b, j);
      assert a[0] in multiset(a) && b[j] in multiset(b);
      assert multiset(a) == multiset(a[1..]) + multiset{a[0]};
    }
  }

  lemma {:induction false} ShrinkMatch<T>(a: seq<T>, b: seq<T>, p: seq<nat>) returns (q: seq<nat>)
    requires a != [] && Matches(a, b, p)
    ensures Matches(a[1..], b[..p[0]] + b[p[0] + 1..], q)
  {
    var j := p[0];
    var b' := b[..j] + b[j + 1..];
    q := seq(|p| - 1, i requires 0 <= i < |p| - 1 => if p[i + 1] < j then p[i + 1] else p[i + 1] - 1);
    forall i | 0 <= i < |q|
      ensures p[i + 1] != j && q[i] < |q| && a[1..][i] == b'[q[i]]
    {
      assert p[0] != p[i + 1];
    }
  }
}
