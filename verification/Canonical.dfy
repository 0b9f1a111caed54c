/**
 The canonical form of a JSON document: keys in order and every list sorted by the compact text of its canonical
 items. It is a complete normal form: two documents have the same canonical form exactly when they differ by the
 order of keys and by permutations of lists, at any depth.
*/
module Canonical {
  import opened Sorting
  import opened Json

  function FieldKey(f: Field): string {
    f.key
  }

  /** The document with the keys of every object in order. */
  function SortKeys(v: Value): Value
    decreases v, 0
  {
    match v
    case Arr(items) => Arr(SortKeysOfItems(items))
    case Obj(fields) => Obj(SortBy(SortKeysOfFields(fields), FieldKey))
    case _ => v
  }

  function SortKeysOfItems(items: seq<Value>): (r: seq<Value>)
    ensures |r| == |items| && forall i :: 0 <= i < |items| ==> r[i] == SortKeys(items[i])
    decreases items, 1
  {
    if items == [] then [] else [SortKeys(items[0])] + SortKeysOfItems(items[1..])
  }

  function SortKeysOfFields(fields: seq<Field>): (r: seq<Field>)
    ensures |r| == |fields| && forall i :: 0 <= i < |fields| ==> r[i] == Field(fields[i].key, SortKeys(fields[i].value))
    decreases fields, 1
  {
    if fields == [] then [] else [Field(fields[0].key, SortKeys(fields[0].value))] + SortKeysOfFields(fields[1..])
  }

  /** `json.dumps(v, sort_keys=True, separators=(",", ":"))` */
  function Dumps(v: Value): string {
    Write(SortKeys(v))
  }

  /** `_canonical_json` */
  function Canon(v: Value): Value
    decreases v, 0
  {
    match v
    case Obj(fields) => Obj(SortBy(CanonFields(fields), FieldKey))
    case Arr(items) => Arr(SortBy(CanonItems(items), Dumps))
    case _ => v
  }

  function CanonItems(items: seq<Value>): (r: seq<Value>)
    ensures |r| == |items| && forall i :: 0 <= i < |items| ==> r[i] == Canon(items[i])
    decreases items, 1
  {
    if items == [] then [] else [Canon(items[0])] + CanonItems(items[1..])
  }

  function CanonFields(fields: seq<Field>): (r: seq<Field>)
    ensures |r| == |fields| && forall i :: 0 <= i < |fields| ==> r[i] == Field(fields[i].key, Canon(fields[i].value))
    decreases fields, 1
  {
    if fields == [] then [] else [Field(fields[0].key, Canon(fields[0].value))] + CanonFields(fields[1..])
  }

  // ------------------------------------------------- the equivalence

  /** Equal up to the order of keys and permutations of lists, at any depth. */
  ghost predicate Same(a: Value, b: Value) {
    match a
    case Arr(items) =>
      && b.Arr?
      && exists p: seq<nat> :: IsPermutation(p) && |items| == |b.items| == |p|
           && forall i :: 0 <= i < |items| ==> Same(items[i], b.items[p[i]])
    case Obj(fields) =>
      && b.Obj?
      && exists p: seq<nat> :: IsPermutation(p) && |fields| == |b.fields| == |p|
           && forall i :: 0 <= i < |fields| ==>
                fields[i].key == b.fields[p[i]].key && Same(fields[i].value, b.fields[p[i]].value)
    case _ => a == b
  }

  /** `p` matches the items up to order inside them. */
  ghost predicate SameItems(xs: seq<Value>, ys: seq<Value>, p: seq<nat>) {
    IsPermutation(p) && |xs| == |ys| == |p| && forall i :: 0 <= i < |xs| ==> Same(xs[i], ys[p[i]])
  }

  ghost predicate SameFields(xs: seq<Field>, ys: seq<Field>, p: seq<nat>) {
    && IsPermutation(p) && |xs| == |ys| == |p|
    && forall i :: 0 <= i < |xs| ==> xs[i].key == ys[p[i]].key && Same(xs[i].value, ys[p[i]].value)
  }

  // --------------------------------------------- canonical values are sorted

  ghost predicate KeysSorted(v: Value) {
    match v
    case Arr(items) => forall x :: x in items ==> KeysSorted(x)
    case Obj(fields) => Sorted(fields, FieldKey) && forall f: Field :: f in fields ==> KeysSorted(f.value)
    case _ => true
  }

  lemma {:induction false} DistinctAreKeyed(fields: seq<Field>)
    requires DistinctKeys(fields)
    ensures Keyed(fields, FieldKey)
  {
    forall x, y | x in fields && y in fields && FieldKey(x) == FieldKey(y)
      ensures x == y
    {
      var i :| 0 <= i < |fields| && fields[i] == x;
      var j :| 0 <= j < |fields| && fields[j] == y;
      assert i == j;
    }
  }

  lemma {:induction false} SortKeepsDistinct(fields: seq<Field>)
    requires DistinctKeys(fields)
    ensures DistinctKeys(SortBy(fields, FieldKey))
  {
    hide SortBy;
    var sorted := SortBy(fields, FieldKey);
    SortByPermutes(fields, FieldKey);
    var p := MatchPermuted(sorted, fields);
    forall i, j | 0 <= i < j < |sorted|
      ensures sorted[i].key != sorted[j].key
    {
      assert p[i] != p[j];
      assert sorted[i] == fields[p[i]] && sorted[j] == fields[p[j]];
    }
  }

  lemma {:induction false} CanonIsSorted(v: Value)
    requires WellFormed(v)
    ensures WellFormed(Canon(v)) && KeysSorted(Canon(v))
  {
    match v
    case Arr(items) =>
      var canon := CanonItems(items);
      SortMembers(canon, Dumps);
      forall x | x in canon
        ensures WellFormed(x) && KeysSorted(x)
      {
        var i :| 0 <= i < |items| && canon[i] == x;
        CanonIsSorted(items[i]);
      }
    case Obj(fields) =>
      var canon := CanonFields(fields);
      SortMembers(canon, FieldKey);
      SortSorts(canon, FieldKey);
      SortKeepsDistinct(canon);
      forall f | f in canon
        ensures WellFormed(f.value) && KeysSorted(f.value)
      {
        var i :| 0 <= i < |fields| && canon[i] == f;
        CanonIsSorted(fields[i].value);
      }
    case _ =>
  }

  lemma {:induction false} SortKeysOfSorted(v: Value)
    requires WellFormed(v) && KeysSorted(v)
    ensures SortKeys(v) == v
  {
    match v
    case Arr(items) =>
      forall i | 0 <= i < |items|
        ensures SortKeys(items[i]) == items[i]
      {
        SortKeysOfSorted(items[i]);
      }
      assert SortKeysOfItems(items) == items;
    case Obj(fields) =>
      forall i | 0 <= i < |fields|
        ensures SortKeys(fields[i].value) == fields[i].value
      {
        SortKeysOfSorted(fields[i].value);
      }
      assert SortKeysOfFields(fields) == fields;
      DistinctAreKeyed(fields);
      SortOfSorted(fields, FieldKey);
    case _ =>
  }

  /** The sort key tells canonical values apart. */
  lemma {:induction false} DumpsInjective(x: Value, y: Value)
    requires WellFormed(x) && KeysSorted(x) && WellFormed(y) && KeysSorted(y)
    requires Dumps(x) == Dumps(y)
    ensures x == y
  {
    SortKeysOfSorted(x);
    SortKeysOfSorted(y);
    assert Write(x) + "" == Write(y) + "";
    WriteInjective(x, y, "", "");
  }

  lemma {:induction false} CanonItemsKeyed(items: seq<Value>)
    requires forall x :: x in items ==> WellFormed(x)
    ensures Keyed(CanonItems(items), Dumps)
  {
    hide Dumps, Canon, KeysSorted, WellFormed;
    var canon := CanonItems(items);
    forall x, y | x in canon && y in canon && Dumps(x) == Dumps(y)
      ensures x == y
    {
      var i :| 0 <= i < |items| && canon[i] == x;
      var j :| 0 <= j < |items| && canon[j] == y;
      CanonIsSorted(items[i]);
      CanonIsSorted(items[j]);
      DumpsInjective(x, y);
    }
  }

  // ------------------------------------------------------ completeness

  lemma {:induction false} CanonShape(v: Value)
    ensures v.Arr? ==> Canon(v) == Arr(SortBy(CanonItems(v.items), Dumps))
    ensures v.Obj? ==> Canon(v) == Obj(SortBy(CanonFields(v.fields), FieldKey))
    ensures !v.Arr? && !v.Obj? ==> Canon(v) == v
  {
    hide SortBy, Dumps, FieldKey;
  }

  lemma {:induction false} SameShape(a: Value, b: Value)
    ensures a.Arr? ==> (Same(a, b) <==> b.Arr? && exists p :: SameItems(a.items, b.items, p))
    ensures a.Obj? ==> (Same(a, b) <==> b.Obj? && exists p :: SameFields(a.fields, b.fields, p))
    ensures !a.Arr? && !a.Obj? ==> (Same(a, b) <==> a == b)
  {
    if Same(a, b) && a.Arr? {
      var p: seq<nat> :| IsPermutation(p) && |a.items| == |b.items| == |p|
                         && forall i :: 0 <= i < |a.items| ==> Same(a.items[i], b.items[p[i]]);
      assert SameItems(a.items, b.items, p);
    } else if Same(a, b) && a.Obj? {
      var p: seq<nat> :| IsPermutation(p) && |a.fields| == |b.fields| == |p|
                         && forall i :: 0 <= i < |a.fields| ==>
                              a.fields[i].key == b.fields[p[i]].key && Same(a.fields[i].value, b.fields[p[i]].value);
      assert SameFields(a.fields, b.fields, p);
    }
  }

  /** Equal canonical forms mean equal documents up to order, and the other way round. */
  lemma {:induction false} CanonIsComplete(a: Value, b: Value)
    requires WellFormed(a) && WellFormed(b)
    ensures Canon(a) == Canon(b) <==> Same(a, b)
    decreases a, 1
  {
    hide Canon, Same, SortBy, Dumps, CanonItems, CanonFields, SameItems, SameFields, FieldKey, IsFloatText;
    CanonShape(a);
    CanonShape(b);
    SameShape(a, b);
    if a.Arr? && b.Arr? {
      CanonItemsComplete(a.items, b.items);
    } else if a.Obj? && b.Obj? {
      CanonFieldsComplete(a.fields, b.fields);
    }
  }

  lemma {:induction false} CanonItemsComplete(xs: seq<Value>, ys: seq<Value>)
    requires forall x :: x in xs ==> WellFormed(x)
    requires forall y :: y in ys ==> WellFormed(y)
    ensures SortBy(CanonItems(xs), Dumps) == SortBy(CanonItems(ys), Dumps) <==> exists p :: SameItems(xs, ys, p)
    decreases xs, 0
  {
    hide SortBy, Dumps, WellFormed, IsPermutation, CanonItems, Same;
    var u, v := CanonItems(xs), CanonItems(ys);
    CanonItemsKeyed(xs);
    SortEqualIffPermuted(u, v, Dumps);
    forall i, j | 0 <= i < |xs| && 0 <= j < |ys|
      ensures u[i] == v[j] <==> Same(xs[i], ys[j])
    {
      CanonIsComplete(xs[i], ys[j]);
    }
    if multiset(u) == multiset(v) {
      var p := MatchPermuted(u, v);
      PermutationInRange(p);
      assert SameItems(xs, ys, p);
    }
    if p :| SameItems(xs, ys, p) {
      PermutationInRange(p);
      assert Matches(u, v, p);
      MatchedArePermuted(u, v, p);
    }
  }

  lemma {:induction false} PermutationInRange(p: seq<nat>)
    requires IsPermutation(p)
    ensures forall i :: 0 <= i < |p| ==> p[i] < |p|
  {
  }

  lemma {:induction false} CanonKeepsDistinct(fields: seq<Field>)
    requires DistinctKeys(fields)
    ensures DistinctKeys(CanonFields(fields))
  {
  }

  lemma {:induction false} CanonFieldsComplete(xs: seq<Field>, ys: seq<Field>)
    requires DistinctKeys(xs) && DistinctKeys(ys)
    requires forall f: Field :: f in xs ==> WellFormed(f.value)
    requires forall f: Field :: f in ys ==> WellFormed(f.value)
    ensures SortBy(CanonFields(xs), FieldKey) == SortBy(CanonFields(ys), FieldKey) <==>
      exists p :: SameFields(xs, ys, p)
    decreases xs, 0
  {
    hide SortBy, WellFormed, IsPermutation, CanonFields, Same, FieldKey, DistinctKeys;
    var u, v := CanonFields(xs), CanonFields(ys);
    CanonKeepsDistinct(xs);
    DistinctAreKeyed(u);
    SortEqualIffPermuted(u, v, FieldKey);
    forall i, j | 0 <= i < |xs| && 0 <= j < |ys|
      ensures u[i] == v[j] <==> xs[i].key == ys[j].key && Same(xs[i].value, ys[j].value)
    {
      assert xs[i] in xs && ys[j] in ys;
      CanonIsComplete(xs[i].value, ys[j].value);
    }
    if multiset(u) == multiset(v) {
      var p := MatchPermuted(u, v);
      PermutationInRange(p);
      assert SameFields(xs, ys, p);
    }
    if p :| SameFields(xs, ys, p) {
      PermutationInRange(p);
      assert Matches(u, v, p);
      MatchedArePermuted(u, v, p);
    }
  }

  /** The canonical form is itself equal to the document up to order. */
  lemma {:induction false} CanonIsSame(v: Value)
    ensures Same(v, Canon(v))
  {
    match v
    case Arr(items) =>
      var canon := CanonItems(items);
      SortByPermutes(canon, Dumps);
      var p := MatchPermuted(canon, SortBy(canon, Dumps));
      forall i | 0 <= i < |items|
        ensures Same(items[i], Canon(v).items[p[i]])
      {
        assert Canon(v).items[p[i]] == canon[i];
        CanonIsSame(items[i]);
      }
      assert SameItems(items, Canon(v).items, p);
    case Obj(fields) =>
      var canon := CanonFields(fields);
      SortByPermutes(canon, FieldKey);
      var p := MatchPermuted(canon, SortBy(canon, FieldKey));
      forall i | 0 <= i < |fields|
        ensures fields[i].key == Canon(v).fields[p[i]].key && Same(fields[i].value, Canon(v).fields[p[i]].value)
      {
        assert Canon(v).fields[p[i]] == canon[i];
        CanonIsSame(fields[i].value);
      }
      assert SameFields(fields, Canon(v).fields, p);
    case _ =>
  }

  lemma {:induction false} CanonIdempotent(v: Value)
    requires WellFormed(v)
    ensures Canon(Canon(v)) == Canon(v)
  {
    hide Canon, Same, WellFormed;
    CanonIsSorted(v);
    CanonIsSame(v);
    CanonIsComplete(v, Canon(v));
  }
}
