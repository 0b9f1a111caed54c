/** What expansion and reduction make of a control, circuit included. */
module ExpansionLaws {
  import opened Prelude
  import opened Text
  import opened TextLaws
  import opened SupportMatrix

  // -------------------------------------------------------- the replacement

  /** `find` stands at place `i` of the text and at none before it. */
  predicate FirstAt(text: string, find: string, i: nat) {
    i <= |text| && find <= text[i..] && forall j :: 0 <= j < i ==> !(find <= text[j..])
  }

  /** The text with the first occurrence replaced, and all later ones that do not overlap it, one by one. */
  ghost predicate Replaced(text: string, find: string, put: string, result: string)
    requires find != ""
    decreases |text|
  {
    if !Contains(text, find) then result == text
    else
      exists i: nat, rest: string ::
        FirstAt(text, find, i) && result == text[..i] + put + rest && Replaced(text[i + |find|..], find, put, rest)
  }

  lemma {:induction false} ReplaceNothing(text: string, find: string, put: string)
    requires find != "" && !Contains(text, find)
    ensures Replace(text, find, put) == text
  {
    if text != "" {
      ReplaceNothing(text[1..], find, put);
      assert text == [text[0]] + text[1..];
    }
  }

  lemma {:induction false} ReplaceSkips(text: string, find: string, put: string)
    requires find != "" && text != "" && !(find <= text)
    ensures Replace(text, find, put) == [text[0]] + Replace(text[1..], find, put)
  {
  }

  lemma {:induction false} ReplaceHere(text: string, find: string, put: string)
    requires find != "" && find <= text
    ensures Replace(text, find, put) == put + Replace(text[|find|..], find, put)
  {
  }

  lemma {:induction false} FirstLater(text: string, find: string, i: nat)
    requires FirstAt(text, find, i) && i > 0
    ensures text != "" && !(find <= text) && FirstAt(text[1..], find, i - 1)
  {
    assert text[0..] == text;
    assert forall j :: 0 <= j <= i - 1 ==> text[1..][j..] == text[j + 1..];
  }

  /** The first occurrence is replaced, and the rest of the text is treated in the same way. */
  lemma {:induction false} ReplaceFirst(text: string, find: string, put: string, i: nat)
    requires find != "" && FirstAt(text, find, i)
    ensures Replace(text, find, put) == text[..i] + put + Replace(text[i + |find|..], find, put)
    decreases i
  {
    hide Replace;
    if i == 0 {
      assert text[0..] == text && text[..0] == "";
      ReplaceHere(text, find, put);
    } else {
      FirstLater(text, find, i);
      hide FirstAt;
      ReplaceSkips(text, find, put);
      ReplaceFirst(text[1..], find, put, i - 1);
      var rest := Replace(text[i + |find|..], find, put);
      assert text[1..][i - 1 + |find|..] == text[i + |find|..];
      assert [text[0]] + text[1..][..i - 1] == text[..i];
      assert [text[0]] + (text[1..][..i - 1] + put + rest) == text[..i] + put + rest;
    }
  }

  lemma {:induction false} FirstPlace(text: string, find: string) returns (i: nat)
    requires Contains(text, find)
    ensures FirstAt(text, find, i)
  {
    if find <= text {
      i := 0;
      assert text[0..] == text;
    } else {
      var j := FirstPlace(text[1..], find);
      i := j + 1;
      assert text[i..] == text[1..][j..] && text[0..] == text;
      assert forall k :: 1 <= k < i ==> text[k..] == text[1..][k - 1..];
    }
  }

  /** `str.replace` for a text that is not empty. */
  lemma {:induction false} ReplaceReplaces(text: string, find: string, put: string)
    requires find != ""
    ensures Replaced(text, find, put, Replace(text, find, put))
    decreases |text|
  {
    hide Replace;
    if Contains(text, find) {
      var i := FirstPlace(text, find);
      ReplaceFirst(text, find, put, i);
      ReplaceReplaces(text[i + |find|..], find, put);
    } else {
      ReplaceNothing(text, find, put);
    }
  }

  /** The empty text stands at both ends and between all characters. */
  lemma {:induction false} ReplaceEverywhere(a: string, c: char, b: string, put: string)
    ensures Replace("", "", put) == put
    ensures Replace(a + [c] + b, "", put) == Replace(a, "", put) + [c] + Replace(b, "", put)
    decreases |a|
  {
    var s := a + [c] + b;
    if a == "" {
      assert s == [c] + b && s[1..] == b;
    } else {
      assert s[1..] == a[1..] + [c] + b && s[0] == a[0];
      ReplaceEverywhere(a[1..], c, b, put);
      var x, y := Replace(a[1..], "", put), Replace(b, "", put);
      assert put + [a[0]] + (x + [c] + y) == put + [a[0]] + x + [c] + y;
    }
  }

  // ---------------------------------------------------- nothing is left over

  predicate Disjoint(find: string, put: string) {
    forall c :: c in find ==> c !in put
  }

  /** Where it can be found afterwards: before the place, behind it, or over what was put there. */
  lemma {:induction false} WhereFound(a: string, find: string, put: string, rest: string, k: nat)
    requires find != "" && put != "" && k <= |a + put + rest| && find <= (a + put + rest)[k..]
    ensures (k < |a| && find <= (a + find)[k..]) || Contains(rest, find) || !Disjoint(find, put)
  {
    var s, m := a + put + rest, |find|;
    assert forall j :: 0 <= j < m ==> s[k + j] == find[j] && find[j] in find;
    if k + m <= |a| {
      assert (a + find)[k..][..m] == find;
    } else if k >= |a| + |put| {
      ContainsIff(rest, find);
      assert rest[k - |a| - |put|..] == s[k..];
    } else {
      var p := if k < |a| then |a| else k;
      assert s[p] == put[p - |a|] && s[p] in put;
      assert find[p - k] == s[p];
    }
  }

  lemma {:induction false} NoneInside(a: string, find: string, put: string, rest: string, k: nat)
    requires find != "" && put != "" && Disjoint(find, put)
    requires forall j :: 0 <= j < |a| ==> !(find <= (a + find)[j..])
    requires !Contains(rest, find) && k <= |a + put + rest|
    ensures !(find <= (a + put + rest)[k..])
  {
    if find <= (a + put + rest)[k..] {
      WhereFound(a, find, put, rest, k);
    }
  }

  lemma {:induction false} FoundInFront(text: string, find: string, i: nat, j: nat)
    requires i <= |text| && find <= text[i..] && j < i && find <= (text[..i] + find)[j..]
    ensures find <= text[j..]
  {
    assert text == text[..i] + text[i..];
    assert (text[..i] + find)[j..] <= text[j..];
  }

  lemma {:induction false} NoneInFront(text: string, find: string, i: nat, j: nat)
    requires FirstAt(text, find, i) && j < i
    ensures !(find <= (text[..i] + find)[j..])
  {
    if find <= (text[..i] + find)[j..] {
      FoundInFront(text, find, i, j);
    }
  }

  /** Where a text is replaced by one that shares no character with it and is not empty, it is gone. */
  lemma {:induction false} ReplacedIsGone(text: string, find: string, put: string)
    requires find != "" && put != "" && Disjoint(find, put)
    ensures !Contains(Replace(text, find, put), find)
    decreases |text|
  {
    hide Replace;
    if Contains(text, find) {
      var i := FirstPlace(text, find);
      var a, rest := text[..i], Replace(text[i + |find|..], find, put);
      ReplaceFirst(text, find, put, i);
      ReplacedIsGone(text[i + |find|..], find, put);
      forall j | 0 <= j < |a| ensures !(find <= (a + find)[j..]) {
        NoneInFront(text, find, i, j);
      }
      var result := a + put + rest;
      forall k | 0 <= k <= |result| ensures !(find <= result[k..]) {
        NoneInside(a, find, put, rest, k);
      }
      ContainsIff(result, find);
    } else {
      ReplaceNothing(text, find, put);
    }
  }

  /** One character, some number of times. */
  predicate Uniform(find: string) {
    forall i :: 0 <= i < |find| ==> find[i] == find[0]
  }

  lemma {:induction false} FoundEarlier(text: string, find: string, i: nat)
    requires find != "" && Uniform(find) && 0 < i <= |text| && find <= text[i..] && text[i - 1] == find[0]
    ensures find <= text[i - 1..]
  {
    var t := text[i - 1..];
    assert forall k :: 0 <= k < |find| ==> text[i..][k] == find[k];
    forall k | 0 <= k < |find| ensures t[k] == find[k] {
      assert k > 0 ==> t[k] == text[i..][k - 1];
    }
  }

  /** Where the removed text is one character repeated, nothing in front of its first occurrence ends with that one. */
  lemma {:induction false} NoneBefore(text: string, find: string, i: nat)
    requires find != "" && Uniform(find) && FirstAt(text, find, i) && i > 0
    ensures text[i - 1] != find[0]
  {
    if text[i - 1] == find[0] {
      FoundEarlier(text, find, i);
    }
  }

  lemma {:induction false} FoundAcross(a: string, find: string, rest: string, k: nat)
    requires find != "" && Uniform(find) && k <= |a + rest| && find <= (a + rest)[k..]
    ensures (k < |a| && find <= (a + find)[k..]) || Contains(rest, find) || (a != "" && a[|a| - 1] == find[0])
  {
    assert forall j :: 0 <= j < |find| ==> (a + rest)[k + j] == find[j];
    if k >= |a| {
      ContainsIff(rest, find);
      assert rest[k - |a|..] == (a + rest)[k..];
    } else if k + |find| <= |a| {
      assert (a + find)[k..][..|find|] == find;
    } else {
      assert (a + rest)[k + (|a| - 1 - k)] == find[|a| - 1 - k];
    }
  }

  lemma {:induction false} NoneAcross(a: string, find: string, rest: string, k: nat)
    requires find != "" && Uniform(find) && (a != "" ==> a[|a| - 1] != find[0])
    requires forall j :: 0 <= j < |a| ==> !(find <= (a + find)[j..])
    requires !Contains(rest, find) && k <= |a + rest|
    ensures !(find <= (a + rest)[k..])
  {
    if find <= (a + rest)[k..] {
      FoundAcross(a, find, rest, k);
    }
  }

  /** Where a repeated character is removed, the removed text is gone. */
  lemma {:induction false} RemovedIsGone(text: string, find: string)
    requires find != "" && Uniform(find)
    ensures !Contains(Replace(text, find, ""), find)
    decreases |text|
  {
    hide Replace;
    if Contains(text, find) {
      var i := FirstPlace(text, find);
      var a, rest := text[..i], Replace(text[i + |find|..], find, "");
      ReplaceFirst(text, find, "", i);
      RemovedIsGone(text[i + |find|..], find);
      forall j | 0 <= j < |a| ensures !(find <= (a + find)[j..]) {
        NoneInFront(text, find, i, j);
      }
      if i > 0 {
        NoneBefore(text, find, i);
      }
      assert a + "" + rest == a + rest;
      forall k | 0 <= k <= |a + rest| ensures !(find <= (a + rest)[k..]) {
        NoneAcross(a, find, rest, k);
      }
      ContainsIff(a + rest, find);
    } else {
      ReplaceNothing(text, find, "");
    }
  }

  /** Any other text stands again where it is removed from between its first character and the others. */
  lemma {:induction false} RemovedComesBack(find: string)
    requires find != "" && !Uniform(find)
    ensures Replace(find[..1] + find + find[1..], find, "") == find
  {
    hide Replace;
    var text, rest := find[..1] + find + find[1..], find[1..];
    assert text[1..] == find + rest;
    if find <= text {
      forall i | 0 <= i < |find| ensures find[i] == find[0] {
        Shifts(find, i);
      }
    }
    assert text[0..] == text;
    assert FirstAt(text, find, 1);
    ReplaceFirst(text, find, "", 1);
    ContainsIff(rest, find);
    assert text[1 + |find|..] == rest;
    ReplaceNothing(rest, find, "");
    assert text[..1] + "" + rest == find;
  }

  /** Removing `ab` from `aabb` leaves `ab`. */
  lemma {:induction false} ReplacedByNothing()
    ensures Replace("aabb", "ab", "") == "ab" && Contains("ab", "ab")
  {
    assert "ab"[0] != "ab"[1];
    RemovedComesBack("ab");
    assert "ab"[..1] + "ab" + "ab"[1..] == "aabb";
  }

  lemma {:induction false} Shifts(find: string, i: nat)
    requires i < |find| && find <= find[..1] + find + find[1..]
    ensures find[i] == find[0]
  {
    if i > 0 {
      Shifts(find, i - 1);
      assert (find[..1] + find + find[1..])[i] == find[i - 1];
    }
  }

  /**
   Where the two texts share no character: the replaced text is gone from every text exactly when it gives way to
   something, or is one character repeated.
  */
  lemma {:induction false} ReplacedIsGoneIff(find: string, put: string)
    requires find != "" && Disjoint(find, put)
    ensures (forall text :: !Contains(Replace(text, find, put), find)) <==> put != "" || Uniform(find)
  {
    hide Replace, Contains, Uniform, Disjoint;
    if put != "" || Uniform(find) {
      forall text ensures !Contains(Replace(text, find, put), find) {
        if put != "" {
          ReplacedIsGone(text, find, put);
        } else {
          RemovedIsGone(text, find);
        }
      }
    } else {
      RemovedComesBack(find);
      ContainsIff(find, find);
      assert find[0..] == find;
      assert Contains(Replace(find[..1] + find + find[1..], find, put), find);
    }
  }

  // ------------------------------------------------------- the whole control

  /** What a variant of a control is. */
  ghost predicate IsInstance(e: Control, c: Control, v: Variant)
    requires c.dataset.Variants?
  {
    && e.id == c.id + ":" + v.id && e.decoders == c.decoders && e.expected == c.expected
    && e.dataset.Inline? && e.dataset.shots == c.dataset.shots
    && (v.find != "" ==> Replaced(c.dataset.base, v.find, v.put, e.dataset.circuit))
    && (v.find != "" && Disjoint(v.find, v.put) && (v.put != "" || Uniform(v.find)) ==>
          !Contains(e.dataset.circuit, v.find))
  }

  lemma {:induction false} InstanceIs(c: Control, v: Variant)
    requires c.dataset.Variants?
    ensures IsInstance(Instance(c, v), c, v)
  {
    hide Replace, Replaced, Contains;
    if v.find != "" {
      ReplaceReplaces(c.dataset.base, v.find, v.put);
      if v.put == "" && Uniform(v.find) {
        RemovedIsGone(c.dataset.base, v.find);
      }
      if v.put != "" && Disjoint(v.find, v.put) {
        ReplacedIsGone(c.dataset.base, v.find, v.put);
      }
    }
  }

  lemma {:induction false} InstancesAre(c: Control, variants: seq<Variant>)
    requires c.dataset.Variants? && Instances(c, variants).Ok?
    ensures var es := Instances(c, variants).value;
      |es| == |variants| && forall k :: 0 <= k < |es| ==> IsInstance(es[k], c, variants[k])
    decreases |variants|
  {
    hide Instance, IsInstance, Contains;
    if variants != [] {
      InstanceIs(c, variants[0]);
      InstancesAre(c, variants[1..]);
    }
  }

  /** What becomes of one control: itself, or one instance for every variant. */
  ghost predicate IsExpansion(es: seq<Control>, c: Control) {
    if c.dataset.Variants? then
      |es| == |c.dataset.variants| && forall k :: 0 <= k < |es| ==> IsInstance(es[k], c, c.dataset.variants[k])
    else es == [c]
  }

  /** `parts` cuts the expanded controls into the expansions of the controls. */
  ghost predicate Expands(controls: seq<Control>, expanded: seq<Control>, parts: seq<seq<Control>>)
    decreases |controls|
  {
    if controls == [] then expanded == [] && parts == []
    else
      && parts != [] && IsExpansion(parts[0], controls[0]) && parts[0] <= expanded
      && Expands(controls[1..], expanded[|parts[0]|..], parts[1..])
  }

  /** The expanded controls are the expansions of the controls, one behind the other. */
  lemma {:induction false} ExpansionIs(controls: seq<Control>) returns (parts: seq<seq<Control>>)
    requires Expand(controls).Ok?
    ensures Expands(controls, Expand(controls).value, parts)
    decreases |controls|
  {
    hide Instances, IsInstance;
    if controls == [] {
      parts := [];
    } else {
      var c := controls[0];
      var rest := ExpansionIs(controls[1..]);
      if c.dataset.Variants? {
        InstancesAre(c, c.dataset.variants);
      }
      var first, more := ExpandOne(c).value, Expand(controls[1..]).value;
      parts := [first] + rest;
      assert Expand(controls).value == first + more;
      assert (first + more)[|first|..] == more && parts[1..] == rest;
    }
  }

  /** Different variants of one control have different ids. */
  lemma {:induction false} VariantIdsDiffer(e: Control, f: Control, c: Control, v: Variant, w: Variant)
    requires c.dataset.Variants? && IsInstance(e, c, v) && IsInstance(f, c, w) && e.id == f.id
    ensures v.id == w.id
  {
    var prefix := c.id + ":";
    assert e.id[|prefix|..] == v.id && f.id[|prefix|..] == w.id;
  }

  // ----------------------------------------------------------- the reduction

  /** What is kept of a control: its decoders among the available ones, in their order; all else is unchanged. */
  predicate IsNarrowed(e: Control, c: Control, available: set<string>) {
    e == c.(decoders := e.decoders) && e.decoders == KeepNames(c.decoders, available) && e.decoders != []
  }

  /** The names that are kept are those among the available ones, as often and in the order they had. */
  lemma {:induction false} KeepsOrder(names: seq<string>, more: seq<string>, available: set<string>)
    ensures KeepNames(names + more, available) == KeepNames(names, available) + KeepNames(more, available)
  {
    if names == [] {
      assert names + more == more;
    } else {
      assert (names + more)[1..] == names[1..] + more;
      KeepsOrder(names[1..], more, available);
    }
  }

  /** The reduced matrix keeps every control that names an available decoder, unchanged but for its decoders. */
  lemma {:induction false} ReduceKeeps(controls: seq<Control>, available: set<string>, e: Control)
    ensures e in Reduce(controls, available) <==> exists c :: c in controls && IsNarrowed(e, c, available)
    decreases |controls|
  {
    hide KeepNames;
    if controls != [] {
      ReduceKeeps(controls[1..], available, e);
      var c := controls[0];
      assert forall x :: x in controls <==> x == c || x in controls[1..];
      if IsNarrowed(e, c, available) {
        assert e == Narrow(c, available);
      }
    }
  }
}
