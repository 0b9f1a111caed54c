/** What splitting, joining, stripping and searching texts amounts to. */
module TextLaws {
  import opened Text

  predicate Blank(s: string) {
    forall c :: c in s ==> IsSpace(c)
  }

  predicate IsWord(w: string) {
    w != "" && forall c :: c in w ==> !IsSpace(c)
  }

  // ---------------------------------------------------------------- words

  lemma {:induction false} WordsOfBlank(s: string)
    requires Blank(s)
    ensures Words(s) == []
  {
    if s != "" {
      assert s[0] in s;
      WordsOfBlank(s[1..]);
    }
  }

  lemma {:induction false} WordsOfWord(w: string)
    requires IsWord(w)
    ensures Words(w) == [w]
  {
    WordLengthIs(w, "");
    assert w + "" == w && w[0] in w;
    assert w[..|w|] == w && w[|w|..] == "";
    assert Words("") == [];
  }

  /** A white space character separates words. */
  lemma {:induction false} WordsSplit(a: string, c: char, b: string)
    requires IsSpace(c)
    ensures Words(a + [c] + b) == Words(a) + Words(b)
    decreases |a|
  {
    hide IsSpace;
    var s := a + [c] + b;
    if a == "" {
      assert s == [c] + b && s[0] == c && s[1..] == b;
    } else if IsSpace(a[0]) {
      assert s[1..] == a[1..] + [c] + b;
      WordsSplit(a[1..], c, b);
    } else {
      var n := WordLength(a);
      var w, rest := a[..n], a[n..];
      assert a == w + rest && n > 0;
      assert forall x :: x in w ==> !IsSpace(x);
      var tail := rest + [c] + b;
      assert s == w + tail;
      assert tail[0] == if rest == "" then c else rest[0];
      WordLengthIs(w, tail);
      assert s[..n] == w && s[n..] == tail && !IsSpace(s[0]);
      WordsSplit(rest, c, b);
      assert [w] + (Words(rest) + Words(b)) == [w] + Words(rest) + Words(b);
    }
  }

  lemma {:induction false} WordsAreWords(s: string)
    ensures forall w :: w in Words(s) ==> IsWord(w)
    decreases |s|
  {
    if s != "" && IsSpace(s[0]) {
      WordsAreWords(s[1..]);
    } else if s != "" {
      var n := WordLength(s);
      assert IsWord(s[..n]);
      WordsAreWords(s[n..]);
    }
  }

  lemma {:induction false} SpaceIsSpace()
    ensures IsSpace(' ')
  {
  }

  /** Joining words by spaces keeps the words. */
  lemma {:induction false} WordsOfJoin(words: seq<string>)
    requires forall w :: w in words ==> IsWord(w)
    ensures Words(JoinBy(" ", words)) == words
  {
    hide Words, IsWord, IsSpace;
    if words == [] {
      WordsOfBlank("");
    } else {
      var w, rest := words[0], words[1..];
      assert w in words && forall x :: x in rest ==> x in words;
      WordsOfWord(w);
      if rest == [] {
        assert JoinBy(" ", words) == w + "" == w;
      } else {
        WordsOfJoin(rest);
        SpaceIsSpace();
        WordsSplit(w, ' ', JoinBy(" ", rest));
        assert JoinBy(" ", words) == w + (" " + JoinBy(" ", rest)) == w + [' '] + JoinBy(" ", rest);
        assert words == [w] + rest;
      }
    }
  }

  // ---------------------------------------------------------------- strip

  lemma {:induction false} StripLeftBlank(a: string, m: string)
    requires Blank(a) && (m != "" ==> !IsSpace(m[0]))
    ensures StripLeft(a + m) == m
  {
    if a == "" {
      assert a + m == m;
    } else {
      assert a[0] in a;
      assert (a + m)[1..] == a[1..] + m;
      StripLeftBlank(a[1..], m);
    }
  }

  lemma {:induction false} StripRightBlank(m: string, b: string)
    requires Blank(b) && (m != "" ==> !IsSpace(m[|m| - 1]))
    ensures StripRight(m + b) == m
  {
    if b == "" {
      assert m + b == m;
    } else {
      var n := |b| - 1;
      assert b[n] in b;
      assert (m + b)[..|m + b| - 1] == m + b[..n];
      StripRightBlank(m, b[..n]);
    }
  }

  /** Stripping takes away the white space around a text and nothing else. */
  lemma {:induction false} StripIsMiddle(a: string, m: string, b: string)
    requires Blank(a) && Blank(b) && Stripped(m)
    ensures Strip(a + m + b) == m
  {
    if m == "" {
      assert a + m + b == a + b + "";
      StripLeftBlank(a + b, "");
      StripRightBlank("", "");
    } else {
      assert a + m + b == a + (m + b);
      StripLeftBlank(a, m + b);
      StripRightBlank(m, b);
    }
  }

  // --------------------------------------------------------------- search

  lemma {:induction false} ContainsIff(s: string, part: string)
    ensures Contains(s, part) <==> exists i :: 0 <= i <= |s| && part <= s[i..]
  {
    if s == "" {
      assert s[0..] == s;
    } else {
      ContainsIff(s[1..], part);
      assert s[0..] == s;
      assert forall i :: 0 < i <= |s| ==> s[i..] == s[1..][i - 1..];
      if Contains(s[1..], part) {
        var i :| 0 <= i <= |s[1..]| && part <= s[1..][i..];
        assert part <= s[i + 1..];
      }
      if i :| 0 < i <= |s| && part <= s[i..] {
        assert part <= s[1..][i - 1..];
      }
    }
  }
}
