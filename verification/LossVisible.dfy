/**
 The loss-visible annotator on text: the rewriting of record references inside one line, and the pass over
 the lines of a flattened circuit. Every `M`/`MR` becomes `ML`/`MRL` with a `LOSS` line in front, every `CX` is
 followed by a `LOSS` line, and `rec[-k]` becomes `rec[-(2k-1)]`.
*/
module LossVisible {
  import opened Prelude
  import opened Text

  // -------------------------------------------------- record references

  const REFERENCE := "rec[-"

  /** The number of leading digits of `s`. */
  function DigitRun(s: string): (n: nat)
    ensures n <= |s| && AllDigits(s[..n]) && (n < |s| ==> !IsDigit(s[n]))
  {
    if s == "" || !IsDigit(s[0]) then 0 else
      var n := 1 + DigitRun(s[1..]);
      assert s[..n] == [s[0]] + s[1..][..n - 1];
      n
  }

  /** The reference with these digits. */
  function Spell(digits: string): (s: string)
    ensures |s| == 6 + |digits| && s[0] == 'r'
  {
    REFERENCE + digits + "]"
  }

  /** The digits of the reference that `s` starts with, if it starts with one. */
  function ReferenceAt(s: string): (r: Option<string>)
    ensures r.Some? ==> r.value != "" && AllDigits(r.value)
    ensures r.Some? ==> Spell(r.value) <= s && s == Spell(r.value) + s[6 + |r.value|..]
  {
    if REFERENCE <= s then
      var n := DigitRun(s[5..]);
      if 0 < n < |s| - 5 && s[5 + n] == ']' then
        assert Spell(s[5..][..n]) == s[..6 + n];
        Some(s[5..][..n])
      else None
    else None
  }

  function PrintReference(i: int): string {
    Spell(PrintInt(i))
  }

  /** Replaces the number `k` of every reference, left to right, by `f(k)`. */
  function RewriteReferences(s: string, f: nat -> int): string {
    if s == "" then ""
    else match ReferenceAt(s)
      case Some(digits) => PrintReference(f(ParseNat(digits))) + RewriteReferences(s[6 + |digits|..], f)
      case None => [s[0]] + RewriteReferences(s[1..], f)
  }

  /** The numbers of the references in `s`, left to right. */
  function References(s: string): seq<nat> {
    if s == "" then []
    else match ReferenceAt(s)
      case Some(digits) => [ParseNat(digits)] + References(s[6 + |digits|..])
      case None => References(s[1..])
  }

  /** `s` with every reference reduced to a bare `rec[-]`: the text outside the numbers. */
  function Skeleton(s: string): string {
    if s == "" then ""
    else match ReferenceAt(s)
      case Some(digits) => "rec[-]" + Skeleton(s[6 + |digits|..])
      case None => [s[0]] + Skeleton(s[1..])
  }

  /** Every reference in `s` is written without superfluous zeros. */
  predicate CanonicalReferences(s: string) {
    s == "" ||
    match ReferenceAt(s)
    case Some(digits) => Canonical(digits) && CanonicalReferences(s[6 + |digits|..])
    case None => CanonicalReferences(s[1..])
  }

  lemma {:induction false} DigitRunIs(d: string, rest: string)
    requires AllDigits(d) && (rest != "" ==> !IsDigit(rest[0]))
    ensures DigitRun(d + rest) == |d|
  {
    if d != "" {
      assert d[0] in d;
      assert (d + rest)[1..] == d[1..] + rest;
      DigitRunIs(d[1..], rest);
    } else {
      assert d + rest == rest;
    }
  }

  lemma {:induction false} ReferenceAtIs(d: string, rest: string)
    requires d != "" && AllDigits(d)
    ensures ReferenceAt(Spell(d) + rest) == Some(d)
    ensures (Spell(d) + rest)[6 + |d|..] == rest
  {
    var s := Spell(d) + rest;
    assert s[..5] == REFERENCE;
    assert s[5..] == d + ("]" + rest);
    DigitRunIs(d, "]" + rest);
    assert s[5..][..|d|] == d;
  }

  lemma {:induction false} SameReference(d: string, t: string, d': string, t': string)
    requires d != "" && AllDigits(d) && d' != "" && AllDigits(d')
    requires Spell(d) + t == Spell(d') + t'
    ensures d == d' && t == t'
  {
    hide ReferenceAt, Spell, AllDigits;
    ReferenceAtIs(d, t);
    ReferenceAtIs(d', t');
  }

  lemma {:induction false} PrefixIsReference(s: string, d: string)
    requires d != "" && AllDigits(d) && Spell(d) <= s
    ensures ReferenceAt(s) == Some(d)
  {
    hide ReferenceAt, Spell, AllDigits;
    ReferenceAtIs(d, s[6 + |d|..]);
    assert s == Spell(d) + s[6 + |d|..];
  }

  /** A rewritten text starts with a piece free of `r` only if the original does. */
  lemma {:induction false} PieceThroughRewrite(s: string, w: string, f: nat -> int)
    requires 'r' !in w && w <= RewriteReferences(s, f)
    ensures w <= s
  {
    hide ReferenceAt, ParseNat, PrintInt, Spell;
    if w != "" {
      assert w[0] in w;
      assert RewriteReferences(s, f)[0] == w[0];
      if ReferenceAt(s) == None {
        assert RewriteReferences(s, f)[1..] == RewriteReferences(s[1..], f);
        PieceThroughRewrite(s[1..], w[1..], f);
      } else {
        assert false;
      }
    }
  }

  /** Rewriting what follows a character does not complete a reference that starts at the character. */
  lemma {:induction false} NoNewReference(s: string, f: nat -> int)
    requires s != "" && ReferenceAt(s) == None
    ensures ReferenceAt([s[0]] + RewriteReferences(s[1..], f)) == None
  {
    hide ReferenceAt, RewriteReferences, AllDigits, Spell;
    var t := [s[0]] + RewriteReferences(s[1..], f);
    if ReferenceAt(t).Some? {
      var d := ReferenceAt(t).value;
      var w := Spell(d)[1..];
      assert t[1..] == RewriteReferences(s[1..], f);
      assert w <= t[1..];
      SpellHasOneR(d);
      PieceThroughRewrite(s[1..], w, f);
      assert Spell(d) == [s[0]] + w;
      PrefixIsReference(s, d);
    }
  }

  lemma {:induction false} SpellHasOneR(d: string)
    requires AllDigits(d)
    ensures 'r' !in Spell(d)[1..]
  {
    assert Spell(d)[1..] == "ec[-" + d + "]";
  }

  /** What a rewritten text starts with. */
  lemma {:induction false} RewriteHead(s: string, f: nat -> int)
    requires s != ""
    ensures var t := RewriteReferences(s, f);
            match ReferenceAt(s)
            case Some(digits) =>
              f(ParseNat(digits)) >= 0 ==>
                var d := PrintNat(f(ParseNat(digits)));
                && t != "" && ReferenceAt(t) == Some(d) && ParseNat(d) == f(ParseNat(digits))
                && t == Spell(d) + t[6 + |d|..]
                && t[6 + |d|..] == RewriteReferences(s[6 + |digits|..], f)
            case None =>
              t != "" && t[0] == s[0] && ReferenceAt(t) == None && t[1..] == RewriteReferences(s[1..], f)
  {
    hide ReferenceAt, ParseNat, PrintNat, Spell;
    match ReferenceAt(s)
    case Some(digits) =>
      if f(ParseNat(digits)) >= 0 {
        ReferenceAtIs(PrintNat(f(ParseNat(digits))), RewriteReferences(s[6 + |digits|..], f));
        ParsePrint(f(ParseNat(digits)));
      }
    case None =>
      NoNewReference(s, f);
  }

  /** Rewriting changes the numbers of the references as asked. */
  lemma {:induction false} RewriteNumbers(s: string, f: nat -> int)
    requires forall k :: k in References(s) ==> f(k) >= 0
    ensures |References(RewriteReferences(s, f))| == |References(s)|
    ensures forall i :: 0 <= i < |References(s)| ==> References(RewriteReferences(s, f))[i] == f(References(s)[i])
  {
    hide ReferenceAt, ParseNat, PrintReference, Spell;
    if s != "" {
      RewriteHead(s, f);
      match ReferenceAt(s)
      case Some(digits) =>
        var k, rest := ParseNat(digits), s[6 + |digits|..];
        assert References(s) == [k] + References(rest);
        assert k in References(s);
        RewriteNumbers(rest, f);
        var t := RewriteReferences(s, f);
        assert References(t) == [f(k)] + References(RewriteReferences(rest, f));
      case None =>
        RewriteNumbers(s[1..], f);
    }
  }

  /** Rewriting leaves the text around the numbers alone. */
  lemma {:induction false} RewriteSkeleton(s: string, f: nat -> int)
    requires forall k :: k in References(s) ==> f(k) >= 0
    ensures Skeleton(RewriteReferences(s, f)) == Skeleton(s)
  {
    hide ReferenceAt, ParseNat, PrintReference, Spell;
    if s != "" {
      RewriteHead(s, f);
      match ReferenceAt(s)
      case Some(digits) =>
        assert References(s) == [ParseNat(digits)] + References(s[6 + |digits|..]);
        assert ParseNat(digits) in References(s);
        RewriteSkeleton(s[6 + |digits|..], f);
      case None =>
        RewriteSkeleton(s[1..], f);
    }
  }

  /** Two successive rewritings are one, provided the first leaves references behind. */
  lemma {:induction false} RewriteTwice(s: string, f: nat -> int, g: nat -> int, h: nat -> int)
    requires forall k :: k in References(s) ==> f(k) >= 0 && g(f(k)) == h(k)
    ensures RewriteReferences(RewriteReferences(s, f), g) == RewriteReferences(s, h)
  {
    hide ReferenceAt, ParseNat, PrintReference, Spell;
    if s != "" {
      RewriteHead(s, f);
      match ReferenceAt(s)
      case Some(digits) =>
        var k, rest := ParseNat(digits), s[6 + |digits|..];
        assert References(s) == [k] + References(rest);
        assert k in References(s);
        RewriteTwice(rest, f, g, h);
      case None =>
        RewriteTwice(s[1..], f, g, h);
    }
  }

  lemma {:induction false} RewriteIdentity(s: string, f: nat -> int)
    requires CanonicalReferences(s)
    requires forall k :: k in References(s) ==> f(k) == k
    ensures RewriteReferences(s, f) == s
  {
    hide ReferenceAt, ParseNat, PrintNat, Spell;
    if s != "" {
      match ReferenceAt(s)
      case Some(digits) =>
        var k, rest := ParseNat(digits), s[6 + |digits|..];
        assert References(s) == [k] + References(rest);
        assert k in References(s);
        PrintParse(digits);
        RewriteIdentity(rest, f);
      case None =>
        RewriteIdentity(s[1..], f);
    }
  }

  /** Rewriting keeps the first character. */
  lemma {:induction false} RewriteKeepsFirst(s: string, f: nat -> int)
    ensures RewriteReferences(s, f) == "" <==> s == ""
    ensures s != "" ==> RewriteReferences(s, f)[0] == s[0]
  {
    hide ReferenceAt, ParseNat, PrintInt, Spell;
  }

  /** A start free of `r` is copied. */
  lemma {:induction false} RewriteKeepsStart(w: string, s: string, f: nat -> int)
    requires 'r' !in w
    ensures RewriteReferences(w + s, f) == w + RewriteReferences(s, f)
  {
    hide ReferenceAt, ParseNat, PrintReference, Spell;
    if w == "" {
      assert w + s == s;
    } else {
      assert w[0] in w;
      assert (w + s)[1..] == w[1..] + s;
      RewriteKeepsStart(w[1..], s, f);
      assert ReferenceAt(w + s) == None;
    }
  }

  // ------------------------------------------------------ the two shifts

  /** `shift_rec_refs` */
  function ShiftReferences(line: string): string {
    RewriteReferences(line, k => 2 * k - 1)
  }

  function UnshiftReferences(line: string): string {
    RewriteReferences(line, j => (j + 1) / 2)
  }

  /**
   Shifting multiplies the references as promised and leaves the text around them alone; a shifted reference
   is again a reference exactly when its number was positive.
  */
  lemma {:induction false} ShiftIsExact(line: string)
    requires 0 !in References(line)
    ensures |References(ShiftReferences(line))| == |References(line)|
    ensures forall i :: 0 <= i < |References(line)| ==>
              References(ShiftReferences(line))[i] == 2 * References(line)[i] - 1
    ensures Skeleton(ShiftReferences(line)) == Skeleton(line)
  {
    var f: nat -> int := k => 2 * k - 1;
    assert forall k :: k in References(line) ==> f(k) >= 0;
    RewriteNumbers(line, f);
    RewriteSkeleton(line, f);
  }

  /** `rec[-0]`, which is no reference to begin with, becomes a text that is not even spelled like one. */
  lemma {:induction false} ShiftOfZero()
    ensures ShiftReferences("rec[-0]") == "rec[--1]" && ReferenceAt("rec[--1]") == None
  {
    PrefixIsReference("rec[-0]", "0");
    ParsePrint(0);
    assert PrintNat(0) == "0";
    PrintOne();
    assert RewriteReferences("", k => 2 * k - 1) == "";
    assert DigitRun("-1]") == 0;
    assert "rec[--1]"[5..] == "-1]";
  }

  lemma {:induction false} PrintOne()
    ensures PrintNat(1) == "1"
  {
  }

  /**
   Unshifting undoes shifting on exactly the lines whose references are written without superfluous zeros and
   are positive.
  */
  lemma {:induction false} UnshiftShift(line: string)
    ensures UnshiftReferences(ShiftReferences(line)) == line
       <==> CanonicalReferences(line) && 0 !in References(line)
  {
    if CanonicalReferences(line) && 0 !in References(line) {
      UnshiftShiftRestores(line);
    } else if UnshiftReferences(ShiftReferences(line)) == line {
      UnshiftShiftOnlyIf(line);
    }
  }

  lemma {:induction false} UnshiftShiftRestores(line: string)
    requires CanonicalReferences(line) && 0 !in References(line)
    ensures UnshiftReferences(ShiftReferences(line)) == line
  {
    RewriteTwice(line, k => 2 * k - 1, j => (j + 1) / 2, k => k);
    RewriteIdentity(line, k => k);
  }

  lemma {:induction false} UnshiftShiftOnlyIf(line: string)
    requires UnshiftReferences(ShiftReferences(line)) == line
    ensures CanonicalReferences(line) && 0 !in References(line)
  {
    hide ReferenceAt, ParseNat, PrintReference, Spell, Canonical;
    if line != "" {
      var shifted := ShiftReferences(line);
      RewriteHead(line, k => 2 * k - 1);
      RewriteHead(shifted, j => (j + 1) / 2);
      match ReferenceAt(line)
      case Some(digits) =>
        var k, rest := ParseNat(digits), line[6 + |digits|..];
        if k == 0 {
          ZeroIsNotRestored(line, digits);
        } else {
          RestoredHead(line, digits);
          UnshiftShiftOnlyIf(rest);
        }
      case None =>
        UnshiftShiftOnlyIf(line[1..]);
    }
  }

  lemma {:induction false} RestoredHead(line: string, digits: string)
    requires line != "" && ReferenceAt(line) == Some(digits) && ParseNat(digits) > 0
    requires UnshiftReferences(ShiftReferences(line)) == line
    ensures Canonical(digits)
    ensures UnshiftReferences(ShiftReferences(line[6 + |digits|..])) == line[6 + |digits|..]
  {
    hide ReferenceAt, ParseNat, PrintNat, Spell, Canonical, RewriteReferences;
    var k, rest := ParseNat(digits), line[6 + |digits|..];
    var shifted := ShiftReferences(line);
    RewriteHead(line, k => 2 * k - 1);
    RewriteHead(shifted, j => (j + 1) / 2);
    SameReference(PrintNat(k), UnshiftReferences(ShiftReferences(rest)), digits, rest);
    PrintCanonical(k);
  }

  lemma {:induction false} ZeroIsNotRestored(line: string, digits: string)
    requires line != "" && ReferenceAt(line) == Some(digits) && ParseNat(digits) == 0
    ensures UnshiftReferences(ShiftReferences(line)) != line
  {
    hide ReferenceAt, ParseNat, PrintNat;
    var rest := ShiftReferences(line[6 + |digits|..]);
    assert PrintReference(-1) + rest == ShiftReferences(line);
    MinusIsKept(rest);
    assert line[5] == digits[0] && digits[0] in digits;
  }

  lemma {:induction false} MinusIsKept(rest: string)
    ensures var t := UnshiftReferences(PrintReference(-1) + rest); |t| > 5 && t[5] == '-'
  {
    var g: nat -> int := j => (j + 1) / 2;
    var s := PrintReference(-1) + rest;
    var w := "ec[--1]";
    PrintOne();
    assert s == "r" + (w + rest);
    assert DigitRun(s[5..]) == 0;
    assert ReferenceAt(s) == None;
    RewriteKeepsStart(w, rest, g);
    assert s[1..] == w + rest;
    assert UnshiftReferences(s) == "r" + (w + RewriteReferences(rest, g));
  }
}
