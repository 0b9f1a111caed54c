/** The string operations the tools rely on: white space, splitting, searching and decimals. */
module Text {

  /** The characters `str.strip` and `str.split` treat as white space. */
  predicate IsSpace(c: char) {
    || c == ' ' || '\t' <= c <= '\r' || '\U{1C}' <= c <= '\U{1F}' || c == '\U{85}' || c == '\U{A0}'
    || c == '\U{1680}' || '\U{2000}' <= c <= '\U{200A}' || c == '\U{2028}' || c == '\U{2029}'
    || c == '\U{202F}' || c == '\U{205F}' || c == '\U{3000}'
  }

  predicate IsDigit(c: char) {
    '0' <= c <= '9'
  }

  predicate IsHex(c: char) {
    '0' <= c <= '9' || 'a' <= c <= 'f'
  }

  /** A lower-case hexadecimal number of `n` digits. */
  predicate HexOf(s: string, n: nat) {
    |s| == n && forall c :: c in s ==> IsHex(c)
  }

  // ---------------------------------------------------------------- strip

  function StripLeft(s: string): string {
    if s != "" && IsSpace(s[0]) then StripLeft(s[1..]) else s
  }

  function StripRight(s: string): string {
    if s != "" && IsSpace(s[|s| - 1]) then StripRight(s[..|s| - 1]) else s
  }

  function Strip(s: string): string {
    StripRight(StripLeft(s))
  }

  /** No white space at either end. */
  predicate Stripped(s: string) {
    s != "" ==> !IsSpace(s[0]) && !IsSpace(s[|s| - 1])
  }

  lemma {:induction false} StripRightKeepsHead(s: string)
    requires s != "" && !IsSpace(s[0])
    ensures StripRight(s) != "" && StripRight(s)[0] == s[0]
  {
    if IsSpace(s[|s| - 1]) {
      StripRightKeepsHead(s[..|s| - 1]);
    }
  }

  lemma {:induction false} StripRightEnds(s: string)
    ensures var r := StripRight(s); r != "" ==> !IsSpace(r[|r| - 1])
  {
    if s != "" && IsSpace(s[|s| - 1]) {
      StripRightEnds(s[..|s| - 1]);
    }
  }

  lemma {:induction false} StripLeftStarts(s: string)
    ensures var r := StripLeft(s); r != "" ==> !IsSpace(r[0])
  {
    if s != "" && IsSpace(s[0]) {
      StripLeftStarts(s[1..]);
    }
  }

  lemma {:induction false} StripIsStripped(s: string)
    ensures Stripped(Strip(s))
  {
    StripLeftStarts(s);
    StripRightEnds(StripLeft(s));
    if StripLeft(s) != "" {
      StripRightKeepsHead(StripLeft(s));
    }
  }

  // ---------------------------------------------------------------- split

  /** The index of the first `c` in `s`, or `|s|`. */
  function IndexOf(s: string, c: char): (i: nat)
    ensures i <= |s| && c !in s[..i] && (i < |s| ==> s[i] == c)
  {
    if s == "" || s[0] == c then 0 else
      assert s[..1 + IndexOf(s[1..], c)] == [s[0]] + s[1..][..IndexOf(s[1..], c)];
      1 + IndexOf(s[1..], c)
  }

  /** `s.split(c, 1)[0]`. */
  function Before(s: string, c: char): string {
    s[..IndexOf(s, c)]
  }

  /** The length of the leading run of characters that are not white space. */
  function WordLength(s: string): (n: nat)
    ensures n <= |s| && (n < |s| ==> IsSpace(s[n]))
    ensures forall i :: 0 <= i < n ==> !IsSpace(s[i])
  {
    if s == "" || IsSpace(s[0]) then 0 else 1 + WordLength(s[1..])
  }

  /** `s.split()`: the maximal runs of characters that are not white space. */
  function Words(s: string): (ws: seq<string>)
    decreases |s|
  {
    if s == "" then []
    else if IsSpace(s[0]) then Words(s[1..])
    else [s[..WordLength(s)]] + Words(s[WordLength(s)..])
  }

  /** `separator.join(words)` */
  function JoinBy(separator: string, words: seq<string>): string {
    if words == [] then "" else words[0] + if |words| == 1 then "" else separator + JoinBy(separator, words[1..])
  }

  lemma {:induction false} WordLengthIs(w: string, rest: string)
    requires forall c :: c in w ==> !IsSpace(c)
    requires rest != "" ==> IsSpace(rest[0])
    ensures WordLength(w + rest) == |w|
  {
    if w != "" {
      assert (w + rest)[1..] == w[1..] + rest;
      assert w[0] in w;
      WordLengthIs(w[1..], rest);
    }
  }

  /** A line that starts with a word has this word as its first token. */
  lemma {:induction false} FirstWord(w: string, rest: string)
    requires w != "" && forall c :: c in w ==> !IsSpace(c)
    requires rest != "" ==> IsSpace(rest[0])
    ensures Words(w + rest) != [] && Words(w + rest)[0] == w
  {
    assert w[0] in w;
    assert (w + rest)[0] == w[0];
    WordLengthIs(w, rest);
    assert (w + rest)[..|w|] == w;
  }

  /** `part in s` */
  predicate Contains(s: string, part: string) {
    part <= s || (s != "" && Contains(s[1..], part))
  }

  // ------------------------------------------------------------- decimals

  predicate AllDigits(s: string) {
    forall c :: c in s ==> IsDigit(c)
  }

  /** `int(s)` for a run of digits. */
  function ParseNat(s: string): nat
    requires AllDigits(s)
  {
    if s == "" then 0 else
      assert s[|s| - 1] in s;
      assert forall c :: c in s[..|s| - 1] ==> c in s;
      10 * ParseNat(s[..|s| - 1]) + (s[|s| - 1] as int - '0' as int)
  }

  /** `str(n)` */
  function PrintNat(n: nat): (s: string)
    ensures s != "" && AllDigits(s)
  {
    var digit := [('0' as int + n % 10) as char];
    if n < 10 then digit else PrintNat(n / 10) + digit
  }

  function PrintInt(i: int): string {
    if i < 0 then "-" + PrintNat(-i) else PrintNat(i)
  }

  /** Digits without superfluous leading zeros. */
  predicate Canonical(s: string) {
    s != "" && AllDigits(s) && (|s| > 1 ==> s[0] != '0')
  }

  lemma {:induction false} ParsePrint(n: nat)
    ensures ParseNat(PrintNat(n)) == n
  {
    if n >= 10 {
      ParsePrint(n / 10);
      var s := PrintNat(n);
      assert s[..|s| - 1] == PrintNat(n / 10);
    } else {
      var s := PrintNat(n);
      assert s[..0] == "";
    }
  }

  lemma {:induction false} PrintCanonical(n: nat)
    ensures Canonical(PrintNat(n)) && (n > 0 ==> PrintNat(n)[0] != '0')
  {
    if n >= 10 {
      PrintCanonical(n / 10);
    }
  }

  lemma {:induction false} CanonicalPositive(s: string)
    requires Canonical(s) && s[0] != '0'
    ensures ParseNat(s) > 0
  {
    assert s[|s| - 1] in s;
    if |s| > 1 {
      var t := s[..|s| - 1];
      assert forall c :: c in t ==> c in s;
      assert t[0] == s[0];
      CanonicalPositive(t);
    } else {
      assert s[..0] == "";
    }
  }

  lemma {:induction false} PrintParse(s: string)
    requires Canonical(s)
    ensures PrintNat(ParseNat(s)) == s
  {
    assert s[|s| - 1] in s;
    var t := s[..|s| - 1];
    assert forall c :: c in t ==> c in s;
    var d := s[|s| - 1] as int - '0' as int;
    if |s| > 1 {
      assert t[0] == s[0];
      CanonicalPositive(t);
      PrintParse(t);
      assert ParseNat(s) == 10 * ParseNat(t) + d;
      assert ParseNat(s) / 10 == ParseNat(t) && ParseNat(s) % 10 == d;
      assert s == t + [s[|s| - 1]];
    } else {
      assert t == "";
      assert s == [s[0]];
    }
  }

  lemma {:induction false} PrintNatInjective(m: nat, n: nat)
    requires PrintNat(m) == PrintNat(n)
    ensures m == n
  {
    ParsePrint(m);
    ParsePrint(n);
  }
}
