/**
 JSON values and their compact text, `json.dumps(value, sort_keys=True, separators=(",", ":"))`, with a proof
 that the text determines the value up to the order of keys.
*/
module Json {
  import opened Text

  datatype Field = Field(key: string, value: Value)

  /** Scalars of different types are different; a floating-point number is given by the text `repr` prints for it. */
  datatype Value =
    | Null
    | Bool(b: bool)
    | Int(i: int)
    | Float(text: string)
    | Str(s: string)
    | Arr(items: seq<Value>)
    | Obj(fields: seq<Field>)

  predicate IsNumeral(c: char) {
    IsDigit(c) || c == '-' || c == '+' || c == '.' || c == 'e'
  }

  /** The text of a finite floating-point number: it has a point or an exponent. */
  predicate IsFloatText(s: string) {
    s != "" && (forall c :: c in s ==> IsNumeral(c)) && ('.' in s || 'e' in s)
  }

  predicate DistinctKeys(fields: seq<Field>) {
    forall i, j :: 0 <= i < j < |fields| ==> fields[i].key != fields[j].key
  }

  /** What a JSON parser can return. */
  predicate WellFormed(v: Value) {
    match v
    case Float(text) => IsFloatText(text)
    case Arr(items) => forall x :: x in items ==> WellFormed(x)
    case Obj(fields) => DistinctKeys(fields) && forall f: Field :: f in fields ==> WellFormed(f.value)
    case _ => true
  }

  // ------------------------------------------------------------- strings

  function HexDigit(d: nat): char
    requires d < 16
  {
    if d < 10 then ('0' as int + d) as char else ('a' as int + d - 10) as char
  }

  /** `\uXXXX` */
  function Unicode(n: nat): (s: string)
    requires n < 0x1_0000
    ensures |s| == 6 && s[0] == '\\' && s[1] == 'u'
  {
    ['\\', 'u', HexDigit(n / 0x1000), HexDigit(n / 0x100 % 0x10), HexDigit(n / 0x10 % 0x10), HexDigit(n % 0x10)]
  }

  /** How `json.dumps` writes a character; beyond the basic plane it writes a surrogate pair. */
  function EscapeChar(c: char): (s: string)
    ensures s != "" && s[0] != '"' && (s[0] == '\\' || s == [c])
  {
    if c == '"' then "\\\""
    else if c == '\\' then "\\\\"
    else if c == '\n' then "\\n"
    else if c == '\r' then "\\r"
    else if c == '\t' then "\\t"
    else if c == '\U{08}' then "\\b"
    else if c == '\U{0C}' then "\\f"
    else if ' ' <= c <= '~' then [c]
    else
      var n := c as int;
      if n < 0x1_0000 then Unicode(n)
      else Unicode(0xD800 + (n - 0x1_0000) / 0x400) + Unicode(0xDC00 + (n - 0x1_0000) % 0x400)
  }

  function Escape(s: string): string {
    if s == "" then "" else EscapeChar(s[0]) + Escape(s[1..])
  }

  function Quote(s: string): string {
    "\"" + Escape(s) + "\""
  }

  lemma {:induction false} HexDigitInjective(a: nat, b: nat)
    requires a < 16 && b < 16 && HexDigit(a) == HexDigit(b)
    ensures a == b
  {
  }

  lemma {:induction false} UnicodeInjective(a: nat, b: nat)
    requires a < 0x1_0000 && b < 0x1_0000 && Unicode(a) == Unicode(b)
    ensures a == b
  {
    hide HexDigit;
    var s, t := Unicode(a), Unicode(b);
    assert s[2] == t[2] && s[3] == t[3] && s[4] == t[4] && s[5] == t[5];
    HexDigitInjective(a / 0x1000, b / 0x1000);
    HexDigitInjective(a / 0x100 % 0x10, b / 0x100 % 0x10);
    HexDigitInjective(a / 0x10 % 0x10, b / 0x10 % 0x10);
    HexDigitInjective(a % 0x10, b % 0x10);
    Digits(a);
    Digits(b);
  }

  lemma {:induction false} Digits(n: nat)
    ensures n == 0x1000 * (n / 0x1000) + 0x100 * (n / 0x100 % 0x10) + 0x10 * (n / 0x10 % 0x10) + n % 0x10
  {
    assert n / 0x100 == 0x10 * (n / 0x1000) + n / 0x100 % 0x10;
    assert n / 0x10 == 0x10 * (n / 0x100) + n / 0x10 % 0x10;
  }

  /** Characters written as one `\uXXXX` or two. */
  predicate Wide(c: char) {
    !(' ' <= c <= '~') && c !in ['\n', '\r', '\t', '\U{08}', '\U{0C}']
  }

  lemma {:induction false} WideInjective(c: char, d: char, u: string, v: string)
    requires Wide(c) && Wide(d) && EscapeChar(c) + u == EscapeChar(d) + v
    ensures c == d && u == v
  {
    hide Unicode;
    var m, n := c as int, d as int;
    var s, t := EscapeChar(c) + u, EscapeChar(d) + v;
    var x := if m < 0x1_0000 then m else 0xD800 + (m - 0x1_0000) / 0x400;
    var y := if n < 0x1_0000 then n else 0xD800 + (n - 0x1_0000) / 0x400;
    assert s[..6] == Unicode(x) && t[..6] == Unicode(y);
    UnicodeInjective(x, y);
    if m >= 0x1_0000 {
      var x', y' := 0xDC00 + (m - 0x1_0000) % 0x400, 0xDC00 + (n - 0x1_0000) % 0x400;
      assert n >= 0x1_0000;
      assert s[6..12] == Unicode(x') && t[6..12] == Unicode(y');
      UnicodeInjective(x', y');
      assert u == s[12..] && v == t[12..];
    } else {
      assert u == s[6..] && v == t[6..];
    }
  }

  lemma {:induction false} EscapeCharInjective(c: char, d: char, u: string, v: string)
    requires EscapeChar(c) + u == EscapeChar(d) + v
    ensures c == d && u == v
  {
    hide Unicode;
    var s, t := EscapeChar(c) + u, EscapeChar(d) + v;
    assert s[0] == EscapeChar(c)[0] && t[0] == EscapeChar(d)[0];
    if Wide(c) && Wide(d) {
      WideInjective(c, d, u, v);
    } else {
      assert s[0] == '\\' ==> s[1] == EscapeChar(c)[1] && t[1] == EscapeChar(d)[1];
      assert u == s[|EscapeChar(c)|..] && v == t[|EscapeChar(d)|..];
    }
  }

  /** A quoted string ends where it ends. */
  lemma {:induction false} EscapeInjective(a: string, b: string, u: string, v: string)
    requires Escape(a) + "\"" + u == Escape(b) + "\"" + v
    ensures a == b && u == v
  {
    hide EscapeChar;
    var s, t := Escape(a) + "\"" + u, Escape(b) + "\"" + v;
    assert a == "" <==> s[0] == '"';
    assert b == "" <==> t[0] == '"';
    if a == "" {
      assert u == s[1..] && v == t[1..];
    } else {
      assert s == EscapeChar(a[0]) + (Escape(a[1..]) + "\"" + u);
      assert t == EscapeChar(b[0]) + (Escape(b[1..]) + "\"" + v);
      EscapeCharInjective(a[0], b[0], Escape(a[1..]) + "\"" + u, Escape(b[1..]) + "\"" + v);
      EscapeInjective(a[1..], b[1..], u, v);
      assert a == [a[0]] + a[1..] && b == [b[0]] + b[1..];
    }
  }

  // -------------------------------------------------------------- values

  /** The text of a value, keys in the order in which they stand. */
  function Write(v: Value): (s: string)
    decreases v, 0
  {
    match v
    case Null => "null"
    case Bool(b) => if b then "true" else "false"
    case Int(i) => PrintInt(i)
    case Float(text) => text
    case Str(s) => Quote(s)
    case Arr(items) => "[" + WriteItems(items)
    case Obj(fields) => "{" + WriteFields(fields)
  }

  /** The rest of an array, closing bracket included. */
  function WriteItems(items: seq<Value>): string
    decreases items, 2
  {
    if items == [] then "]" else Write(items[0]) + ItemsTail(items)
  }

  /** What follows the first item. */
  function ItemsTail(items: seq<Value>): string
    requires items != []
    decreases items, 1
  {
    if |items| == 1 then "]" else "," + WriteItems(items[1..])
  }

  function WriteFields(fields: seq<Field>): string
    decreases fields, 2
  {
    if fields == [] then "}"
    else Quote(fields[0].key) + ":" + Write(fields[0].value) + FieldsTail(fields)
  }

  function FieldsTail(fields: seq<Field>): string
    requires fields != []
    decreases fields, 1
  {
    if |fields| == 1 then "}" else "," + WriteFields(fields[1..])
  }

  /** Nothing of a number follows. */
  predicate Delimited(s: string) {
    s == "" || !IsNumeral(s[0])
  }

  lemma {:induction false} SameToken(a: string, b: string, u: string, v: string)
    requires forall c :: c in a ==> IsNumeral(c)
    requires forall c :: c in b ==> IsNumeral(c)
    requires a + u == b + v && Delimited(u) && Delimited(v)
    ensures a == b && u == v
  {
    assert if a == "" then a + u == u else a[0] in a && (a + u)[0] == a[0];
    assert if b == "" then b + v == v else b[0] in b && (b + v)[0] == b[0];
    if a != "" && b != "" {
      assert a[1..] + u == (a + u)[1..] && b[1..] + v == (b + v)[1..];
      SameToken(a[1..], b[1..], u, v);
      assert a == [a[0]] + a[1..] && b == [b[0]] + b[1..];
    }
  }

  predicate IsNumber(v: Value) {
    v.Int? || v.Float?
  }

  lemma {:induction false} NumberText(v: Value)
    requires IsNumber(v) && WellFormed(v)
    ensures Write(v) != "" && forall c :: c in Write(v) ==> IsNumeral(c)
    ensures v.Int? ==> '.' !in Write(v) && 'e' !in Write(v)
  {
  }

  lemma {:induction false} PrintIntInjective(i: int, j: int)
    requires PrintInt(i) == PrintInt(j)
    ensures i == j
  {
    hide PrintNat;
    var n: nat, m: nat := if i < 0 then -i else i, if j < 0 then -j else j;
    assert PrintNat(n)[0] in PrintNat(n) && PrintNat(m)[0] in PrintNat(m);
    assert i < 0 <==> PrintInt(i)[0] == '-';
    assert j < 0 <==> PrintInt(j)[0] == '-';
    assert i < 0 ==> PrintNat(n) == PrintInt(i)[1..];
    assert j < 0 ==> PrintNat(m) == PrintInt(j)[1..];
    PrintNatInjective(n, m);
  }

  lemma {:induction false} NumberInjective(x: Value, y: Value, u: string, v: string)
    requires IsNumber(x) && IsNumber(y) && WellFormed(x) && WellFormed(y)
    requires Write(x) + u == Write(y) + v && Delimited(u) && Delimited(v)
    ensures x == y && u == v
  {
    hide PrintInt;
    NumberText(x);
    NumberText(y);
    SameToken(Write(x), Write(y), u, v);
    if x.Int? && y.Int? {
      PrintIntInjective(x.i, y.i);
    }
  }

  /** The first character tells what kind of value follows. */
  function Initial(v: Value): char
  {
    match v
    case Null => 'n'
    case Bool(b) => if b then 't' else 'f'
    case Str(_) => '"'
    case Arr(_) => '['
    case Obj(_) => '{'
    case _ => '0'
  }

  lemma {:induction false} WriteInitial(v: Value)
    requires WellFormed(v)
    ensures Write(v) != ""
    ensures if IsNumber(v) then IsNumeral(Write(v)[0]) else Write(v)[0] == Initial(v)
  {
    hide PrintInt, Quote, WriteItems, WriteFields, Escape;
    if IsNumber(v) {
      NumberText(v);
      assert Write(v)[0] in Write(v);
    } else if v.Str? {
      assert Write(v) == "\"" + (Escape(v.s) + "\"") by { QuoteShape(v.s); }
    }
  }

  lemma {:induction false} QuoteShape(s: string)
    ensures Quote(s) == "\"" + (Escape(s) + "\"")
  {
  }

  lemma {:induction false} Drop(a: string, u: string)
    ensures (a + u)[|a|..] == u
  {
  }

  /** The text of a value, followed by something that cannot belong to it, determines the value. */
  lemma {:induction false} WriteInjective(x: Value, y: Value, u: string, v: string)
    requires WellFormed(x) && WellFormed(y)
    requires Write(x) + u == Write(y) + v && Delimited(u) && Delimited(v)
    ensures x == y && u == v
    decreases x, 0
  {
    hide WellFormed, Quote, Escape, PrintInt, Delimited;
    WriteInitial(x);
    WriteInitial(y);
    var s, t := Write(x) + u, Write(y) + v;
    assert s[0] == Write(x)[0] && t[0] == Write(y)[0];
    NotNumeral(x);
    NotNumeral(y);
    if IsNumber(x) {
      NumberInjective(x, y, u, v);
    } else {
      assert Initial(x) == Initial(y);
      match x
      case Null => Drop("null", u); Drop("null", v);
      case Bool(b) => Drop(Write(x), u); Drop(Write(x), v);
      case Str(a) =>
        StrInjective(a, y.s, u, v);
      case Arr(items) =>
        assert s[1..] == WriteItems(items) + u && t[1..] == WriteItems(y.items) + v;
        ItemsWellFormed(x);
        ItemsWellFormed(y);
        ItemsInjective(items, y.items, u, v);
      case Obj(fields) =>
        assert s[1..] == WriteFields(fields) + u && t[1..] == WriteFields(y.fields) + v;
        FieldsWellFormed(x);
        FieldsWellFormed(y);
        FieldsInjective(fields, y.fields, u, v);
    }
  }

  lemma {:induction false} NotNumeral(v: Value)
    ensures !IsNumber(v) ==> !IsNumeral(Initial(v))
  {
  }

  lemma {:induction false} ItemsWellFormed(v: Value)
    requires v.Arr? && WellFormed(v)
    ensures forall x :: x in v.items ==> WellFormed(x)
  {
  }

  lemma {:induction false} FieldsWellFormed(v: Value)
    requires v.Obj? && WellFormed(v)
    ensures forall f: Field :: f in v.fields ==> WellFormed(f.value)
  {
  }

  lemma {:induction false} StrInjective(a: string, b: string, u: string, v: string)
    requires Quote(a) + u == Quote(b) + v
    ensures a == b && u == v
  {
    hide Escape;
    var s, t := Quote(a) + u, Quote(b) + v;
    assert s[1..] == Escape(a) + "\"" + u && t[1..] == Escape(b) + "\"" + v;
    EscapeInjective(a, b, u, v);
  }

  lemma {:induction false} Prepend(c: char, w: string, u: string)
    ensures var t := [c] + w + u; t[0] == c && t[1..] == w + u && t == [c] + (w + u)
  {
  }

  lemma {:induction false} ItemsTailShape(items: seq<Value>, u: string)
    requires items != []
    ensures var t := ItemsTail(items) + u;
              && t != "" && t[0] == (if |items| == 1 then ']' else ',')
              && t[1..] == (if |items| == 1 then u else WriteItems(items[1..]) + u)
  {
    hide Write, WriteItems;
    Prepend(']', "", u);
    if |items| > 1 {
      Prepend(',', WriteItems(items[1..]), u);
    }
  }

  lemma {:induction false} ItemsShape(items: seq<Value>, u: string)
    requires forall x :: x in items ==> WellFormed(x)
    ensures var s := WriteItems(items) + u;
            && s != "" && (s[0] == ']' <==> items == [])
            && (items == [] ==> s[1..] == u)
            && (items != [] ==> s == Write(items[0]) + (ItemsTail(items) + u))
  {
    hide WellFormed, Write, ItemsTail;
    if items != [] {
      assert items[0] in items;
      WriteInitial(items[0]);
    }
  }

  lemma {:induction false} ItemsInjective(xs: seq<Value>, ys: seq<Value>, u: string, v: string)
    requires forall x :: x in xs ==> WellFormed(x)
    requires forall y :: y in ys ==> WellFormed(y)
    requires WriteItems(xs) + u == WriteItems(ys) + v
    ensures xs == ys && u == v
    decreases xs, 1
  {
    hide WellFormed, Write, WriteItems, ItemsTail;
    ItemsShape(xs, u);
    ItemsShape(ys, v);
    if xs != [] {
      assert xs[0] in xs && ys[0] in ys;
      ItemsTailShape(xs, u);
      ItemsTailShape(ys, v);
      WriteInjective(xs[0], ys[0], ItemsTail(xs) + u, ItemsTail(ys) + v);
      if |xs| > 1 {
        ItemsInjective(xs[1..], ys[1..], u, v);
      }
      assert xs == [xs[0]] + xs[1..] && ys == [ys[0]] + ys[1..];
    }
  }

  lemma {:induction false} FieldsTailShape(fields: seq<Field>, u: string)
    requires fields != []
    ensures var t := FieldsTail(fields) + u;
              && t != "" && t[0] == (if |fields| == 1 then '}' else ',')
              && t[1..] == (if |fields| == 1 then u else WriteFields(fields[1..]) + u)
  {
    hide Write, WriteFields;
    Prepend('}', "", u);
    if |fields| > 1 {
      Prepend(',', WriteFields(fields[1..]), u);
    }
  }

  lemma {:induction false} FieldsShape(fields: seq<Field>, u: string)
    ensures var s := WriteFields(fields) + u;
            && s != "" && (s[0] == '}' <==> fields == [])
            && (fields == [] ==> s[1..] == u)
            && (fields != [] ==>
                  s == Quote(fields[0].key) + (":" + (Write(fields[0].value) + (FieldsTail(fields) + u))))
  {
    hide Write, Escape, FieldsTail;
    Prepend('}', "", u);
    if fields != [] {
      var k, w, t := Escape(fields[0].key) + "\"", Write(fields[0].value), FieldsTail(fields);
      QuoteShape(fields[0].key);
      assert WriteFields(fields) + u == (Quote(fields[0].key) + ":" + w + t) + u;
      assert Quote(fields[0].key) + ":" + w + t + u == Quote(fields[0].key) + (":" + (w + (t + u)));
      Prepend('"', k, ":" + (w + (t + u)));
    }
  }

  lemma {:induction false} FieldsInjective(xs: seq<Field>, ys: seq<Field>, u: string, v: string)
    requires forall f: Field :: f in xs ==> WellFormed(f.value)
    requires forall f: Field :: f in ys ==> WellFormed(f.value)
    requires WriteFields(xs) + u == WriteFields(ys) + v
    ensures xs == ys && u == v
    decreases xs, 1
  {
    hide WellFormed, Write, Quote, WriteFields, FieldsTail;
    FieldsShape(xs, u);
    FieldsShape(ys, v);
    if xs != [] {
      assert xs[0] in xs && ys[0] in ys;
      FieldsTailShape(xs, u);
      FieldsTailShape(ys, v);
      var x, y := xs[0], ys[0];
      var u', v' := Write(x.value) + (FieldsTail(xs) + u), Write(y.value) + (FieldsTail(ys) + v);
      StrInjective(x.key, y.key, ":" + u', ":" + v');
      Drop(":", u');
      Drop(":", v');
      WriteInjective(x.value, y.value, FieldsTail(xs) + u, FieldsTail(ys) + v);
      if |xs| > 1 {
        FieldsInjective(xs[1..], ys[1..], u, v);
      }
      assert xs == [xs[0]] + xs[1..] && ys == [ys[0]] + ys[1..];
    }
  }
}
