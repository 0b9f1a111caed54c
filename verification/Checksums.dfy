/** `SHA256SUMS` files: one line per file, its digest and its name. */
module Checksums {
  import opened Prelude
  import opened Text
  import opened Evidence

  predicate IsAlnum(c: char) {
    'A' <= c <= 'Z' || 'a' <= c <= 'z' || '0' <= c <= '9'
  }

  predicate IsNameChar(c: char) {
    IsAlnum(c) || c == '.' || c == '_' || c == '-' || c == '/'
  }

  /** The names the lines of a bundle may carry; the names of a release have no directories. */
  predicate NameFits(name: string, directories: bool) {
    && name != "" && IsAlnum(name[0])
    && (forall c :: c in name ==> IsNameChar(c) && (c == '/' ==> directories))
  }

  /** `..` is one of the parts of the path. */
  predicate ClimbsUp(name: string) {
    ".." in Parts(name, "")
  }

  /** The names that are accepted in the listing of a bundle. */
  predicate GoodName(name: string) {
    NameFits(name, true) && !ClimbsUp(name) && name[|name| - 1] != '/'
  }

  function Line(digest: string, name: string): string {
    digest + "  " + name
  }

  /** The text of a listing. */
  function Emit(entries: seq<Named<string>>): string {
    if entries == [] then "" else Line(entries[0].value, entries[0].name) + "\n" + Emit(entries[1..])
  }

  function AsMap<T>(entries: seq<Named<T>>): map<string, T> {
    if entries == [] then map[]
    else AsMap(entries[..|entries| - 1])[entries[|entries| - 1].name := entries[|entries| - 1].value]
  }

  // ---------------------------------------------------------------- lines

  /** The characters `str.splitlines` splits at. */
  predicate IsBreak(c: char) {
    '\n' <= c <= '\r' || '\U{1C}' <= c <= '\U{1E}' || c == '\U{85}' || c == '\U{2028}' || c == '\U{2029}'
  }

  function LineLength(s: string): (n: nat)
    ensures n <= |s| && (n < |s| ==> IsBreak(s[n]))
  {
    if s == "" || IsBreak(s[0]) then 0 else 1 + LineLength(s[1..])
  }

  function BreakLength(s: string): (n: nat)
    requires s != ""
    ensures 1 <= n <= |s|
  {
    if "\r\n" <= s then 2 else 1
  }

  /** `text.splitlines()` */
  function Lines(s: string): seq<string>
    decreases |s|
  {
    if s == "" then []
    else
      var n := LineLength(s);
      [s[..n]] + if n == |s| then [] else Lines(s[n + BreakLength(s[n..])..])
  }

  lemma {:induction false} LineLengthIs(line: string, rest: string)
    requires (forall c :: c in line ==> !IsBreak(c)) && rest != "" && IsBreak(rest[0])
    ensures LineLength(line + rest) == |line|
  {
    if line == "" {
      assert line + rest == rest;
    } else {
      assert (line + rest)[0] == line[0] && line[0] in line;
      assert (line + rest)[1..] == line[1..] + rest;
      LineLengthIs(line[1..], rest);
    }
  }

  lemma {:induction false} FirstLine(line: string, rest: string)
    requires forall c :: c in line ==> !IsBreak(c)
    ensures Lines(line + "\n" + rest) == [line] + Lines(rest)
  {
    var s := line + "\n" + rest;
    assert s == line + ("\n" + rest);
    LineLengthIs(line, "\n" + rest);
    assert s[..|line|] == line;
    assert s[|line|..] == "\n" + rest && ("\n" + rest)[0] == '\n';
    assert BreakLength(s[|line|..]) == 1;
    assert s[|line| + 1..] == rest;
  }

  // -------------------------------------------------------------- parsing

  datatype ListingError = BadLine(line: nat) | UnsafeEntry(name: string) | DuplicateEntry(name: string)

  predicate LineFits(line: string, directories: bool) {
    |line| >= 66 && HexOf(line[..64], 64) && line[64..66] == "  " && NameFits(line[66..], directories)
  }

  function NameOf(line: string): string
    requires |line| >= 66
  {
    line[66..]
  }

  predicate Unsafe(name: string) {
    name != "" && (ClimbsUp(name) || name[|name| - 1] == '/')
  }

  /** The digests of the first `n` lines; the first line that is not accepted decides. */
  function ParseLines(lines: seq<string>, bundle: bool): Result<map<string, string>, ListingError> {
    if lines == [] then Ok(map[])
    else match ParseLines(lines[..|lines| - 1], bundle)
      case Err(e) => Err(e)
      case Ok(before) =>
        var line := lines[|lines| - 1];
        if !LineFits(line, bundle) then Err(BadLine(|lines|))
        else if bundle && Unsafe(NameOf(line)) then Err(UnsafeEntry(NameOf(line)))
        else if NameOf(line) in before then Err(DuplicateEntry(NameOf(line)))
        else Ok(before[NameOf(line) := line[..64]])
  }

  /** `parse_bundle_checksums`, or `parse_checksums` for the listing of a release. */
  function Parse(text: string, bundle: bool): Result<map<string, string>, ListingError> {
    ParseLines(Lines(text), bundle)
  }

  method ParseChecksums(text: string, bundle: bool) returns (r: Result<map<string, string>, ListingError>)
    ensures r == Parse(text, bundle)
  {
    hide LineFits, Unsafe, Lines;
    var lines := Lines(text);
    var checksums: map<string, string> := map[];
    for k := 0 to |lines|
      invariant ParseLines(lines[..k], bundle) == Ok(checksums)
    {
      assert lines[..k + 1][..k] == lines[..k];
      var line := lines[k];
      if !LineFits(line, bundle) {
        ParseStops(lines, k + 1, bundle);
        return Err(BadLine(k + 1));
      }
      var name := line[66..] by { FittingLine(line, bundle); }
      if bundle && Unsafe(name) {
        ParseStops(lines, k + 1, bundle);
        return Err(UnsafeEntry(name));
      }
      if name in checksums {
        ParseStops(lines, k + 1, bundle);
        return Err(DuplicateEntry(name));
      }
      checksums := checksums[name := line[..64]];
    }
    assert lines[..|lines|] == lines;
    r := Ok(checksums);
  }

  lemma {:induction false} FittingLine(line: string, directories: bool)
    requires LineFits(line, directories)
    ensures |line| >= 66
  {
  }

  lemma {:induction false} ParseStops(lines: seq<string>, n: nat, bundle: bool)
    requires n <= |lines| && ParseLines(lines[..n], bundle).Err?
    ensures ParseLines(lines, bundle) == ParseLines(lines[..n], bundle)
    decreases |lines| - n
  {
    hide LineFits, Unsafe, NameOf;
    if n == |lines| {
      assert lines[..n] == lines;
    } else {
      assert lines[..n + 1][..n] == lines[..n];
      ParseStops(lines, n + 1, bundle);
    }
  }

  // ----------------------------------------------------------- round trip

  /** The names a listing of this kind accepts. */
  predicate Nameable(name: string, bundle: bool) {
    if bundle then GoodName(name) else NameFits(name, false)
  }

  /** The names are accepted and the digests are digests. */
  predicate Listable(entries: seq<Named<string>>, bundle: bool) {
    forall e :: e in entries ==> Nameable(e.name, bundle) && HexOf(e.value, 64)
  }

  lemma {:induction false} LineOfEntry(digest: string, name: string, bundle: bool)
    requires Nameable(name, bundle) && HexOf(digest, 64)
    ensures var line := Line(digest, name);
      && LineFits(line, bundle) && NameOf(line) == name && line[..64] == digest && (bundle ==> !Unsafe(name))
      && forall c :: c in line ==> !IsBreak(c)
  {
    hide ClimbsUp;
    var line := Line(digest, name);
    assert line[..64] == digest && line[64..66] == "  " && line[66..] == name;
  }

  function LinesOf(entries: seq<Named<string>>): seq<string> {
    seq(|entries|, i requires 0 <= i < |entries| => Line(entries[i].value, entries[i].name))
  }

  lemma {:induction false} EmittedLines(entries: seq<Named<string>>, bundle: bool)
    requires Listable(entries, bundle)
    ensures Lines(Emit(entries)) == LinesOf(entries)
  {
    hide Nameable, Lines, HexOf, Line;
    if entries == [] {
      assert Lines("") == [] by { NoLines(); }
    } else {
      var e := entries[0];
      assert e in entries;
      LineOfEntry(e.value, e.name, bundle);
      FirstLine(Line(e.value, e.name), Emit(entries[1..]));
      EmittedLines(entries[1..], bundle);
      assert LinesOf(entries) == [Line(e.value, e.name)] + LinesOf(entries[1..]);
    }
  }

  lemma {:induction false} NoLines()
    ensures Lines("") == []
  {
  }

  lemma {:induction false} AsMapKeys<T>(entries: seq<Named<T>>)
    ensures forall k :: k in AsMap(entries) <==> exists i :: 0 <= i < |entries| && entries[i].name == k
  {
    if entries != [] {
      AsMapKeys(entries[..|entries| - 1]);
    }
  }

  lemma {:induction false} ParsedLines(entries: seq<Named<string>>, bundle: bool)
    requires Listable(entries, bundle) && DistinctNames(entries)
    ensures ParseLines(LinesOf(entries), bundle) == Ok(AsMap(entries))
  {
    hide Nameable, HexOf, LineFits, Unsafe, Line, NameOf;
    if entries != [] {
      var front, e := entries[..|entries| - 1], entries[|entries| - 1];
      assert e in entries;
      ParsedLines(front, bundle);
      LineOfEntry(e.value, e.name, bundle);
      assert LinesOf(entries)[..|entries| - 1] == LinesOf(front);
      AsMapKeys(front);
      assert e.name !in AsMap(front);
      var lines := LinesOf(entries);
      assert |lines| == |entries| && lines[|lines| - 1] == Line(e.value, e.name);
    }
  }

  lemma {:induction false} ParsedNamesAreGood(lines: seq<string>, bundle: bool)
    requires ParseLines(lines, bundle).Ok?
    ensures forall name :: name in ParseLines(lines, bundle).value ==> Nameable(name, bundle)
  {
    hide ClimbsUp;
    if lines != [] {
      ParsedNamesAreGood(lines[..|lines| - 1], bundle);
    }
  }

  /** A listing reads back as what was listed exactly when every name is accepted, in bundles and in releases. */
  lemma {:induction false} ListingRoundTripsIff(entries: seq<Named<string>>, bundle: bool)
    requires DistinctNames(entries) && forall e :: e in entries ==> HexOf(e.value, 64)
    ensures Parse(Emit(entries), bundle) == Ok(AsMap(entries)) <==>
      forall e :: e in entries ==> Nameable(e.name, bundle)
  {
    hide Nameable, HexOf, LineFits, Unsafe, Lines;
    if forall e :: e in entries ==> Nameable(e.name, bundle) {
      EmittedLines(entries, bundle);
      ParsedLines(entries, bundle);
    }
    if Parse(Emit(entries), bundle) == Ok(AsMap(entries)) {
      ParsedNamesAreGood(Lines(Emit(entries)), bundle);
      AsMapKeys(entries);
      forall e | e in entries ensures Nameable(e.name, bundle) {
        assert e.name in AsMap(entries);
      }
    }
  }
}
