/** Lines of a text by their breaks, and which texts are listings of checksums. */
module ListingLaws {
  import opened Prelude
  import opened Checksums

  // ----------------------------------------------------------------- lines

  predicate Unbroken(s: string) {
    forall c :: c in s ==> !IsBreak(c)
  }

  /** `"\r\n"` is one break; every other break is one character. */
  predicate IsBreakBefore(brk: string, rest: string) {
    || brk == "\r\n"
    || (|brk| == 1 && IsBreak(brk[0]) && !("\r\n" <= brk + rest))
  }

  lemma {:induction false} WholeLine(line: string)
    requires Unbroken(line)
    ensures LineLength(line) == |line|
  {
    if line != "" {
      assert line[0] in line;
      WholeLine(line[1..]);
    }
  }

  /** A text without breaks is one line, unless it is empty. */
  lemma {:induction false} OneLine(line: string)
    requires Unbroken(line)
    ensures Lines(line) == if line == "" then [] else [line]
  {
    hide LineLength;
    if line != "" {
      WholeLine(line);
      assert line[..|line|] == line;
    }
  }

  /** What stands in front of the first break is a line; what follows the break is split in its turn. */
  lemma {:induction false} LinesSplit(line: string, brk: string, rest: string)
    requires Unbroken(line) && IsBreakBefore(brk, rest)
    ensures Lines(line + brk + rest) == [line] + Lines(rest)
  {
    hide LineLength;
    var s := line + brk + rest;
    assert s == line + (brk + rest) && IsBreak((brk + rest)[0]);
    LineLengthIs(line, brk + rest);
    assert s[..|line|] == line && s[|line|..] == brk + rest;
    assert BreakLength(brk + rest) == |brk|;
    assert s[|line| + |brk|..] == rest;
  }

  // -------------------------------------------------------------- listings

  predicate LineOk(line: string, bundle: bool) {
    LineFits(line, bundle) && (bundle ==> !Unsafe(line[66..]))
  }

  /** Every line has the form of an entry, its name stays below the directory, and no name comes twice. */
  predicate IsListing(lines: seq<string>, bundle: bool) {
    && (forall k :: 0 <= k < |lines| ==> LineOk(lines[k], bundle))
    && forall j, k :: 0 <= j < k < |lines| ==> lines[j][66..] != lines[k][66..]
  }

  lemma {:induction false} FittingLineIsLong(line: string, bundle: bool)
    requires LineOk(line, bundle)
    ensures |line| >= 66
  {
  }

  /** The names of the lines with the digests in front of them, and nothing else. */
  predicate ListsExactly(lines: seq<string>, checksums: map<string, string>) {
    && (forall k :: 0 <= k < |lines| ==> |lines[k]| >= 66 && Lists(checksums, lines[k]))
    && forall name :: name in checksums ==> exists k :: 0 <= k < |lines| && |lines[k]| >= 66 && lines[k][66..] == name
  }

  predicate Lists(checksums: map<string, string>, line: string)
    requires |line| >= 66
  {
    line[66..] in checksums && checksums[line[66..]] == line[..64]
  }

  lemma {:induction false} ListingFront(lines: seq<string>, bundle: bool)
    requires lines != []
    ensures var front, last := lines[..|lines| - 1], lines[|lines| - 1];
      IsListing(lines, bundle) <==>
        (IsListing(front, bundle) && LineOk(last, bundle)
         && forall j :: 0 <= j < |front| ==> |front[j]| >= 66 && front[j][66..] != last[66..])
  {
    hide LineOk;
    var n := |lines| - 1;
    forall k | 0 <= k < |lines| && LineOk(lines[k], bundle) ensures |lines[k]| >= 66 {
      FittingLineIsLong(lines[k], bundle);
    }
    if IsListing(lines, bundle) {
      forall j | 0 <= j < n ensures |lines[..n][j]| >= 66 && lines[..n][j][66..] != lines[n][66..] {
        assert lines[..n][j] == lines[j];
      }
    }
    if IsListing(lines[..n], bundle) && LineOk(lines[n], bundle)
      && forall j :: 0 <= j < n ==> |lines[..n][j]| >= 66 && lines[..n][j][66..] != lines[n][66..]
    {
      forall k | 0 <= k < |lines| ensures LineOk(lines[k], bundle) {
        assert k < n ==> lines[..n][k] == lines[k];
      }
      forall j, k | 0 <= j < k < |lines| ensures lines[j][66..] != lines[k][66..] {
        assert lines[..n][j] == lines[j] && (k < n ==> lines[..n][k] == lines[k]);
      }
    }
  }

  lemma {:induction false} ListedFront(lines: seq<string>, before: map<string, string>, bundle: bool)
    requires lines != [] && ListsExactly(lines[..|lines| - 1], before) && |lines[|lines| - 1]| >= 66
    ensures var front, last := lines[..|lines| - 1], lines[|lines| - 1];
      last[66..] in before <==> exists j :: 0 <= j < |front| && |front[j]| >= 66 && front[j][66..] == last[66..]
    ensures lines[|lines| - 1][66..] !in before ==>
      ListsExactly(lines, before[lines[|lines| - 1][66..] := lines[|lines| - 1][..64]])
  {
    var n := |lines| - 1;
    var front, last := lines[..n], lines[n];
    var after := before[last[66..] := last[..64]];
    if last[66..] !in before {
      forall k | 0 <= k < |lines| ensures |lines[k]| >= 66 && Lists(after, lines[k]) {
        if k < n {
          assert front[k] == lines[k] && Lists(before, front[k]);
        }
      }
      forall name | name in after ensures exists k :: 0 <= k < |lines| && |lines[k]| >= 66 && lines[k][66..] == name {
        if name in before {
          var k :| 0 <= k < |front| && |front[k]| >= 66 && front[k][66..] == name;
          assert lines[k][66..] == name;
        } else {
          assert lines[n][66..] == name;
        }
      }
    }
  }

  /** A text is accepted exactly when it is a listing, and then yields its names with their digests. */
  lemma {:induction false} ParseLinesIff(lines: seq<string>, bundle: bool)
    ensures ParseLines(lines, bundle).Ok? <==> IsListing(lines, bundle)
    ensures IsListing(lines, bundle) ==> ListsExactly(lines, ParseLines(lines, bundle).value)
  {
    if lines != [] {
      hide IsListing, ListsExactly, LineFits, Unsafe;
      var front, last := lines[..|lines| - 1], lines[|lines| - 1];
      ParseLinesIff(front, bundle);
      ListingFront(lines, bundle);
      if IsListing(front, bundle) && LineOk(last, bundle) {
        FittingLineIsLong(last, bundle);
        ListedFront(lines, ParseLines(front, bundle).value, bundle);
        ListedAreLong(front, ParseLines(front, bundle).value);
      }
    }
  }

  lemma {:induction false} ListedAreLong(lines: seq<string>, checksums: map<string, string>)
    requires ListsExactly(lines, checksums)
    ensures forall k :: 0 <= k < |lines| ==> |lines[k]| >= 66
  {
  }

  /** What is reported of a text that is no listing: the first line at which it stops being one, and why. */
  lemma {:induction false} ParseStopsAt(lines: seq<string>, k: nat, bundle: bool)
    requires k < |lines| && IsListing(lines[..k], bundle) && !IsListing(lines[..k + 1], bundle)
    ensures ParseLines(lines, bundle).Err?
    ensures ParseLines(lines, bundle).error ==
      if !LineFits(lines[k], bundle) then BadLine(k + 1)
      else if !LineOk(lines[k], bundle) then UnsafeEntry(lines[k][66..])
      else DuplicateEntry(lines[k][66..])
  {
    hide IsListing, LineFits, Unsafe;
    assert lines[..k + 1][..k] == lines[..k];
    ParseLinesIff(lines[..k], bundle);
    ParseLinesIff(lines[..k + 1], bundle);
    ParseStops(lines, k + 1, bundle);
  }
}
