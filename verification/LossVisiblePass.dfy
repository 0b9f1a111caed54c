/**
 The annotator as a pass over the lines of a circuit, and how to undo it.
*/
module LossVisiblePass {
  import opened Prelude
  import opened Text
  import opened LossVisible

  const OPERATION_LOSS := "LOSS(0.01) "
  const MEASUREMENT_LOSS := "LOSS(0.02) "
  const FLIP_POINT := "rstim:logical_flip_point"
  const MARKER := "TICK[rstim:logical_flip_point]"

  datatype AnnotateError = IndexError | NoMeasurements

  /** The variables of the loop: the lines written so far and the number of converted readouts. */
  datatype Pass = Pass(out: seq<string>, converted: nat)

  /** `line.split("(", 1)[0].split()[0]`, which fails on a line without a name. */
  function Name(line: string): Option<string> {
    var words := Words(Before(line, '('));
    if words == [] then None else Some(words[0])
  }

  /** `line.split(" ", 1)[1]`, which fails on a line without a space. */
  function Targets(line: string): Option<string> {
    var i := IndexOf(line, ' ');
    if i < |line| then Some(line[i + 1..]) else None
  }

  /** What the annotator, and its inverse, distinguish about the name of a line. */
  datatype Kind = Entangle | Readout | Reference | Reset | LossSite | LossReadout | Verbatim

  function KindOf(name: string): Kind {
    if name == "CX" then Entangle
    else if name == "MR" || name == "M" then Readout
    else if name == "DETECTOR" || name == "OBSERVABLE_INCLUDE" then Reference
    else if name == "R" then Reset
    else if name == "LOSS" then LossSite
    else if name == "MRL" || name == "ML" then LossReadout
    else Verbatim
  }

  function LineKind(line: string): Option<Kind> {
    match Name(line)
    case Some(name) => Some(KindOf(name))
    case None => None
  }

  /** The lines written for one line; `first` says that a reset is still to be followed by the flip point. */
  function Emit(line: string, first: bool): Option<seq<string>> {
    match LineKind(line)
    case None => None
    case Some(Entangle) =>
      (match Targets(line)
       case Some(targets) => Some([line, OPERATION_LOSS + targets])
       case None => None)
    case Some(Readout) =>
      (match Targets(line)
       case Some(targets) => Some([MEASUREMENT_LOSS + targets, Name(line).value + "L " + targets])
       case None => None)
    case Some(Reference) => Some([ShiftReferences(line)])
    case Some(Reset) => Some(if first then [line, MARKER] else [line])
    case Some(_) => Some([line])
  }

  predicate Marked(out: seq<string>) {
    exists entry :: entry in out && Contains(entry, FLIP_POINT)
  }

  function AnnotateLine(line: string, acc: Pass): Result<Pass, AnnotateError> {
    match Emit(line, acc.converted == 0 && !Marked(acc.out))
    case None => Err(IndexError)
    case Some(lines) =>
      Ok(Pass(acc.out + lines,
              acc.converted + if LineKind(line) == Some(Readout) then |Words(Targets(line).value)| else 0))
  }

  function AnnotateFrom(raws: seq<string>, acc: Pass): Result<Pass, AnnotateError> {
    if raws == [] then Ok(acc)
    else
      var line := Strip(raws[0]);
      if line == "" then AnnotateFrom(raws[1..], acc)
      else match AnnotateLine(line, acc)
        case Ok(acc') => AnnotateFrom(raws[1..], acc')
        case Err(e) => Err(e)
  }

  function Annotated(raws: seq<string>): Result<seq<string>, AnnotateError> {
    match AnnotateFrom(raws, Pass([], 0))
    case Ok(acc) => if acc.converted == 0 then Err(NoMeasurements) else Ok(acc.out)
    case Err(e) => Err(e)
  }

  method Annotate(raws: seq<string>) returns (r: Result<seq<string>, AnnotateError>)
    ensures r == Annotated(raws)
  {
    hide KindOf, Name, Targets, Marked, Strip, Words, ShiftReferences;
    var out: seq<string> := [];
    var converted: nat := 0;
    for i := 0 to |raws|
      invariant AnnotateFrom(raws, Pass([], 0)) == AnnotateFrom(raws[i..], Pass(out, converted))
    {
      var line := Strip(raws[i]);
      assert raws[i..][1..] == raws[i + 1..];
      if line == "" {
        continue;
      }
      var name := Name(line);
      if name == None {
        return Err(IndexError);
      }
      match KindOf(name.value) {
        case Entangle =>
          var targets := Targets(line);
          if targets == None {
            return Err(IndexError);
          }
          out := out + [line, OPERATION_LOSS + targets.value];
        case Readout =>
          var targets := Targets(line);
          if targets == None {
            return Err(IndexError);
          }
          out := out + [MEASUREMENT_LOSS + targets.value, name.value + "L " + targets.value];
          converted := converted + |Words(targets.value)|;
        case Reference =>
          out := out + [ShiftReferences(line)];
        case Reset =>
          out := out + if converted == 0 && !Marked(out) then [line, MARKER] else [line];
        case _ =>
          out := out + [line];
      }
    }
    assert raws[|raws|..] == [];
    if converted == 0 {
      return Err(NoMeasurements);
    }
    return Ok(out);
  }

  // -------------------------------------------------------------- undoing

  /** The source line an annotated line stands for, if it stands for one. */
  function EraseLine(line: string): seq<string> {
    match LineKind(line)
    case Some(LossSite) => []
    case Some(LossReadout) => [Name(line).value[..|Name(line).value| - 1] + line[IndexOf(line, ' ')..]]
    case Some(Reference) => [UnshiftReferences(line)]
    case _ => if line == MARKER then [] else [line]
  }

  function Erase(lines: seq<string>): seq<string> {
    if lines == [] then [] else EraseLine(lines[0]) + Erase(lines[1..])
  }

  lemma {:induction false} EraseAppend(a: seq<string>, b: seq<string>)
    ensures Erase(a + b) == Erase(a) + Erase(b)
  {
    hide EraseLine;
    if a == [] {
      assert a + b == b;
    } else {
      assert (a + b)[0] == a[0] && (a + b)[1..] == a[1..] + b;
      EraseAppend(a[1..], b);
    }
  }

  /** The non-blank lines, stripped. */
  function Source(raws: seq<string>): seq<string> {
    if raws == [] then []
    else (if Strip(raws[0]) == "" then [] else [Strip(raws[0])]) + Source(raws[1..])
  }

  /** What a caller can check on a line to know that annotating it loses nothing. */
  predicate Recoverable(line: string) {
    match LineKind(line)
    case Some(LossSite) => false
    case Some(LossReadout) => false
    case Some(Readout) => Name(line).value + " " <= line
    case Some(Reference) => CanonicalReferences(line) && 0 !in References(line)
    case _ => line != MARKER
  }

  lemma {:induction false} IndexOfIs(w: string, c: char, rest: string)
    requires c !in w && (rest != "" ==> rest[0] == c)
    ensures IndexOf(w + rest, c) == |w|
  {
    if w == "" {
      assert w + rest == rest;
    } else {
      assert w[0] in w;
      assert (w + rest)[1..] == w[1..] + rest;
      IndexOfIs(w[1..], c, rest);
    }
  }

  predicate IsName(w: string) {
    w != "" && forall c :: c in w ==> c != '(' && !IsSpace(c)
  }

  /** A name reaches to the first parenthesis or white space. */
  lemma {:induction false} NameIs(w: string, rest: string)
    requires IsName(w)
    requires rest != "" ==> rest[0] == '(' || IsSpace(rest[0])
    ensures Name(w + rest) == Some(w)
  {
    BeforeName(w, rest);
    FirstWord(w, Before(rest, '('));
  }

  lemma {:induction false} BeforeName(w: string, rest: string)
    requires '(' !in w
    ensures Before(w + rest, '(') == w + Before(rest, '(')
  {
    if w == "" {
      assert w + rest == rest;
    } else {
      assert w[0] in w;
      assert (w + rest)[1..] == w[1..] + rest;
      BeforeName(w[1..], rest);
    }
  }

  /** How a stripped line with a given name begins. */
  lemma {:induction false} NameStarts(line: string)
    requires Stripped(line) && Name(line).Some?
    ensures var w := Name(line).value;
            && w <= line && IsName(w)
            && (|w| < |line| ==> line[|w|] == '(' || IsSpace(line[|w|]))
  {
    var head := Before(line, '(');
    var n := WordLength(head);
    assert head[0] == line[0] && !IsSpace(head[0]);
    assert Words(head)[0] == head[..n] == line[..n];
    if n < |head| {
      assert head[n] == line[n];
    }
  }

  lemma {:induction false} KindOfShifted(line: string)
    requires Stripped(line) && LineKind(line) == Some(Reference)
    ensures LineKind(ShiftReferences(line)) == Some(Reference)
  {
    hide Name;
    NameStarts(line);
    var w := Name(line).value;
    var rest := line[|w|..];
    assert line == w + rest;
    RewriteKeepsStart(w, rest, k => 2 * k - 1);
    RewriteKeepsFirst(rest, k => 2 * k - 1);
    NameIs(w, RewriteReferences(rest, k => 2 * k - 1));
  }

  lemma {:induction false} NameInitial(line: string)
    requires line != "" && !IsSpace(line[0]) && line[0] != '('
    ensures Name(line).Some? && Name(line).value != "" && Name(line).value[0] == line[0]
  {
    var head := Before(line, '(');
    assert head[0] == line[0];
  }

  lemma {:induction false} KindOfMarker()
    ensures LineKind(MARKER) == Some(Verbatim)
  {
    hide Name, KindOf;
    NameInitial(MARKER);
    OtherInitial(Name(MARKER).value);
  }

  lemma {:induction false} OtherInitial(name: string)
    requires name != "" && name[0] == 'T'
    ensures KindOf(name) == Verbatim
  {
  }

  lemma {:induction false} KindOfLossLines(targets: string)
    ensures LineKind(OPERATION_LOSS + targets) == LineKind(MEASUREMENT_LOSS + targets) == Some(LossSite)
  {
    hide Name;
    NameIs("LOSS", "(0.01) " + targets);
    assert OPERATION_LOSS + targets == "LOSS" + ("(0.01) " + targets);
    NameIs("LOSS", "(0.02) " + targets);
    assert MEASUREMENT_LOSS + targets == "LOSS" + ("(0.02) " + targets);
  }

  lemma {:induction false} EraseReadoutLine(name: string, targets: string)
    requires KindOf(name) == Readout
    ensures LineKind(name + "L " + targets) == Some(LossReadout)
    ensures EraseLine(name + "L " + targets) == [name + (" " + targets)]
  {
    hide Name;
    var w := name + "L";
    var line := name + "L " + targets;
    assert line == w + (" " + targets);
    NameIs(w, " " + targets);
    IndexOfIs(w, ' ', " " + targets);
    assert line[|w|..] == " " + targets;
    assert w[..|w| - 1] == name;
  }

  /** Erasing what one line became gives the line back exactly when the line is recoverable. */
  lemma {:induction false} EraseEmitted(line: string, first: bool)
    requires Stripped(line) && line != "" && Emit(line, first).Some?
    ensures Erase(Emit(line, first).value) == [line] <==> Recoverable(line)
    ensures |Erase(Emit(line, first).value)| <= 1
  {
    hide Name, Targets, KindOf, IndexOf;
    KindOfMarker();
    match LineKind(line).value {
      case Entangle =>
        KindOfLossLines(Targets(line).value);
        EraseTwo(line, OPERATION_LOSS + Targets(line).value);
      case Readout =>
        EraseReadout(line, first);
      case Reference =>
        KindOfShifted(line);
        EraseTwo(ShiftReferences(line), MARKER);
        UnshiftShift(line);
      case LossReadout =>
        EraseTwo(line, MARKER);
        ErasedReadoutDiffers(line);
      case _ =>
        EraseTwo(line, MARKER);
    }
  }

  lemma {:induction false} EraseTwo(a: string, b: string)
    ensures Erase([a]) == EraseLine(a) && Erase([a, b]) == EraseLine(a) + EraseLine(b)
  {
    hide EraseLine;
    assert [a][1..] == [] && [a, b][1..] == [b] && [b][1..] == [];
    assert Erase([b]) == EraseLine(b) + Erase([]);
  }

  lemma {:induction false} EraseReadout(line: string, first: bool)
    requires Stripped(line) && Emit(line, first).Some? && LineKind(line) == Some(Readout)
    ensures Erase(Emit(line, first).value) == [line] <==> Name(line).value + " " <= line
    ensures |Erase(Emit(line, first).value)| == 1
  {
    hide Name, Targets, KindOf, IndexOf;
    var name, targets := Name(line).value, Targets(line).value;
    KindOfLossLines(targets);
    EraseReadoutLine(name, targets);
    EraseTwo(MEASUREMENT_LOSS + targets, name + "L " + targets);
    assert Erase(Emit(line, first).value) == [name + (" " + targets)];
    NameStarts(line);
    ReadoutRecovered(line, name);
  }

  lemma {:induction false} ReadoutRecovered(line: string, name: string)
    requires Targets(line).Some? && IsName(name)
    ensures name + (" " + Targets(line).value) == line <==> name + " " <= line
  {
    var i := IndexOf(line, ' ');
    assert line == line[..i] + (" " + line[i + 1..]);
    if name + " " <= line {
      assert line == name + line[|name|..];
      IndexOfIs(name, ' ', line[|name|..]);
    }
  }

  lemma {:induction false} ErasedReadoutDiffers(line: string)
    requires Stripped(line) && LineKind(line) == Some(LossReadout)
    ensures |EraseLine(line)| == 1 && EraseLine(line)[0] != line
  {
    hide Name;
    NameStarts(line);
    var name := Name(line).value;
    var i := IndexOf(line, ' ');
    assert i >= |name| by { assert forall c :: c in name ==> c != ' '; assert name == line[..|name|]; }
    assert |EraseLine(line)[0]| == |name| - 1 + (|line| - i);
    assert line[|name| - 1] == 'L';
    if i == |name| {
      assert |EraseLine(line)[0]| < |line|;
    }
  }

  /** The lines written after `acc`, and what erasing them gives. */
  lemma {:induction false} EraseTail(raws: seq<string>, acc: Pass) returns (tail: seq<string>)
    requires AnnotateFrom(raws, acc).Ok?
    ensures AnnotateFrom(raws, acc).value.out == acc.out + tail
    ensures |Erase(tail)| <= |Source(raws)|
    ensures Erase(tail) == Source(raws) <==> forall line :: line in Source(raws) ==> Recoverable(line)
  {
    hide EraseLine, Erase, Recoverable, Emit, LineKind, Marked, Strip, Targets, Words;
    if raws == [] {
      tail := [];
      assert tail + tail == tail;
      EraseAppend(tail, tail);
    } else {
      var line := Strip(raws[0]);
      if line == "" {
        tail := EraseTail(raws[1..], acc);
        assert Source(raws) == Source(raws[1..]);
      } else {
        StripIsStripped(raws[0]);
        var first := acc.converted == 0 && !Marked(acc.out);
        var lines := Emit(line, first).value;
        var rest := EraseTail(raws[1..], AnnotateLine(line, acc).value);
        tail := lines + rest;
        assert (acc.out + lines) + rest == acc.out + tail;
        EraseAppend(lines, rest);
        EraseEmitted(line, first);
        HeadsAgree(Erase(lines), Erase(rest), line, Source(raws[1..]));
        assert Source(raws) == [line] + Source(raws[1..]);
      }
    }
  }

  lemma {:induction false} HeadsAgree(a: seq<string>, b: seq<string>, x: string, y: seq<string>)
    requires |a| <= 1 && |b| <= |y|
    ensures a + b == [x] + y <==> a == [x] && b == y
  {
    if a + b == [x] + y {
      assert |a| == 1;
      assert a == (a + b)[..1] && b == (a + b)[1..];
      assert ([x] + y)[..1] == [x] && ([x] + y)[1..] == y;
    }
  }

  /**
   The annotator can be undone on exactly the circuits whose lines are all recoverable: no bare `LOSS`, `ML`,
   `MRL` or marker lines, readouts written as the name and one space, references canonical and positive.
  */
  lemma {:induction false} AnnotateInvertible(raws: seq<string>)
    requires Annotated(raws).Ok?
    ensures Erase(Annotated(raws).value) == Source(raws)
       <==> forall line :: line in Source(raws) ==> Recoverable(line)
  {
    var tail := EraseTail(raws, Pass([], 0));
    assert Annotated(raws).value == tail;
  }

  // ------------------------------------------------------- the flip point

  lemma {:induction false} MarkerContainsFlipPoint()
    ensures Contains(MARKER, FLIP_POINT)
  {
    var s := MARKER;
    assert s[5..][..24] == FLIP_POINT;
    ContainsSuffix(s, 5, FLIP_POINT);
  }

  lemma {:induction false} ContainsSuffix(s: string, i: nat, part: string)
    requires i <= |s| && part <= s[i..]
    ensures Contains(s, part)
  {
    if i > 0 {
      assert s[i..] == s[1..][i - 1..];
      ContainsSuffix(s[1..], i - 1, part);
    } else {
      assert s[0..] == s;
    }
  }

  /** A stripped readout line that has a space has at least one target. */
  lemma {:induction false} ReadoutHasTargets(line: string)
    requires Stripped(line) && line != "" && Targets(line).Some?
    ensures Words(Targets(line).value) != []
  {
    var t := Targets(line).value;
    assert t != "" by { assert IsSpace(' '); }
    assert !IsSpace(t[|t| - 1]);
    WordsOfNonBlank(t);
  }

  lemma {:induction false} WordsOfNonBlank(t: string)
    requires t != "" && !IsSpace(t[|t| - 1])
    ensures Words(t) != []
  {
    if IsSpace(t[0]) {
      WordsOfNonBlank(t[1..]);
    }
  }

  predicate InsertsAt(line: string, acc: Pass) {
    LineKind(line) == Some(Reset) && acc.converted == 0 && !Marked(acc.out)
  }

  /** For every non-blank line, whether the pass inserts a marker behind it. */
  function Insertions(raws: seq<string>, acc: Pass): seq<bool>
    requires AnnotateFrom(raws, acc).Ok?
  {
    if raws == [] then []
    else
      var line := Strip(raws[0]);
      if line == "" then Insertions(raws[1..], acc)
      else [InsertsAt(line, acc)] + Insertions(raws[1..], AnnotateLine(line, acc).value)
  }

  function Block(line: string, first: bool): seq<string> {
    match Emit(line, first) case Some(lines) => lines case None => []
  }

  /** What is written for these lines, with a marker behind the ones that say so. */
  function Blocks(lines: seq<string>, marks: seq<bool>): seq<string>
    requires |lines| == |marks|
  {
    if lines == [] then [] else Block(lines[0], marks[0]) + Blocks(lines[1..], marks[1..])
  }

  predicate NoReadout(lines: seq<string>) {
    forall line :: line in lines ==> LineKind(line) != Some(Readout)
  }

  /** A marker is inserted at the first reset, unless a readout or a flip point came before. */
  predicate InsertedAt(acc: Pass, lines: seq<string>, marks: seq<bool>, i: nat)
    requires |lines| == |marks| && i < |lines|
  {
    && LineKind(lines[i]) == Some(Reset) && acc.converted == 0 && NoReadout(lines[..i])
    && !Marked(acc.out + Blocks(lines[..i], marks[..i]))
  }

  lemma {:induction false} BlockOfInsertion(line: string, acc: Pass)
    requires Emit(line, acc.converted == 0 && !Marked(acc.out)).Some?
    ensures Block(line, InsertsAt(line, acc)) == Emit(line, acc.converted == 0 && !Marked(acc.out)).value
  {
    hide LineKind, Targets, Marked;
  }

  lemma {:induction false} InsertionsFrom(raws: seq<string>, acc: Pass)
    requires AnnotateFrom(raws, acc).Ok?
    ensures var marks, lines := Insertions(raws, acc), Source(raws);
      && |marks| == |lines| && AnnotateFrom(raws, acc).value.out == acc.out + Blocks(lines, marks)
      && forall i :: 0 <= i < |lines| ==> (marks[i] <==> InsertedAt(acc, lines, marks, i))
  {
    hide LineKind, Targets, Emit, Marked, Contains, Block;
    if raws != [] {
      var line := Strip(raws[0]);
      if line == "" {
        InsertionsFrom(raws[1..], acc);
        assert Source(raws) == Source(raws[1..]);
      } else {
        var next := AnnotateLine(line, acc).value;
        InsertionsFrom(raws[1..], next);
        StripIsStripped(raws[0]);
        BlockOfInsertion(line, acc);
        InsertionsPrepend(line, acc, next, Source(raws[1..]), Insertions(raws[1..], next));
        assert Source(raws) == [line] + Source(raws[1..]);
        assert Insertions(raws, acc) == [InsertsAt(line, acc)] + Insertions(raws[1..], next);
      }
    }
  }

  lemma {:induction false} InsertionsPrepend(line: string, acc: Pass, next: Pass, lines: seq<string>, marks: seq<bool>)
    requires |lines| == |marks| && Stripped(line) && line != "" && AnnotateLine(line, acc) == Ok(next)
    requires next.out == acc.out + Block(line, InsertsAt(line, acc))
    requires forall i :: 0 <= i < |lines| ==> (marks[i] <==> InsertedAt(next, lines, marks, i))
    ensures var all, flags := [line] + lines, [InsertsAt(line, acc)] + marks;
      && next.out + Blocks(lines, marks) == acc.out + Blocks(all, flags)
      && forall i :: 0 <= i < |all| ==> (flags[i] <==> InsertedAt(acc, all, flags, i))
  {
    hide LineKind, Targets, Emit, Marked, Contains, Block, InsertsAt;
    var all, flags := [line] + lines, [InsertsAt(line, acc)] + marks;
    assert all[1..] == lines && flags[1..] == marks;
    var block, rest := Block(line, flags[0]), Blocks(lines, marks);
    assert acc.out + block + rest == acc.out + (block + rest);
    FirstInsertion(line, acc, all, flags);
    forall i | 0 < i < |all| ensures flags[i] <==> InsertedAt(acc, all, flags, i) {
      LaterInsertion(line, acc, next, lines, marks, i - 1);
    }
  }

  lemma {:induction false} FirstInsertion(line: string, acc: Pass, all: seq<string>, flags: seq<bool>)
    requires |all| == |flags| && all != [] && all[0] == line && flags[0] == InsertsAt(line, acc)
    ensures flags[0] <==> InsertedAt(acc, all, flags, 0)
  {
    hide LineKind, Marked, Block;
    assert all[..0] == [] && flags[..0] == [] && acc.out + [] == acc.out;
  }

  lemma {:induction false} LaterInsertion(line: string, acc: Pass, next: Pass, lines: seq<string>, marks: seq<bool>,
                                          i: nat)
    requires |lines| == |marks| && i < |lines| && Stripped(line) && line != "" && AnnotateLine(line, acc) == Ok(next)
    requires next.out == acc.out + Block(line, InsertsAt(line, acc))
    ensures InsertedAt(next, lines, marks, i)
      <==> InsertedAt(acc, [line] + lines, [InsertsAt(line, acc)] + marks, i + 1)
  {
    hide Targets, Emit, Marked, Contains, Block, InsertsAt, LineKind;
    var all, flags := [line] + lines, [InsertsAt(line, acc)] + marks;
    assert all[..i + 1] == [line] + lines[..i] && flags[..i + 1] == [flags[0]] + marks[..i];
    assert ([line] + lines[..i])[1..] == lines[..i] && ([flags[0]] + marks[..i])[1..] == marks[..i];
    var block, rest := Block(line, flags[0]), Blocks(lines[..i], marks[..i]);
    assert acc.out + (block + rest) == next.out + rest;
    assert NoReadout(all[..i + 1]) <==> LineKind(line) != Some(Readout) && NoReadout(lines[..i]) by {
      assert forall x :: x in all[..i + 1] <==> x == line || x in lines[..i];
    }
    ConvertedGrows(line, acc, next);
  }

  /** The count of converted readouts is zero as long as no readout came. */
  lemma {:induction false} ConvertedGrows(line: string, acc: Pass, next: Pass)
    requires Stripped(line) && line != "" && AnnotateLine(line, acc) == Ok(next)
    ensures next.converted == 0 <==> acc.converted == 0 && LineKind(line) != Some(Readout)
  {
    hide Contains, Marked;
    if LineKind(line) == Some(Readout) {
      ReadoutHasTargets(line);
    }
  }

  lemma {:induction false} InsertedIsMarked(acc: Pass, lines: seq<string>, marks: seq<bool>, i: nat, j: nat)
    requires |lines| == |marks| && i < j < |lines| && marks[i] && LineKind(lines[i]) == Some(Reset)
    ensures Marked(acc.out + Blocks(lines[..j], marks[..j]))
  {
    hide LineKind, Targets, Contains;
    MarkerContainsFlipPoint();
    MarkerInBlocks(lines[..j], marks[..j], i);
    assert MARKER in acc.out + Blocks(lines[..j], marks[..j]);
  }

  lemma {:induction false} MarkerInBlocks(lines: seq<string>, marks: seq<bool>, i: nat)
    requires |lines| == |marks| && i < |lines| && marks[i] && LineKind(lines[i]) == Some(Reset)
    ensures MARKER in Blocks(lines, marks)
  {
    hide LineKind, Targets;
    if i > 0 {
      MarkerInBlocks(lines[1..], marks[1..], i - 1);
    } else {
      assert Block(lines[0], true) == [lines[0], MARKER];
      assert Block(lines[0], marks[0])[1] == MARKER;
    }
  }

  /**
   On every circuit that is annotated, also one that already has markers or loss-visible readouts: a marker is inserted
   behind the first reset, unless a readout or a line with a flip point was written before it, and nowhere else.
  */
  lemma {:induction false} MarkerInsertedOnce(raws: seq<string>)
    requires Annotated(raws).Ok?
    ensures var marks, lines := Insertions(raws, Pass([], 0)), Source(raws);
      && |marks| == |lines| && Annotated(raws).value == Blocks(lines, marks)
      && (forall i :: 0 <= i < |lines| ==> (marks[i] <==> InsertedAt(Pass([], 0), lines, marks, i)))
      && (forall i, j :: 0 <= i < j < |lines| ==> !(marks[i] && marks[j]))
  {
    hide LineKind, Emit, Marked, Contains, Block, AnnotateFrom, Insertions, Source, Blocks;
    InsertionsFrom(raws, Pass([], 0));
    var marks, lines := Insertions(raws, Pass([], 0)), Source(raws);
    assert [] + Blocks(lines, marks) == Blocks(lines, marks);
    forall i, j | 0 <= i < j < |lines| && marks[i] ensures !marks[j] {
      InsertedIsMarked(Pass([], 0), lines, marks, i, j);
    }
  }

  /** A line of the output that is a loss-visible readout. */
  predicate ConvertedReadout(line: string) {
    LineKind(line) == Some(LossReadout)
  }

  /** Only readouts become loss-visible readouts: whatever else is one was one before. */
  lemma {:induction false} OnlyReadoutsConvert(line: string, first: bool)
    requires Stripped(line) && Emit(line, first).Some? && LineKind(line) != Some(Readout)
    ensures forall x :: x in Block(line, first) && ConvertedReadout(x) ==> x == line
  {
    hide Name, Targets, KindOf;
    KindOfMarker();
    match LineKind(line).value {
      case Entangle => KindOfLossLines(Targets(line).value);
      case Reference => KindOfShifted(line);
      case _ =>
    }
  }

  lemma {:induction false} SourceIsStripped(raws: seq<string>)
    ensures forall line :: line in Source(raws) ==> Stripped(line)
  {
    hide Strip, Stripped;
    if raws != [] {
      SourceIsStripped(raws[1..]);
      StripIsStripped(raws[0]);
    }
  }

  lemma {:induction false} BlocksConvertNothing(lines: seq<string>, marks: seq<bool>)
    requires |lines| == |marks| && NoReadout(lines) && forall line :: line in lines ==> Stripped(line)
    ensures forall x :: x in Blocks(lines, marks) && ConvertedReadout(x) ==> x in lines
  {
    hide LineKind, Emit, Stripped;
    if lines != [] {
      BlocksConvertNothing(lines[1..], marks[1..]);
      if Emit(lines[0], marks[0]).Some? {
        OnlyReadoutsConvert(lines[0], marks[0]);
      }
    }
  }

  lemma {:induction false} BlocksSplit(lines: seq<string>, marks: seq<bool>, i: nat)
    requires |lines| == |marks| && i < |lines|
    ensures Blocks(lines, marks)
         == Blocks(lines[..i], marks[..i]) + Block(lines[i], marks[i]) + Blocks(lines[i + 1..], marks[i + 1..])
  {
    hide Block;
    if i > 0 {
      BlocksSplit(lines[1..], marks[1..], i - 1);
      assert lines[..i][1..] == lines[1..][..i - 1] && marks[..i][1..] == marks[1..][..i - 1];
    } else {
      assert Blocks(lines[..0], marks[..0]) == [];
    }
  }

  /** No converted readout stands before an inserted marker: a loss-visible readout there was one in the circuit. */
  lemma {:induction false} MarkerPrecedesConversions(raws: seq<string>, i: nat)
    requires Annotated(raws).Ok? && i < |Insertions(raws, Pass([], 0))| && Insertions(raws, Pass([], 0))[i]
    ensures var marks, lines := Insertions(raws, Pass([], 0)), Source(raws);
      && |marks| == |lines|
      && var before := Blocks(lines[..i], marks[..i]) + [lines[i]];
         && before + [MARKER] <= Annotated(raws).value
         && forall x :: x in before && ConvertedReadout(x) ==> x in lines[..i]
  {
    hide LineKind, Marked, AnnotateFrom, Insertions, Source, Blocks, Stripped;
    MarkerInsertedOnce(raws);
    SourceIsStripped(raws);
    var marks, lines := Insertions(raws, Pass([], 0)), Source(raws);
    assert InsertedAt(Pass([], 0), lines, marks, i);
    BlocksSplit(lines, marks, i);
    assert Block(lines[i], true) == [lines[i], MARKER];
    BlocksConvertNothing(lines[..i], marks[..i]);
  }
}
