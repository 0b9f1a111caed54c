/**
 The text pass computes the circuit compiler: annotating the printed circuit prints the compiled circuit.
*/
module LossVisibleText {
  import opened Prelude
  import opened Text
  import opened LossVisible
  import opened LossVisibleCircuit
  import P = LossVisiblePass

  // ------------------------------------------------------------- printing

  function PrintQubits(qubits: seq<nat>): string {
    if qubits == [] then "" else " " + PrintNat(qubits[0]) + PrintQubits(qubits[1..])
  }

  function PrintLookbacks(lookbacks: seq<nat>): string {
    if lookbacks == [] then "" else " " + PrintReference(lookbacks[0]) + PrintLookbacks(lookbacks[1..])
  }

  function Print(i: Instruction): string {
    match i
    case Other(text) => text
    case Entangle(qubits) => "CX" + PrintQubits(qubits)
    case Reset(qubits) => "R" + PrintQubits(qubits)
    case Readout(reset, qubits) => (if reset then "MR" else "M") + PrintQubits(qubits)
    case LossReadout(reset, qubits) => (if reset then "MR" else "M") + "L" + PrintQubits(qubits)
    case Detector(arguments, lookbacks) => "DETECTOR" + arguments + PrintLookbacks(lookbacks)
    case Observable(arguments, lookbacks) => "OBSERVABLE_INCLUDE" + arguments + PrintLookbacks(lookbacks)
    case LossSite(rate, qubits) => "LOSS(" + rate + ")" + PrintQubits(qubits)
    case FlipPoint => P.MARKER
  }

  function PrintAll(c: seq<Instruction>): seq<string> {
    seq(|c|, i requires 0 <= i < |c| => Print(c[i]))
  }

  /** `(...)` after a name, or nothing. */
  predicate IsArguments(s: string) {
    s == "" || (s[0] == '(' && s[|s| - 1] == ')' && 'r' !in s)
  }

  /** The instructions a flattened circuit is made of, as they can be printed. */
  predicate Printable(i: Instruction) {
    && IsSource(i)
    && match i
       case Other(text) => text != "" && Stripped(text) && P.LineKind(text) == Some(P.Verbatim)
       case Detector(arguments, _) => IsArguments(arguments)
       case Observable(arguments, _) => IsArguments(arguments)
       case Entangle(qubits) => qubits != []
       case Reset(qubits) => qubits != []
       case Readout(_, qubits) => qubits != []
       case _ => false
  }

  predicate PrintableCircuit(c: seq<Instruction>)
    ensures PrintableCircuit(c) ==> SourceCircuit(c)
  {
    forall i :: i in c ==> Printable(i)
  }

  // ---------------------------------------------- lines have the right shape

  lemma {:induction false} QubitsEnd(qubits: seq<nat>)
    ensures var s := PrintQubits(qubits);
            s != "" <==> qubits != []
    ensures var s := PrintQubits(qubits);
            qubits != [] ==> s[0] == ' ' && IsDigit(s[|s| - 1])
  {
    if qubits != [] {
      QubitsEnd(qubits[1..]);
      var d := PrintNat(qubits[0]);
      assert d[|d| - 1] in d;
    }
  }

  lemma {:induction false} LookbacksEnd(lookbacks: seq<nat>)
    ensures var s := PrintLookbacks(lookbacks);
            lookbacks != [] ==> s != "" && s[0] == ' ' && s[|s| - 1] == ']'
  {
    if lookbacks != [] {
      LookbacksEnd(lookbacks[1..]);
    }
  }

  lemma {:induction false} StripOfStripped(s: string)
    requires Stripped(s)
    ensures Strip(s) == s
  {
  }

  predicate IsWord(w: string) {
    P.IsName(w) && 'r' !in w
  }

  lemma {:induction false} NamesAreWords()
    ensures IsWord("CX") && IsWord("R") && IsWord("M") && IsWord("MR")
    ensures IsWord("DETECTOR") && IsWord("OBSERVABLE_INCLUDE")
  {
    hide IsSpace;
    assert forall c: char :: 'A' <= c <= '_' ==> !IsSpace(c) by { Capitals(); }
  }

  lemma {:induction false} Capitals()
    ensures forall c: char :: 'A' <= c <= '_' ==> !IsSpace(c)
  {
  }

  lemma {:induction false} Kinds()
    ensures P.KindOf("CX") == P.Entangle && P.KindOf("R") == P.Reset
    ensures P.KindOf("M") == P.KindOf("MR") == P.Readout
    ensures P.KindOf("DETECTOR") == P.KindOf("OBSERVABLE_INCLUDE") == P.Reference
  {
  }

  /** A name followed by printed qubits: its kind, its targets, and nothing to strip. */
  lemma {:induction false} QubitLine(w: string, qubits: seq<nat>)
    requires IsWord(w) && qubits != []
    ensures var line := w + PrintQubits(qubits);
            && P.Name(line) == Some(w)
            && P.Targets(line) == Some(PrintQubits(qubits)[1..])
            && PrintQubits(qubits) == " " + PrintQubits(qubits)[1..]
            && Stripped(line) && line != ""
  {
    hide P.Name, PrintQubits;
    var rest := PrintQubits(qubits);
    QubitsEnd(qubits);
    P.NameIs(w, rest);
    P.IndexOfIs(w, ' ', rest);
    var line := w + rest;
    assert line[|w| + 1..] == rest[1..];
    assert rest == " " + rest[1..];
    assert line[0] == w[0] && w[0] in w;
    assert line[|line| - 1] == rest[|rest| - 1];
  }

  lemma {:induction false} RewritePrinted(k: nat, rest: string, f: nat -> int)
    ensures RewriteReferences(PrintReference(k) + rest, f) == PrintReference(f(k)) + RewriteReferences(rest, f)
  {
    hide ReferenceAt, Spell, ParseNat, PrintNat;
    ReferenceAtIs(PrintNat(k), rest);
    ParsePrint(k);
    assert PrintReference(k) + rest != "";
  }

  /** Shifting the printed references prints the shifted references. */
  lemma {:induction false} ShiftLookbacks(lookbacks: seq<nat>)
    requires 0 !in lookbacks
    ensures ShiftReferences(PrintLookbacks(lookbacks)) == PrintLookbacks(Shifted(lookbacks))
  {
    hide RewriteReferences, PrintReference;
    var f: nat -> int := k => 2 * k - 1;
    if lookbacks == [] {
      RewriteKeepsFirst("", f);
    } else {
      var k, rest := lookbacks[0], PrintLookbacks(lookbacks[1..]);
      assert k in lookbacks && 0 !in lookbacks[1..];
      ShiftLookbacks(lookbacks[1..]);
      assert Shifted(lookbacks)[1..] == Shifted(lookbacks[1..]);
      var s := PrintReference(k) + rest;
      assert PrintLookbacks(lookbacks) == " " + s;
      RewriteKeepsStart(" ", s, f);
      RewritePrinted(k, rest, f);
      assert " " + (PrintReference(2 * k - 1) + RewriteReferences(rest, f))
          == " " + PrintReference(2 * k - 1) + RewriteReferences(rest, f);
    }
  }

  lemma {:induction false} ReferenceLine(w: string, arguments: string, lookbacks: seq<nat>)
    requires IsWord(w) && IsArguments(arguments) && 0 !in lookbacks
    ensures var line := w + arguments + PrintLookbacks(lookbacks);
            && P.Name(line) == Some(w)
            && ShiftReferences(line) == w + arguments + PrintLookbacks(Shifted(lookbacks))
            && Stripped(line) && line != ""
  {
    hide P.Name, PrintLookbacks, RewriteReferences;
    var rest := PrintLookbacks(lookbacks);
    LookbacksEnd(lookbacks);
    assert lookbacks == [] ==> rest == "" by { EmptyLookbacks(); }
    var line := w + arguments + rest;
    assert line == w + (arguments + rest);
    P.NameIs(w, arguments + rest);
    RewriteKeepsStart(w + arguments, rest, k => 2 * k - 1);
    ShiftLookbacks(lookbacks);
    assert line[0] == w[0] && w[0] in w && w[|w| - 1] in w;
    assert line[|line| - 1] == if rest != "" then rest[|rest| - 1]
                               else if arguments != "" then arguments[|arguments| - 1] else w[|w| - 1];
  }

  lemma {:induction false} EmptyLookbacks()
    ensures PrintLookbacks([]) == ""
  {
  }

  // ------------------------------------------------------- line by line

  lemma {:induction false} PrintedKind(i: Instruction)
    requires Printable(i)
    ensures Stripped(Print(i)) && Print(i) != ""
    ensures P.LineKind(Print(i)) == Some(P.Readout) <==> i.Readout?
    ensures P.LineKind(Print(i)) == Some(P.Readout) ==> P.Targets(Print(i)).Some?
  {
    hide P.Name, P.Targets, P.KindOf, PrintQubits, PrintLookbacks, IsWord;
    NamesAreWords();
    Kinds();
    match i
    case Other(_) =>
    case Entangle(qubits) => QubitLine("CX", qubits);
    case Reset(qubits) => QubitLine("R", qubits);
    case Readout(reset, qubits) => QubitLine(if reset then "MR" else "M", qubits);
    case Detector(arguments, lookbacks) => ReferenceLine("DETECTOR", arguments, lookbacks);
    case Observable(arguments, lookbacks) => ReferenceLine("OBSERVABLE_INCLUDE", arguments, lookbacks);
  }

  lemma {:induction false} PrintShort(a: Instruction, b: Instruction)
    ensures PrintAll([a]) == [Print(a)] && PrintAll([a, b]) == [Print(a), Print(b)]
  {
    hide Print;
  }

  lemma {:induction false} PrintedEmit(i: Instruction, first: bool)
    requires Printable(i)
    ensures P.Emit(Print(i), first) == Some(PrintAll(CompileInstruction(i, first)))
  {
    hide P.Name, P.Targets, P.KindOf, PrintAll;
    var code := CompileInstruction(i, first);
    PrintShort(code[0], if |code| == 2 then code[1] else i);
    Kinds();
    match i
    case Other(_) =>
    case Entangle(qubits) => EntangleEmit(qubits, first);
    case Reset(qubits) =>
      NamesAreWords();
      QubitLine("R", qubits);
    case Readout(reset, qubits) => ReadoutEmit(reset, qubits, first);
    case Detector(_, _) => PrintedReferencesEmit(i, first);
    case Observable(_, _) => PrintedReferencesEmit(i, first);
  }

  lemma {:induction false} EntangleEmit(qubits: seq<nat>, first: bool)
    requires qubits != []
    ensures P.Emit(Print(Entangle(qubits)), first) == Some(PrintAll(CompileInstruction(Entangle(qubits), first)))
  {
    hide P.Name, P.Targets, P.KindOf, PrintQubits, IsWord, PrintAll;
    NamesAreWords();
    Kinds();
    QubitsEnd(qubits);
    var site := LossSite(OPERATION_RATE, qubits);
    PrintShort(Entangle(qubits), site);
    QubitLine("CX", qubits);
    LossSiteLine(OPERATION_RATE, PrintQubits(qubits)[1..]);
    assert Print(site) == P.OPERATION_LOSS + PrintQubits(qubits)[1..];
  }

  lemma {:induction false} ReadoutEmit(reset: bool, qubits: seq<nat>, first: bool)
    requires qubits != []
    ensures P.Emit(Print(Readout(reset, qubits)), first)
         == Some(PrintAll(CompileInstruction(Readout(reset, qubits), first)))
  {
    hide P.Name, P.Targets, P.KindOf, PrintQubits, IsWord, PrintAll;
    NamesAreWords();
    Kinds();
    QubitsEnd(qubits);
    var name, targets := if reset then "MR" else "M", PrintQubits(qubits)[1..];
    var site, readout := LossSite(MEASUREMENT_RATE, qubits), LossReadout(reset, qubits);
    PrintShort(site, readout);
    QubitLine(name, qubits);
    LossSiteLine(MEASUREMENT_RATE, targets);
    assert Print(site) == P.MEASUREMENT_LOSS + targets;
    assert Print(readout) == name + "L" + (" " + targets) == name + "L " + targets;
  }

  lemma {:induction false} PrintedReferencesEmit(i: Instruction, first: bool)
    requires Printable(i) && (i.Detector? || i.Observable?)
    ensures P.Emit(Print(i), first) == Some(PrintAll(CompileInstruction(i, first)))
  {
    hide P.Name, P.Targets, P.KindOf, PrintLookbacks, IsWord, ShiftReferences, PrintAll;
    NamesAreWords();
    Kinds();
    PrintShort(CompileInstruction(i, first)[0], i);
    ReferenceLine(if i.Detector? then "DETECTOR" else "OBSERVABLE_INCLUDE", i.arguments, i.lookbacks);
  }

  lemma {:induction false} LossSiteLine(rate: string, targets: string)
    ensures rate == OPERATION_RATE ==> P.OPERATION_LOSS + targets == "LOSS(" + rate + ")" + (" " + targets)
    ensures rate == MEASUREMENT_RATE ==> P.MEASUREMENT_LOSS + targets == "LOSS(" + rate + ")" + (" " + targets)
  {
  }

  // ------------------------------------------------------ the whole text

  predicate HasReadout(c: seq<Instruction>) {
    exists i :: i in c && i.Readout?
  }

  /** The resets behind which the pass puts the flip point. */
  function Marks(c: seq<Instruction>, acc: P.Pass): (marks: seq<bool>)
    ensures |marks| == |c|
  {
    if c == [] then []
    else
      [acc.converted == 0 && !P.Marked(acc.out)]
      + match P.AnnotateLine(Print(c[0]), acc)
        case Ok(acc') => Marks(c[1..], acc')
        case Err(_) => seq(|c| - 1, _ => false)
  }

  lemma {:induction false} AnnotateFromPrinted(c: seq<Instruction>, acc: P.Pass)
    requires PrintableCircuit(c)
    ensures var r := P.AnnotateFrom(PrintAll(c), acc);
            && r.Ok?
            && r.value.out == acc.out + PrintAll(Compile(c, Marks(c, acc)))
            && (r.value.converted > 0 <==> acc.converted > 0 || HasReadout(c))
  {
    hide P.Emit, P.LineKind, P.Targets, P.Marked, Print, Printable, Words, Strip, CompileInstruction;
    if c == [] {
      assert acc.out + [] == acc.out;
    } else {
      var i, line := c[0], Print(c[0]);
      var first := acc.converted == 0 && !P.Marked(acc.out);
      assert i in c;
      PrintedKind(i);
      PrintedEmit(i, first);
      StripOfStripped(line);
      if i.Readout? {
        P.ReadoutHasTargets(line);
      }
      var acc' := P.AnnotateLine(line, acc).value;
      assert PrintAll(c)[1..] == PrintAll(c[1..]);
      AnnotateFromPrinted(c[1..], acc');
      var head, tail := CompileInstruction(i, first), Compile(c[1..], Marks(c[1..], acc'));
      assert Marks(c, acc)[1..] == Marks(c[1..], acc');
      assert PrintAll(head + tail) == PrintAll(head) + PrintAll(tail);
      assert HasReadout(c) <==> i.Readout? || HasReadout(c[1..]);
    }
  }

  /**
   Annotating a printed circuit gives the printed compilation of the circuit, unless the circuit has no readout
   to convert, in which case the pass refuses it.
  */
  lemma {:induction false} AnnotateComputesCompile(c: seq<Instruction>)
    requires PrintableCircuit(c)
    ensures var marks := Marks(c, P.Pass([], 0));
            P.Annotated(PrintAll(c))
            == if HasReadout(c) then Ok(PrintAll(Compile(c, marks))) else Err(P.NoMeasurements)
  {
    hide P.AnnotateFrom, HasReadout, PrintAll, Compile, Marks, PrintableCircuit;
    AnnotateFromPrinted(c, P.Pass([], 0));
    var lines := PrintAll(Compile(c, Marks(c, P.Pass([], 0))));
    assert [] + lines == lines;
  }

  /**
   From text to runs: the text of a circuit that measures by `M` and `MR` alone, at least once, is annotated to the text
   of a circuit whose lossless run agrees with the run of the first.
  */
  lemma {:induction false} AnnotatedTextAgrees<Q>(m: Machine<Q>, heralds: Heralds, c: seq<Instruction>, q: Q)
      returns (c': seq<Instruction>)
    requires PrintableCircuit(c) && HasReadout(c) && OnlyConvertedReadouts(m, c) && Lossless(heralds)
    ensures c' == Compile(c, Marks(c, P.Pass([], 0))) && P.Annotated(PrintAll(c)) == Ok(PrintAll(c'))
    ensures RunsAgree(Run(m, heralds, c, Start(q)), Run(m, heralds, c', Start(q)))
  {
    hide P.Annotated, HasReadout, PrintAll, Compile, Marks, PrintableCircuit, OnlyConvertedReadouts, Run, Lossless;
    c' := Compile(c, Marks(c, P.Pass([], 0)));
    AnnotateComputesCompile(c);
    AnnotatedRunAgrees(m, heralds, c, Marks(c, P.Pass([], 0)), q);
  }
}
