/**
 What the annotator means. Flattened circuits run on an abstract machine that keeps a quantum state, the lost
 atoms, a growing list of measurement records, and the parities of detectors and observables. The annotated
 circuit, run without losses, ends in the same state and gives every detector and observable the same parity.
*/
module LossVisibleCircuit {
  import opened Prelude

  datatype Instruction =
    | Other(text: string)
    | Entangle(qubits: seq<nat>)
    | Reset(qubits: seq<nat>)
    | Readout(reset: bool, qubits: seq<nat>)
    | Detector(arguments: string, lookbacks: seq<nat>)
    | Observable(arguments: string, lookbacks: seq<nat>)
      // written by the annotator only
    | LossSite(rate: string, qubits: seq<nat>)
    | LossReadout(reset: bool, qubits: seq<nat>)
    | FlipPoint

  predicate IsSource(i: Instruction) {
    && !i.LossSite? && !i.LossReadout? && !i.FlipPoint?
    && ((i.Detector? || i.Observable?) ==> 0 !in i.lookbacks)
  }

  // --------------------------------------------------------- the compiler

  const OPERATION_RATE := "0.01"
  const MEASUREMENT_RATE := "0.02"

  /** `rec[-k]` becomes `rec[-(2k-1)]` */
  function Shifted(lookbacks: seq<nat>): seq<nat>
    requires 0 !in lookbacks
  {
    seq(|lookbacks|, i requires 0 <= i < |lookbacks| => 2 * lookbacks[i] - 1)
  }

  /** What one instruction is replaced by; `mark` puts the flip point behind a reset. */
  function CompileInstruction(i: Instruction, mark: bool): seq<Instruction>
    requires IsSource(i)
  {
    match i
    case Entangle(qubits) => [i, LossSite(OPERATION_RATE, qubits)]
    case Readout(reset, qubits) => [LossSite(MEASUREMENT_RATE, qubits), LossReadout(reset, qubits)]
    case Reset(_) => if mark then [i, FlipPoint] else [i]
    case Detector(arguments, lookbacks) => [Detector(arguments, Shifted(lookbacks))]
    case Observable(arguments, lookbacks) => [Observable(arguments, Shifted(lookbacks))]
    case _ => [i]
  }

  predicate SourceCircuit(c: seq<Instruction>) {
    forall i :: i in c ==> IsSource(i)
  }

  function Compile(c: seq<Instruction>, marks: seq<bool>): seq<Instruction>
    requires SourceCircuit(c) && |marks| == |c|
  {
    if c == [] then [] else CompileInstruction(c[0], marks[0]) + Compile(c[1..], marks[1..])
  }

  // ----------------------------------------------------------- the machine

  /**
   The effect of every operation on the quantum state, which may depend on the atoms that are lost. Any other
   instruction adds a number of records that its text determines.
  */
  datatype Machine<!Q> = Machine(
    other: (string, Q, set<nat>) -> Q,
    width: string -> nat,
    bit: (string, nat, Q, set<nat>) -> bool,
    entangle: (seq<nat>, Q, set<nat>) -> Q,
    reset: (seq<nat>, Q, set<nat>) -> Q,
    collapse: (nat, bool, Q, set<nat>) -> Q,
    value: (nat, Q, set<nat>) -> bool)

  /** `herald(n, t)`: the `n`-th loss site that runs loses atom `t`. */
  type Heralds = (nat, nat) -> bool

  datatype State<Q> = State(q: Q, lost: set<nat>, sites: nat, records: seq<bool>, detectors: seq<bool>,
                            observables: map<string, bool>)

  function Bits<Q>(m: Machine<Q>, text: string, s: State<Q>): seq<bool> {
    seq(m.width(text), i requires 0 <= i < m.width(text) => m.bit(text, i, s.q, s.lost))
  }

  function ReadOne<Q>(m: Machine<Q>, visible: bool, reset: bool, t: nat, s: State<Q>): State<Q> {
    s.(q := m.collapse(t, reset, s.q, s.lost),
       lost := if reset then s.lost - {t} else s.lost,
       records := s.records + (if visible then [t in s.lost] else []) + [m.value(t, s.q, s.lost)])
  }

  function Read<Q>(m: Machine<Q>, visible: bool, reset: bool, qubits: seq<nat>, s: State<Q>): State<Q>
    decreases |qubits|
  {
    if qubits == [] then s else Read(m, visible, reset, qubits[1..], ReadOne(m, visible, reset, qubits[0], s))
  }

  /** The parity of the records that the lookbacks name, unless one of them reaches too far back. */
  function Parity(records: seq<bool>, lookbacks: seq<nat>): Option<bool> {
    if lookbacks == [] then Some(false)
    else if 1 <= lookbacks[0] <= |records| then
      match Parity(records, lookbacks[1..])
      case Some(p) => Some(records[|records| - lookbacks[0]] != p)
      case None => None
    else None
  }

  function Step<Q>(m: Machine<Q>, heralds: Heralds, i: Instruction, s: State<Q>): Option<State<Q>> {
    match i
    case Other(text) =>
      Some(s.(q := m.other(text, s.q, s.lost), records := s.records + Bits(m, text, s)))
    case Entangle(qubits) => Some(s.(q := m.entangle(qubits, s.q, s.lost)))
    case Reset(qubits) => Some(s.(q := m.reset(qubits, s.q, s.lost), lost := s.lost - set t | t in qubits))
    case Readout(reset, qubits) => Some(Read(m, false, reset, qubits, s))
    case LossReadout(reset, qubits) => Some(Read(m, true, reset, qubits, s))
    case LossSite(_, qubits) =>
      Some(s.(lost := s.lost + (set t | t in qubits && heralds(s.sites, t)), sites := s.sites + 1))
    case FlipPoint => Some(s)
    case Detector(_, lookbacks) =>
      (match Parity(s.records, lookbacks)
       case Some(p) => Some(s.(detectors := s.detectors + [p]))
       case None => None)
    case Observable(name, lookbacks) =>
      (match Parity(s.records, lookbacks)
       case Some(p) =>
         var before := if name in s.observables then s.observables[name] else false;
         Some(s.(observables := s.observables[name := before != p]))
       case None => None)
  }

  /** Runs a circuit; a reference to a record that does not exist stops the run. */
  function Run<Q>(m: Machine<Q>, heralds: Heralds, c: seq<Instruction>, s: State<Q>): Option<State<Q>> {
    if c == [] then Some(s)
    else match Step(m, heralds, c[0], s)
      case Some(s') => Run(m, heralds, c[1..], s')
      case None => None
  }

  lemma {:induction false} RunAppend<Q>(m: Machine<Q>, heralds: Heralds, a: seq<Instruction>, b: seq<Instruction>,
                                        s: State<Q>)
    ensures Run(m, heralds, a + b, s)
         == match Run(m, heralds, a, s) case Some(s') => Run(m, heralds, b, s') case None => None
  {
    hide Step;
    if a == [] {
      assert a + b == b;
    } else {
      assert (a + b)[1..] == a[1..] + b;
      match Step(m, heralds, a[0], s)
      case Some(s') => RunAppend(m, heralds, a[1..], b, s');
      case None =>
    }
  }

  lemma {:induction false} RunOne<Q>(m: Machine<Q>, heralds: Heralds, i: Instruction, s: State<Q>)
    ensures Run(m, heralds, [i], s) == Step(m, heralds, i, s)
  {
    hide Step;
    assert [i][1..] == [];
  }

  lemma {:induction false} RunTwo<Q>(m: Machine<Q>, heralds: Heralds, a: Instruction, b: Instruction, s: State<Q>)
    ensures Run(m, heralds, [a, b], s)
         == match Step(m, heralds, a, s) case Some(s') => Step(m, heralds, b, s') case None => None
  {
    hide Step;
    assert [a, b][1..] == [b];
    match Step(m, heralds, a, s)
    case Some(s') => RunOne(m, heralds, b, s');
    case None =>
  }

  // ------------------------------------------------------------- layouts

  /** For every record, whether it comes from a readout that the annotator converts. */
  type Layout = seq<bool>

  function Converted(layout: Layout): nat {
    if layout == [] then 0 else Converted(layout[..|layout| - 1]) + if layout[|layout| - 1] then 1 else 0
  }

  /** The records of the annotated run: a clear flag in front of every converted record. */
  function Spread(records: seq<bool>, layout: Layout): (r: seq<bool>)
    requires |records| == |layout|
    ensures |r| == |layout| + Converted(layout)
  {
    if records == [] then []
    else
      var n := |records| - 1;
      Spread(records[..n], layout[..n]) + (if layout[n] then [false] else []) + [records[n]]
  }

  /** Where the value of record `i` ends up. */
  function Position(layout: Layout, i: nat): nat
    requires i < |layout|
  {
    i + Converted(layout[..i + 1])
  }

  lemma {:induction false} SpreadAt(records: seq<bool>, layout: Layout, i: nat)
    requires i < |records| == |layout|
    ensures Position(layout, i) < |Spread(records, layout)|
    ensures Spread(records, layout)[Position(layout, i)] == records[i]
    ensures layout[i] ==> Position(layout, i) > 0 && !Spread(records, layout)[Position(layout, i) - 1]
  {
    var n := |records| - 1;
    if i < n {
      SpreadAt(records[..n], layout[..n], i);
      assert layout[..n][..i + 1] == layout[..i + 1];
    } else {
      assert layout[..i + 1] == layout;
    }
  }

  lemma {:induction false} ConvertedBetween(layout: Layout, m: nat)
    requires m <= |layout|
    ensures Converted(layout[..m]) <= Converted(layout) <= Converted(layout[..m]) + |layout| - m
    ensures Converted(layout) == Converted(layout[..m]) + |layout| - m
       <==> forall j :: m <= j < |layout| ==> layout[j]
  {
    if m == |layout| {
      assert layout[..m] == layout;
    } else {
      var n := |layout| - 1;
      ConvertedBetween(layout[..n], m);
      assert layout[..n][..m] == layout[..m];
      assert (forall j :: m <= j < |layout| ==> layout[j])
        <==> (forall j :: m <= j < n ==> layout[..n][j]) && layout[n];
    }
  }

  /** All records younger than the one `k` back are converted. */
  predicate Aligned(layout: Layout, k: nat) {
    forall j :: 0 <= j < |layout| && |layout| - k < j ==> layout[j]
  }

  /**
   The rewritten reference names the value of the record it named before exactly when every younger record is
   converted; whether the referenced record itself is converted does not matter.
  */
  lemma {:induction false} ShiftedReferenceIsRight(layout: Layout, k: nat)
    requires 1 <= k <= |layout|
    ensures |layout| + Converted(layout) - (2 * k - 1) == Position(layout, |layout| - k) <==> Aligned(layout, k)
  {
    ConvertedBetween(layout, |layout| - k + 1);
  }

  /** A reference that reaches too far back still does after the rewriting. */
  lemma {:induction false} OutOfRangeStays(layout: Layout, k: nat)
    requires k > |layout|
    ensures 2 * k - 1 > |layout| + Converted(layout)
  {
    ConvertedBetween(layout, 0);
    assert Converted(layout[..0]) == 0;
  }

  /** On converted records alone, references stay in range exactly when they were. */
  lemma {:induction false} RangeIsKept(layout: Layout, k: nat)
    requires k >= 1 && forall j :: 0 <= j < |layout| ==> layout[j]
    ensures k <= |layout| <==> 2 * k - 1 <= |layout| + Converted(layout)
    ensures Converted(layout) == |layout|
  {
    ConvertedBetween(layout, 0);
    assert Converted(layout[..0]) == 0;
  }

  // ---------------------------------------------------------- simulation

  predicate AlignedLookbacks(layout: Layout, lookbacks: seq<nat>) {
    forall k :: k in lookbacks ==> 1 <= k && (k <= |layout| ==> Aligned(layout, k))
  }

  /** The records one instruction adds. */
  function LayoutOf<Q>(m: Machine<Q>, i: Instruction): Layout {
    match i
    case Other(text) => seq(m.width(text), _ => false)
    case Readout(_, qubits) => seq(|qubits|, _ => true)
    case _ => []
  }

  function FinalLayout<Q>(m: Machine<Q>, c: seq<Instruction>, layout: Layout): Layout {
    if c == [] then layout else FinalLayout(m, c[1..], layout + LayoutOf(m, c[0]))
  }

  /** Every reference in the circuit is aligned where it stands. */
  predicate AlignedCircuit<Q>(m: Machine<Q>, c: seq<Instruction>, layout: Layout) {
    c != [] ==>
      && ((c[0].Detector? || c[0].Observable?) ==> AlignedLookbacks(layout, c[0].lookbacks))
      && AlignedCircuit(m, c[1..], layout + LayoutOf(m, c[0]))
  }

  ghost predicate Lossless(heralds: Heralds) {
    forall n, t :: !heralds(n, t)
  }

  /** The annotated run is where the original run is. */
  ghost predicate Simulates<Q>(s: State<Q>, s': State<Q>, layout: Layout) {
    && |layout| == |s.records|
    && s'.q == s.q && s.lost == {} == s'.lost
    && s'.records == Spread(s.records, layout)
    && s'.detectors == s.detectors && s'.observables == s.observables
  }

  lemma {:induction false} SpreadAppendPlain(records: seq<bool>, layout: Layout, bits: seq<bool>)
    requires |records| == |layout|
    ensures Spread(records + bits, layout + seq(|bits|, _ => false)) == Spread(records, layout) + bits
  {
    var more := seq(|bits|, _ => false);
    if bits == [] {
      assert records + bits == records && layout + more == layout;
    } else {
      var n := |bits| - 1;
      SpreadAppendPlain(records, layout, bits[..n]);
      assert (records + bits)[..|records| + n] == records + bits[..n];
      assert (layout + more)[..|layout| + n] == layout + seq(n, _ => false);
      assert bits == bits[..n] + [bits[n]];
    }
  }

  lemma {:induction false} SpreadAppendConverted(records: seq<bool>, layout: Layout, bit: bool)
    requires |records| == |layout|
    ensures Spread(records + [bit], layout + [true]) == Spread(records, layout) + [false, bit]
  {
    assert (records + [bit])[..|records|] == records;
    assert (layout + [true])[..|layout|] == layout;
  }

  lemma {:induction false} ReadOneSimulates<Q>(m: Machine<Q>, reset: bool, t: nat, s: State<Q>, s': State<Q>,
                                               layout: Layout)
    requires Simulates(s, s', layout)
    ensures Simulates(ReadOne(m, false, reset, t, s), ReadOne(m, true, reset, t, s'), layout + [true])
  {
    hide Spread;
    SpreadAppendConverted(s.records, layout, m.value(t, s.q, s.lost));
    assert ReadOne(m, false, reset, t, s).records == s.records + [m.value(t, s.q, s.lost)];
    assert ReadOne(m, true, reset, t, s').records == s'.records + [false, m.value(t, s.q, s.lost)];
  }

  lemma {:induction false} ReadSimulates<Q>(m: Machine<Q>, reset: bool, qubits: seq<nat>, s: State<Q>, s': State<Q>,
                                            layout: Layout)
    requires Simulates(s, s', layout)
    ensures Simulates(Read(m, false, reset, qubits, s), Read(m, true, reset, qubits, s'),
                      layout + seq(|qubits|, _ => true))
    decreases |qubits|
  {
    hide Simulates, ReadOne;
    if qubits == [] {
      assert layout + seq(0, _ => true) == layout;
    } else {
      ReadOneSimulates(m, reset, qubits[0], s, s', layout);
      var u, u' := ReadOne(m, false, reset, qubits[0], s), ReadOne(m, true, reset, qubits[0], s');
      ReadSimulates(m, reset, qubits[1..], u, u', layout + [true]);
      assert layout + [true] + seq(|qubits| - 1, _ => true) == layout + seq(|qubits|, _ => true);
    }
  }

  lemma {:induction false} ParityAgrees(records: seq<bool>, layout: Layout, lookbacks: seq<nat>)
    requires |records| == |layout| && 0 !in lookbacks && AlignedLookbacks(layout, lookbacks)
    ensures Parity(Spread(records, layout), Shifted(lookbacks)) == Parity(records, lookbacks)
  {
    if lookbacks != [] {
      var k, rest := lookbacks[0], lookbacks[1..];
      assert k in lookbacks && forall j :: j in rest ==> j in lookbacks;
      ParityAgrees(records, layout, rest);
      assert Shifted(lookbacks)[1..] == Shifted(rest);
      if k <= |layout| {
        ShiftedReferenceIsRight(layout, k);
        SpreadAt(records, layout, |layout| - k);
      } else {
        OutOfRangeStays(layout, k);
      }
    }
  }

  /** Every set bit of the annotated records is the value of a set record. */
  lemma {:induction false} SetBitsAreValues(records: seq<bool>, layout: Layout, p: nat) returns (j: nat)
    requires |records| == |layout| && p < |Spread(records, layout)| && Spread(records, layout)[p]
    ensures j < |records| && records[j] && p == Position(layout, j)
  {
    var n := |records| - 1;
    var older := Spread(records[..n], layout[..n]);
    if p < |older| {
      j := SetBitsAreValues(records[..n], layout[..n], p);
      assert layout[..n][..j + 1] == layout[..j + 1];
    } else {
      j := n;
      assert layout[..n + 1] == layout;
    }
  }

  lemma {:induction false} MisalignedReference(layout: Layout, k: nat) returns (records: seq<bool>)
    requires 1 <= k <= |layout| && !Aligned(layout, k)
    ensures |records| == |layout|
    ensures Parity(Spread(records, layout), [2 * k - 1]) != Parity(records, [k])
  {
    hide Spread, Converted, Parity, Position, Aligned;
    var i := |layout| - k;
    records := seq(|layout|, j => j == i);
    var spread := Spread(records, layout);
    ParityOfOne(records, k);
    ParityOfOne(spread, 2 * k - 1);
    ShiftedReferenceIsRight(layout, k);
    var p := |spread| - (2 * k - 1);
    if p >= 0 && spread[p] {
      var j := SetBitsAreValues(records, layout, p);
    }
  }

  lemma {:induction false} AlignedReference(layout: Layout, k: nat, records: seq<bool>)
    requires 1 <= k <= |layout| == |records| && Aligned(layout, k)
    ensures Parity(Spread(records, layout), [2 * k - 1]) == Parity(records, [k])
  {
    hide Spread, Converted, Parity, Aligned;
    assert Shifted([k]) == [2 * k - 1];
    ParityAgrees(records, layout, [k]);
  }

  /** The rewritten reference gives the parity the original reference gave. */
  ghost predicate SameParity(layout: Layout, k: nat, records: seq<bool>)
    requires k >= 1 && |records| == |layout|
  {
    Parity(Spread(records, layout), [2 * k - 1]) == Parity(records, [k])
  }

  /** Alignment is not only enough: a reference that is not aligned changes the parity for some records. */
  lemma {:induction false} ReferenceIsRightIffAligned(layout: Layout, k: nat)
    requires 1 <= k <= |layout|
    ensures Aligned(layout, k)
       <==> forall records: seq<bool> :: |records| == |layout| ==> SameParity(layout, k, records)
  {
    hide Spread, Parity, Aligned;
    if Aligned(layout, k) {
      forall records: seq<bool> | |records| == |layout|
        ensures SameParity(layout, k, records)
      {
        AlignedReference(layout, k, records);
      }
    } else {
      var records := MisalignedReference(layout, k);
      assert !SameParity(layout, k, records);
    }
  }

  lemma {:induction false} ParityOfOne(records: seq<bool>, k: nat)
    ensures Parity(records, [k]) == if 1 <= k <= |records| then Some(records[|records| - k]) else None
  {
    assert [k][1..] == [];
    assert Parity(records, []) == Some(false);
  }

  lemma {:induction false} StepSimulates<Q>(m: Machine<Q>, heralds: Heralds, i: Instruction, mark: bool, s: State<Q>,
                                            s': State<Q>, layout: Layout)
    requires Lossless(heralds) && IsSource(i) && Simulates(s, s', layout)
    requires (i.Detector? || i.Observable?) ==> AlignedLookbacks(layout, i.lookbacks)
    ensures var r, r' := Step(m, heralds, i, s), Run(m, heralds, CompileInstruction(i, mark), s');
            r.Some? == r'.Some? && (r.Some? ==> Simulates(r.value, r'.value, layout + LayoutOf(m, i)))
  {
    hide Parity, Read, Spread, AlignedLookbacks, Run;
    var code := CompileInstruction(i, mark);
    RunOne(m, heralds, code[0], s');
    RunTwo(m, heralds, code[0], if |code| == 2 then code[1] else i, s');
    assert layout + [] == layout;
    match i
    case Other(text) =>
      SpreadAppendPlain(s.records, layout, Bits(m, text, s));
    case Entangle(qubits) =>
      LosslessSite(m, heralds, code[1], s'.(q := m.entangle(qubits, s'.q, s'.lost)));
    case Readout(reset, qubits) =>
      LosslessSite(m, heralds, code[0], s');
      ReadSimulates(m, reset, qubits, s, s'.(sites := s'.sites + 1), layout);
    case Detector(_, lookbacks) => ParityAgrees(s.records, layout, lookbacks);
    case Observable(_, lookbacks) => ParityAgrees(s.records, layout, lookbacks);
    case _ =>
  }

  lemma {:induction false} LosslessSite<Q>(m: Machine<Q>, heralds: Heralds, i: Instruction, s: State<Q>)
    requires Lossless(heralds) && i.LossSite? && s.lost == {}
    ensures Step(m, heralds, i, s) == Some(s.(sites := s.sites + 1))
  {
    assert s.lost + (set t | t in i.qubits && heralds(s.sites, t)) == {};
  }

  /**
   Meaning preservation. Started alike, the circuit and its annotation either both stop at a reference out of
   range or both end in the same quantum state, with the same detectors and observables, and with the records
   of the annotated run being the original ones, a clear flag in front of each converted one.
  */
  lemma {:induction false} CompileSimulates<Q>(m: Machine<Q>, heralds: Heralds, c: seq<Instruction>, marks: seq<bool>,
                                               s: State<Q>, s': State<Q>, layout: Layout)
    requires Lossless(heralds) && SourceCircuit(c) && |marks| == |c|
    requires Simulates(s, s', layout) && AlignedCircuit(m, c, layout)
    ensures var r, r' := Run(m, heralds, c, s), Run(m, heralds, Compile(c, marks), s');
            r.Some? == r'.Some? && (r.Some? ==> Simulates(r.value, r'.value, FinalLayout(m, c, layout)))
  {
    hide Step, Simulates, LayoutOf, Lossless, AlignedLookbacks;
    if c != [] {
      assert c[0] in c;
      StepSimulates(m, heralds, c[0], marks[0], s, s', layout);
      RunAppend(m, heralds, CompileInstruction(c[0], marks[0]), Compile(c[1..], marks[1..]), s');
      match Step(m, heralds, c[0], s)
      case Some(u) =>
        var u' := Run(m, heralds, CompileInstruction(c[0], marks[0]), s').value;
        CompileSimulates(m, heralds, c[1..], marks[1..], u, u', layout + LayoutOf(m, c[0]));
      case None =>
    }
  }

  // ------------------------- circuits that measure by M and MR alone

  predicate OnlyConvertedReadouts<Q>(m: Machine<Q>, c: seq<Instruction>) {
    forall i :: i in c && i.Other? ==> m.width(i.text) == 0
  }

  predicate AllTrue(layout: Layout) {
    forall j :: 0 <= j < |layout| ==> layout[j]
  }

  lemma {:induction false} OnlyConvertedIsAligned<Q>(m: Machine<Q>, c: seq<Instruction>, layout: Layout)
    requires SourceCircuit(c) && OnlyConvertedReadouts(m, c) && AllTrue(layout)
    ensures AlignedCircuit(m, c, layout) && AllTrue(FinalLayout(m, c, layout))
  {
    if c != [] {
      assert c[0] in c;
      OnlyConvertedIsAligned(m, c[1..], layout + LayoutOf(m, c[0]));
    }
  }

  function Start<Q>(q: Q): State<Q> {
    State(q, {}, 0, [], [], map[])
  }

  /** Both runs stop or neither; if they end, all agrees but for a clear flag in front of every record. */
  predicate RunsAgree<Q(==)>(r: Option<State<Q>>, r': Option<State<Q>>) {
    && r.Some? == r'.Some?
    && (r.Some? ==>
        && r'.value.q == r.value.q && r'.value.lost == {}
        && r'.value.detectors == r.value.detectors && r'.value.observables == r.value.observables
        && |r'.value.records| == 2 * |r.value.records|
        && forall i :: 0 <= i < |r.value.records| ==>
             !r'.value.records[2 * i] && r'.value.records[2 * i + 1] == r.value.records[i])
  }

  /**
   For circuits whose only measurements are `M` and `MR`: whatever the references, record `2i` of the annotated
   run is a clear flag, record `2i + 1` is record `i`, and everything else agrees.
  */
  lemma {:induction false} AnnotatedRunAgrees<Q>(m: Machine<Q>, heralds: Heralds, c: seq<Instruction>,
                                                 marks: seq<bool>, q: Q)
    requires Lossless(heralds) && SourceCircuit(c) && |marks| == |c| && OnlyConvertedReadouts(m, c)
    ensures RunsAgree(Run(m, heralds, c, Start(q)), Run(m, heralds, Compile(c, marks), Start(q)))
  {
    hide Run, SourceCircuit, OnlyConvertedReadouts, AlignedCircuit, Lossless, Spread, Converted, FinalLayout, Compile;
    var start := Start(q);
    OnlyConvertedIsAligned(m, c, []);
    assert Spread([], []) == [] by { RangeIsKept([], 1); }
    CompileSimulates(m, heralds, c, marks, start, start, []);
    var r, r' := Run(m, heralds, c, start), Run(m, heralds, Compile(c, marks), start);
    if r.Some? {
      var layout := FinalLayout(m, c, []);
      RangeIsKept(layout, 1);
      forall i | 0 <= i < |r.value.records|
        ensures !r'.value.records[2 * i] && r'.value.records[2 * i + 1] == r.value.records[i]
      {
        SpreadAt(r.value.records, layout, i);
        RangeIsKept(layout[..i + 1], 1);
      }
    }
  }

  // -------------------------------------- a readout that is not converted

  /** `M 0`, `MX 1`, `DETECTOR rec[-2]`: the second readout has a record but is not converted. */
  const MIXED: seq<Instruction> := [Readout(false, [0]), Other("MX 1"), Detector("", [2])]

  /** Every readout of `M` gives 1, and `MX 1` has one record, which is 0. */
  function OneMachine(): Machine<bool> {
    Machine((text, q, lost) => q, text => 1, (text, i, q, lost) => false, (qubits, q, lost) => q,
            (qubits, q, lost) => q, (t, reset, q, lost) => q, (t, q, lost) => true)
  }

  lemma {:induction false} MixedRuns(heralds: Heralds)
    requires Lossless(heralds)
    ensures var m, start := OneMachine(), State(false, {}, 0, [], [], map[]);
      && Run(m, heralds, MIXED, start) == Some(State(false, {}, 0, [true, false], [true], map[]))
  {
    var m := OneMachine();
    var s0: State<bool> := State(false, {}, 0, [], [], map[]);
    var s1 := s0.(records := [true]);
    var s2 := s0.(records := [true, false]);
    assert [0][1..] == [] && [] + [] + [true] == [true];
    assert Read(m, false, false, [0], s0) == Read(m, false, false, [], s1) == s1;
    assert Step(m, heralds, MIXED[0], s0) == Some(s1);
    assert Bits(m, "MX 1", s1) == [false] && [true] + [false] == [true, false];
    assert Step(m, heralds, MIXED[1], s1) == Some(s2);
    ParityOfOne(s2.records, 2);
    assert [] + [true] == [true];
    assert Step(m, heralds, MIXED[2], s2) == Some(s2.(detectors := [true]));
    assert MIXED[1..] == [MIXED[1], MIXED[2]] && MIXED[1..][1..] == [MIXED[2]] && [MIXED[2]][1..] == [];
    assert Run(m, heralds, [MIXED[2]], s2) == Some(s2.(detectors := [true]));
    assert Run(m, heralds, [MIXED[1], MIXED[2]], s1) == Run(m, heralds, [MIXED[2]], s2);
  }

  lemma {:induction false} MixedCompiles(marks: seq<bool>)
    requires |marks| == 3
    ensures SourceCircuit(MIXED) && Compile(MIXED, marks)
      == [LossSite(MEASUREMENT_RATE, [0]), LossReadout(false, [0]), Other("MX 1"), Detector("", [3])]
  {
    assert MIXED[1..] == [MIXED[1], MIXED[2]] && MIXED[1..][1..] == [MIXED[2]] && [MIXED[2]][1..] == [];
    assert Shifted([2]) == [3];
    assert Compile([], marks[3..]) == [];
    assert Compile([MIXED[2]], marks[2..]) == [Detector("", [3])];
    assert marks[1..][1..] == marks[2..] && marks[2..][1..] == marks[3..];
    assert Compile([MIXED[1], MIXED[2]], marks[1..]) == [MIXED[1]] + Compile([MIXED[2]], marks[2..]);
  }

  lemma {:induction false} MixedReadout(heralds: Heralds, s: State<bool>)
    requires s.records == [] && s.lost == {}
    ensures Step(OneMachine(), heralds, LossReadout(false, [0]), s) == Some(s.(records := [false, true]))
  {
    assert [0][1..] == [] && [] + [false] + [true] == [false, true];
    assert Read(OneMachine(), true, false, [], s.(records := [false, true])) == s.(records := [false, true]);
  }

  lemma {:induction false} MixedOther(heralds: Heralds, s: State<bool>)
    ensures Step(OneMachine(), heralds, Other("MX 1"), s) == Some(s.(records := s.records + [false]))
  {
    assert Bits(OneMachine(), "MX 1", s) == [false];
  }

  lemma {:induction false} MixedDetector(heralds: Heralds, s: State<bool>, k: nat)
    requires 1 <= k <= |s.records| && s.detectors == []
    ensures Step(OneMachine(), heralds, Detector("", [k]), s)
      == Some(s.(detectors := [s.records[|s.records| - k]]))
  {
    ParityOfOne(s.records, k);
    var p := s.records[|s.records| - k];
    assert s.detectors + [p] == [p];
  }

  lemma {:induction false} MixedHead(heralds: Heralds, s: State<bool>)
    requires Lossless(heralds) && s.lost == {} && s.records == [] && s.sites == 0
    ensures Run(OneMachine(), heralds, [LossSite(MEASUREMENT_RATE, [0]), LossReadout(false, [0])], s)
      == Some(s.(sites := 1, records := [false, true]))
  {
    hide Step, Run, OneMachine, Lossless;
    LosslessSite(OneMachine(), heralds, LossSite(MEASUREMENT_RATE, [0]), s);
    MixedReadout(heralds, s.(sites := 1));
    RunTwo(OneMachine(), heralds, LossSite(MEASUREMENT_RATE, [0]), LossReadout(false, [0]), s);
  }

  lemma {:induction false} MixedTail(heralds: Heralds, s: State<bool>)
    requires s.records == [false, true] && s.detectors == []
    ensures Run(OneMachine(), heralds, [Other("MX 1"), Detector("", [3])], s)
      == Some(s.(records := [false, true, false], detectors := [false]))
  {
    hide Step, Run, OneMachine;
    var t := s.(records := [false, true, false]);
    assert s.records + [false] == t.records;
    MixedOther(heralds, s);
    MixedDetector(heralds, t, 3);
    RunTwo(OneMachine(), heralds, Other("MX 1"), Detector("", [3]), s);
  }

  lemma {:induction false} MixedAnnotatedRuns(heralds: Heralds)
    requires Lossless(heralds)
    ensures var m, start := OneMachine(), State(false, {}, 0, [], [], map[]);
      Run(m, heralds, [LossSite(MEASUREMENT_RATE, [0]), LossReadout(false, [0]), Other("MX 1"), Detector("", [3])],
          start)
      == Some(State(false, {}, 1, [false, true, false], [false], map[]))
  {
    hide Step, Run, OneMachine, Lossless;
    var start: State<bool> := State(false, {}, 0, [], [], map[]);
    var a, b := [LossSite(MEASUREMENT_RATE, [0]), LossReadout(false, [0])], [Other("MX 1"), Detector("", [3])];
    MixedHead(heralds, start);
    MixedTail(heralds, start.(sites := 1, records := [false, true]));
    RunAppend(OneMachine(), heralds, a, b, start);
    assert [LossSite(MEASUREMENT_RATE, [0]), LossReadout(false, [0]), Other("MX 1"), Detector("", [3])] == a + b;
  }

  /** A readout that is not converted shifts the references behind it: the detector of the annotation reads a flag. */
  lemma {:induction false} MixedReadoutsDiffer(heralds: Heralds, marks: seq<bool>)
    requires Lossless(heralds) && |marks| == 3
    ensures SourceCircuit(MIXED)
    ensures var m, start := OneMachine(), State(false, {}, 0, [], [], map[]);
      var r, r' := Run(m, heralds, MIXED, start), Run(m, heralds, Compile(MIXED, marks), start);
      r.Some? && r'.Some? && r.value.detectors == [true] && r'.value.detectors == [false]
  {
    hide Run, Compile;
    MixedRuns(heralds);
    MixedCompiles(marks);
    MixedAnnotatedRuns(heralds);
  }
}
