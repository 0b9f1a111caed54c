/**
 The annotated circuit when atoms do get lost: where its loss sites stand and at which rates, which atoms are lost at
 any point of a run, and what the flags in front of the readouts tell of them. Nothing is asked of the losses.
*/
module LossVisibleLosses {
  import opened Prelude
  import opened LossVisibleCircuit

  // ------------------------------------------------------------- the sites

  /** A loss site at 0.01 stands right behind a gate on the same atoms, one at 0.02 right before a flagged readout. */
  predicate SiteIsRight(code: seq<Instruction>, p: nat)
    requires p < |code| && code[p].LossSite?
  {
    || (code[p].rate == "0.01" && p > 0 && code[p - 1] == Entangle(code[p].qubits))
    || (code[p].rate == "0.02" && p < |code| - 1 && code[p + 1].LossReadout? && code[p + 1].qubits == code[p].qubits)
  }

  predicate IsRight(code: seq<Instruction>, p: nat)
    requires p < |code|
  {
    match code[p]
    case LossSite(_, _) => SiteIsRight(code, p)
    case Entangle(qubits) => p < |code| - 1 && code[p + 1] == LossSite("0.01", qubits)
    case LossReadout(_, qubits) => p > 0 && code[p - 1] == LossSite("0.02", qubits)
    case Readout(_, _) => false
    case _ => true
  }

  lemma {:induction false} PartsAreRight(a: seq<Instruction>, b: seq<Instruction>)
    requires forall p :: 0 <= p < |a| ==> IsRight(a, p)
    requires forall p :: 0 <= p < |b| ==> IsRight(b, p)
    ensures forall p :: 0 <= p < |a + b| ==> IsRight(a + b, p)
  {
    forall p | 0 <= p < |a + b| ensures IsRight(a + b, p) {
      if p < |a| {
        assert IsRight(a, p);
      } else {
        assert IsRight(b, p - |a|);
      }
    }
  }

  /** Every gate is followed by a site for the same atoms, every readout preceded by one; no site stands elsewhere. */
  lemma {:induction false} SitesAreRight(c: seq<Instruction>, marks: seq<bool>)
    requires SourceCircuit(c) && |marks| == |c|
    ensures forall p :: 0 <= p < |Compile(c, marks)| ==> IsRight(Compile(c, marks), p)
  {
    hide IsRight;
    if c != [] {
      assert c[0] in c;
      InstructionIsRight(c[0], marks[0]);
      SitesAreRight(c[1..], marks[1..]);
      PartsAreRight(CompileInstruction(c[0], marks[0]), Compile(c[1..], marks[1..]));
    }
  }

  lemma {:induction false} InstructionIsRight(i: Instruction, mark: bool)
    requires IsSource(i)
    ensures forall p :: 0 <= p < |CompileInstruction(i, mark)| ==> IsRight(CompileInstruction(i, mark), p)
  {
  }

  // ------------------------------------------------------- one instruction

  /** Gates and readouts can lose the atoms they act on. */
  predicate Loses(i: Instruction) {
    i.Entangle? || i.Readout?
  }

  /** Resets, and readouts that reset, put an atom back. */
  predicate Restores(i: Instruction, t: nat) {
    (i.Reset? || (i.Readout? && i.reset)) && t in i.qubits
  }

  predicate Hits(i: Instruction, heralds: Heralds, site: nat, t: nat) {
    Loses(i) && t in i.qubits && heralds(site, t)
  }

  lemma {:induction false} OneTells<Q>(m: Machine<Q>, reset: bool, t: nat, s: State<Q>)
    ensures var v := ReadOne(m, true, reset, t, s);
      && v.lost == (if reset then s.lost - {t} else s.lost) && v.sites == s.sites
      && |v.records| == |s.records| + 2 && v.records[..|s.records|] == s.records
      && (v.records[|s.records|] <==> t in s.lost)
  {
  }

  /** What reading atoms does to the lost ones, and the records it leaves: a flag and a value for each atom. */
  lemma {:induction false} ReadTells<Q>(m: Machine<Q>, reset: bool, qubits: seq<nat>, s: State<Q>)
    ensures var u := Read(m, true, reset, qubits, s);
      && u.lost == (if reset then s.lost - (set t | t in qubits) else s.lost) && u.sites == s.sites
      && |u.records| == |s.records| + 2 * |qubits| && u.records[..|s.records|] == s.records
      && forall j :: 0 <= j < |qubits| ==>
           (u.records[|s.records| + 2 * j] <==> qubits[j] in s.lost && !(reset && qubits[j] in qubits[..j]))
    decreases |qubits|
  {
    if qubits != [] {
      hide ReadOne;
      var v := ReadOne(m, true, reset, qubits[0], s);
      OneTells(m, reset, qubits[0], s);
      ReadTells(m, reset, qubits[1..], v);
      var u := Read(m, true, reset, qubits, s);
      var n := |s.records|;
      assert u.records[..n] == u.records[..n + 2][..n];
      assert forall t :: t in qubits <==> t == qubits[0] || t in qubits[1..];
      forall j | 0 <= j < |qubits|
        ensures u.records[n + 2 * j] <==> qubits[j] in s.lost && !(reset && qubits[j] in qubits[..j])
      {
        if j == 0 {
          assert u.records[n] == u.records[..n + 2][n];
        } else {
          assert qubits[j] == qubits[1..][j - 1] && n + 2 * j == n + 2 + 2 * (j - 1);
          assert qubits[..j] == [qubits[0]] + qubits[1..][..j - 1];
        }
      }
    }
  }

  /** A flag is set exactly when its atom was lost before or at the readout's own site, and not put back by it since. */
  predicate FlagsTell(reset: bool, qubits: seq<nat>, heralds: Heralds, lost: set<nat>, site: nat, older: seq<bool>,
                      records: seq<bool>) {
    && |records| == |older| + 2 * |qubits| && records[..|older|] == older
    && forall j :: 0 <= j < |qubits| ==>
         (records[|older| + 2 * j] <==>
           (qubits[j] in lost || heralds(site, qubits[j])) && !(reset && qubits[j] in qubits[..j]))
  }

  /** The state behind a loss site. */
  function AtSite<Q>(heralds: Heralds, qubits: seq<nat>, s: State<Q>): State<Q> {
    s.(lost := s.lost + (set t | t in qubits && heralds(s.sites, t)), sites := s.sites + 1)
  }

  lemma {:induction false} ReadoutRuns<Q>(m: Machine<Q>, heralds: Heralds, reset: bool, qubits: seq<nat>, mark: bool,
                                          s: State<Q>)
    ensures Run(m, heralds, CompileInstruction(Readout(reset, qubits), mark), s)
      == Some(Read(m, true, reset, qubits, AtSite(heralds, qubits, s)))
  {
    hide Read, Run;
    RunTwo(m, heralds, LossSite(MEASUREMENT_RATE, qubits), LossReadout(reset, qubits), s);
  }

  lemma {:induction false} ReadoutTells<Q>(m: Machine<Q>, heralds: Heralds, reset: bool, qubits: seq<nat>, mark: bool,
                                           s: State<Q>)
    ensures var r := Run(m, heralds, CompileInstruction(Readout(reset, qubits), mark), s);
      && r.Some? && r.value.sites == s.sites + 1
      && (forall t :: t in r.value.lost <==>
           (t in s.lost || (t in qubits && heralds(s.sites, t))) && !(reset && t in qubits))
      && FlagsTell(reset, qubits, heralds, s.lost, s.sites, s.records, r.value.records)
  {
    hide Run, CompileInstruction, Read;
    ReadoutRuns(m, heralds, reset, qubits, mark, s);
    ReadTells(m, reset, qubits, AtSite(heralds, qubits, s));
  }

  /**
   One instruction of the annotated circuit: the atoms lost afterwards are those it hits and those lost before, except
   those it puts back. The atoms a gate loses are lost only behind it: the gate itself still acts on them.
  */
  lemma {:induction false} StepLoses<Q>(m: Machine<Q>, heralds: Heralds, i: Instruction, mark: bool, s: State<Q>)
    requires IsSource(i) && Run(m, heralds, CompileInstruction(i, mark), s).Some?
    ensures var u := Run(m, heralds, CompileInstruction(i, mark), s).value;
      && u.sites == s.sites + (if Loses(i) then 1 else 0)
      && (forall t :: t in u.lost <==> (t in s.lost || Hits(i, heralds, s.sites, t)) && !Restores(i, t))
      && (i.Entangle? ==> u.q == m.entangle(i.qubits, s.q, s.lost))
  {
    hide Read, Parity, Run;
    var code := CompileInstruction(i, mark);
    RunOne(m, heralds, code[0], s);
    RunTwo(m, heralds, code[0], if |code| == 2 then code[1] else i, s);
    if i.Readout? {
      ReadoutTells(m, heralds, i.reset, i.qubits, mark, s);
    }
  }

  // ------------------------------------------------------------ whole runs

  /** The number of loss sites in front of instruction `p`. */
  function SitesBefore(c: seq<Instruction>, p: nat): nat
    requires p <= |c|
  {
    if p == 0 then 0 else SitesBefore(c, p - 1) + if Loses(c[p - 1]) then 1 else 0
  }

  predicate KeptFrom(c: seq<Instruction>, p: nat, t: nat) {
    forall k :: p <= k < |c| ==> !Restores(c[k], t)
  }

  /** Instruction `p` loses the atom and nothing puts it back. */
  predicate LostAt(c: seq<Instruction>, heralds: Heralds, first: nat, p: nat, t: nat)
    requires p < |c|
  {
    Hits(c[p], heralds, first + SitesBefore(c, p), t) && KeptFrom(c, p, t)
  }

  predicate IsLost(c: seq<Instruction>, heralds: Heralds, first: nat, lost: set<nat>, t: nat) {
    (t in lost && KeptFrom(c, 0, t)) || exists p :: 0 <= p < |c| && LostAt(c, heralds, first, p, t)
  }

  lemma {:induction false} CompileSnoc(c: seq<Instruction>, i: Instruction, marks: seq<bool>, mark: bool)
    requires SourceCircuit(c + [i]) && |marks| == |c|
    ensures SourceCircuit(c) && IsSource(i)
    ensures Compile(c + [i], marks + [mark]) == Compile(c, marks) + CompileInstruction(i, mark)
  {
    assert i in c + [i] && forall x :: x in c ==> x in c + [i];
    if c == [] {
      assert (c + [i])[1..] == [] && (marks + [mark])[1..] == [];
      assert Compile([], []) == [];
    } else {
      assert (c + [i])[1..] == c[1..] + [i] && (marks + [mark])[1..] == marks[1..] + [mark];
      CompileSnoc(c[1..], i, marks[1..], mark);
    }
  }

  lemma {:induction false} SitesOfFront(c: seq<Instruction>, i: Instruction, p: nat)
    requires p <= |c|
    ensures SitesBefore(c + [i], p) == SitesBefore(c, p)
  {
    if p > 0 {
      SitesOfFront(c, i, p - 1);
    }
  }

  lemma {:induction false} LostLater(c: seq<Instruction>, i: Instruction, heralds: Heralds, first: nat,
                                     lost: set<nat>, t: nat)
    ensures IsLost(c + [i], heralds, first, lost, t) <==>
      (IsLost(c, heralds, first, lost, t) || Hits(i, heralds, first + SitesBefore(c, |c|), t)) && !Restores(i, t)
  {
    hide Hits, Restores;
    var all := c + [i];
    assert all[|c|] == i;
    forall p | 0 <= p <= |c| ensures KeptFrom(all, p, t) <==> KeptFrom(c, p, t) && !Restores(i, t) {
      assert forall k :: p <= k < |c| ==> all[k] == c[k];
    }
    forall p | 0 <= p < |c|
      ensures LostAt(all, heralds, first, p, t) <==> LostAt(c, heralds, first, p, t) && !Restores(i, t)
    {
      SitesOfFront(c, i, p);
    }
    SitesOfFront(c, i, |c|);
    assert LostAt(all, heralds, first, |c|, t) <==>
      Hits(i, heralds, first + SitesBefore(c, |c|), t) && !Restores(i, t);
  }

  /**
   Whatever is lost when: if the run of the annotated circuit ends, every gate and readout has used one site, in order,
   and an atom is lost exactly when some gate or readout of the circuit on it has lost it and nothing since has put it
   back.
  */
  lemma {:induction false} RunLoses<Q>(m: Machine<Q>, heralds: Heralds, c: seq<Instruction>, marks: seq<bool>,
                                       s: State<Q>)
    requires SourceCircuit(c) && |marks| == |c| && Run(m, heralds, Compile(c, marks), s).Some?
    ensures var u := Run(m, heralds, Compile(c, marks), s).value;
      && u.sites == s.sites + SitesBefore(c, |c|)
      && forall t :: t in u.lost <==> IsLost(c, heralds, s.sites, s.lost, t)
  {
    hide Step, Run, Compile, CompileInstruction, SourceCircuit, IsSource, IsLost, Hits, Restores;
    if c == [] {
      NothingRuns(m, heralds, marks, s);
    } else {
      var n := |c| - 1;
      var front, last := c[..n], c[n];
      assert c == front + [last] && marks == marks[..n] + [marks[n]];
      CompileSnoc(front, last, marks[..n], marks[n]);
      RunAppend(m, heralds, Compile(front, marks[..n]), CompileInstruction(last, marks[n]), s);
      RunLoses(m, heralds, front, marks[..n], s);
      var v := Run(m, heralds, Compile(front, marks[..n]), s).value;
      StepLoses(m, heralds, last, marks[n], v);
      SitesOfFront(front, last, n);
      forall t
        ensures t in Run(m, heralds, Compile(c, marks), s).value.lost <==> IsLost(c, heralds, s.sites, s.lost, t)
      {
        LostLater(front, last, heralds, s.sites, s.lost, t);
      }
    }
  }

  lemma {:induction false} NothingRuns<Q>(m: Machine<Q>, heralds: Heralds, marks: seq<bool>, s: State<Q>)
    requires |marks| == 0 && SourceCircuit([])
    ensures Run(m, heralds, Compile([], marks), s) == Some(s)
    ensures forall t :: t in s.lost <==> IsLost([], heralds, s.sites, s.lost, t)
  {
  }

  /**
   The flags: where an `M` or `MR` stands behind a circuit, the flag of each atom it reads is set exactly when that atom
   is lost by the circuit or at the readout's own site, and was not put back by the same `MR` before.
  */
  lemma {:induction false} FlagsTellLosses<Q>(m: Machine<Q>, heralds: Heralds, c: seq<Instruction>, marks: seq<bool>,
                                              mark: bool, reset: bool, qubits: seq<nat>, s: State<Q>)
    requires SourceCircuit(c) && |marks| == |c| && Run(m, heralds, Compile(c, marks), s).Some?
    ensures SourceCircuit(c + [Readout(reset, qubits)])
    ensures var older := Run(m, heralds, Compile(c, marks), s).value.records;
      var r := Run(m, heralds, Compile(c + [Readout(reset, qubits)], marks + [mark]), s);
      && r.Some? && |r.value.records| == |older| + 2 * |qubits| && r.value.records[..|older|] == older
      && forall j :: 0 <= j < |qubits| ==>
           (r.value.records[|older| + 2 * j] <==>
             && (|| IsLost(c, heralds, s.sites, s.lost, qubits[j])
                 || heralds(s.sites + SitesBefore(c, |c|), qubits[j]))
             && !(reset && qubits[j] in qubits[..j]))
  {
    hide Run, IsLost, Compile, CompileInstruction;
    var i := Readout(reset, qubits);
    CompileSnoc(c, i, marks, mark);
    RunAppend(m, heralds, Compile(c, marks), CompileInstruction(i, mark), s);
    RunLoses(m, heralds, c, marks, s);
    ReadoutTells(m, heralds, reset, qubits, mark, Run(m, heralds, Compile(c, marks), s).value);
  }
}
