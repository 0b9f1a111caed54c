/** What the reports of a run say of every control and decoder, and which controls a gap names. */
module SupportLaws {
  import opened Prelude
  import opened SupportMatrix
  import opened SupportGate
  import opened Evidence

  // ------------------------------------------------------------- the gaps

  /** The decoder has no record for the control. */
  predicate Unrecorded(decoder: string, id: string, results: seq<Record>) {
    forall i :: 0 <= i < |results| ==> !(results[i].decoder == decoder && results[i].control == id)
  }

  /** The first record of the control with the decoder says that it did not pass. */
  predicate FirstFails(decoder: string, id: string, results: seq<Record>) {
    exists i :: 0 <= i < |results| && IsFirst(decoder, id, results, i) && results[i].status != "pass"
  }

  /** The controls that a gap of one kind names; none where there is no such gap. */
  function MissingIn(gaps: seq<Gap>): set<string> {
    set id, i | 0 <= i < |gaps| && gaps[i].Incomplete? && id in gaps[i].missing :: id
  }

  function FailingIn(gaps: seq<Gap>): set<string> {
    set id, i | 0 <= i < |gaps| && gaps[i].Failing? && id in gaps[i].failing :: id
  }

  predicate GapNames(g: Gap, decoder: string, source: string) {
    && ((g.Incomplete? && g.missing != {} && g.decoder == decoder && g.source == source)
        || (g.Failing? && g.failing != {} && g.decoder == decoder && g.source == source))
  }

  lemma {:induction false} RecordedIff(decoder: string, id: string, results: seq<Record>)
    ensures Unrecorded(decoder, id, results) <==> id !in Observed(decoder, results)
    ensures FirstFails(decoder, id, results) <==>
      id in Observed(decoder, results) && Observed(decoder, results)[id] != "pass"
  {
    hide IsFirst, Observed;
    ObservedIsFirst(decoder, results, id);
    forall n | 0 <= n < |results| && results[n].decoder == decoder && results[n].control == id
      ensures id in Observed(decoder, results)
    {
      FirstExists(decoder, id, results, n);
    }
    forall i | 0 <= i < |results| && IsFirst(decoder, id, results, i)
      ensures results[i].decoder == decoder && results[i].control == id
    {
      FirstIsRecord(decoder, id, results, i);
    }
  }

  lemma {:induction false} FirstIsRecord(decoder: string, id: string, results: seq<Record>, i: nat)
    requires i < |results| && IsFirst(decoder, id, results, i)
    ensures results[i].decoder == decoder && results[i].control == id
  {
  }

  /**
   The gaps name exactly the controls declared for the decoder that have no record, and those whose first record did
   not pass; there is at most one gap of each kind, for this decoder and this source.
  */
  lemma {:induction false} GapsSay(decoder: string, results: seq<Record>, controls: seq<Control>, source: string)
    requires Expand(controls).Ok?
    ensures SupportGapsOf(decoder, results, controls, source).Ok?
    ensures var gaps, expected := SupportGapsOf(decoder, results, controls, source).value,
          IdsFor(Expand(controls).value, decoder);
      && (forall id :: id in MissingIn(gaps) <==> id in expected && Unrecorded(decoder, id, results))
      && (forall id :: id in FailingIn(gaps) <==> id in expected && FirstFails(decoder, id, results))
      && (forall g :: g in gaps ==> GapNames(g, decoder, source))
      && |gaps| == (if MissingIn(gaps) != {} then 1 else 0) + (if FailingIn(gaps) != {} then 1 else 0)
  {
    hide Expand, IdsFor, Observed, Unrecorded, FirstFails;
    var expected, seen := IdsFor(Expand(controls).value, decoder), Observed(decoder, results);
    var gaps := GapsIn(decoder, expected, seen, source);
    GapsOf(decoder, expected, seen, source);
    forall id
      ensures id in Missing(expected, seen) <==> id in expected && Unrecorded(decoder, id, results)
      ensures id in NotPassing(expected, seen) <==> id in expected && FirstFails(decoder, id, results)
    {
      RecordedIff(decoder, id, results);
    }
  }

  lemma {:induction false} GapsOf(decoder: string, expected: set<string>, seen: map<string, string>, source: string)
    ensures var gaps := GapsIn(decoder, expected, seen, source);
      && MissingIn(gaps) == Missing(expected, seen) && FailingIn(gaps) == NotPassing(expected, seen)
      && (forall g :: g in gaps ==> GapNames(g, decoder, source))
      && |gaps| == (if MissingIn(gaps) != {} then 1 else 0) + (if FailingIn(gaps) != {} then 1 else 0)
  {
    hide Missing, NotPassing;
    var missing, failing := Missing(expected, seen), NotPassing(expected, seen);
    var gaps := GapsIn(decoder, expected, seen, source);
    forall id ensures id in MissingIn(gaps) <==> id in missing {
      if id in missing {
        assert gaps[0].Incomplete? && id in gaps[0].missing;
      }
    }
    forall id ensures id in FailingIn(gaps) <==> id in failing {
      if id in failing {
        assert gaps[|gaps| - 1].Failing? && id in gaps[|gaps| - 1].failing;
      }
    }
    assert MissingIn(gaps) == missing && FailingIn(gaps) == failing;
  }

  // ----------------------------------------------------------- the records

  /** The record of the `k`-th execution: its control and decoder, the issues it returned, passed if there are none. */
  predicate RecordIs(r: Record, job: Job, issues: Result<seq<string>, MatrixError>) {
    && issues == Ok(r.issues) && r.control == job.control.id && r.decoder == job.decoder
    && (if r.issues == [] then r.status == "pass" else r.status == "fail")
  }

  /** The problems of the records, one record after the other. */
  ghost predicate AreProblems(records: seq<Record>, problems: seq<string>) {
    exists ends: seq<nat> :: ArePieces(records, problems, ends)
  }

  /** `ends[k]` is where the problems of the first `k` records end. */
  predicate ArePieces(records: seq<Record>, problems: seq<string>, ends: seq<nat>) {
    && |ends| == |records| + 1 && ends[0] == 0 && ends[|records|] == |problems|
    && forall k :: 0 <= k < |records| ==> IsPiece(problems, ends[k], ends[k + 1], records[k].issues)
  }

  predicate IsPiece(all: seq<string>, from: nat, to: nat, piece: seq<string>) {
    from <= to <= |all| && all[from..to] == piece
  }

  lemma {:induction false} IssuesAre(records: seq<Record>)
    ensures AreProblems(records, Issues(records))
  {
    if records == [] {
      assert ArePieces(records, [], [0]);
    } else {
      var n := |records| - 1;
      IssuesAre(records[..n]);
      var front := Issues(records[..n]);
      var ends: seq<nat> :| ArePieces(records[..n], front, ends);
      var all := Issues(records);
      assert all == front + records[n].issues;
      var more := ends + [|all|];
      forall k | 0 <= k < |records| ensures IsPiece(all, more[k], more[k + 1], records[k].issues) {
        if k < n {
          assert IsPiece(front, ends[k], ends[k + 1], records[..n][k].issues);
          assert all[ends[k]..ends[k + 1]] == front[ends[k]..ends[k + 1]];
        }
      }
      assert ArePieces(records, all, more);
    }
  }

  /** The pairs of control and decoder in the order in which they run. */
  ghost predicate AreJobs(jobs: seq<Job>, controls: seq<Control>) {
    exists ends: seq<nat> :: AreJobPieces(jobs, controls, ends)
  }

  predicate AreJobPieces(jobs: seq<Job>, controls: seq<Control>, ends: seq<nat>) {
    && |ends| == |controls| + 1 && ends[0] == 0 && ends[|controls|] == |jobs|
    && forall k :: 0 <= k < |controls| ==> AreJobsOf(jobs, ends[k], ends[k + 1], controls[k])
  }

  /** The jobs from one place to another are those of the control, one per decoder. */
  predicate AreJobsOf(jobs: seq<Job>, from: nat, to: nat, c: Control) {
    to == from + |c.decoders| <= |jobs| && forall i :: 0 <= i < |c.decoders| ==> jobs[from + i] == Job(c, c.decoders[i])
  }

  /** One more control in front: its own jobs come first, and all others as many places later. */
  lemma {:induction false} PieceInFront(c: Control, jobs: seq<Job>, rest: seq<Control>, later: seq<nat>)
    requires AreJobPieces(jobs, rest, later)
    ensures AreJobs(ControlJobs(c, c.decoders) + jobs, [c] + rest)
  {
    var first := ControlJobs(c, c.decoders);
    var n, all := |first|, first + jobs;
    var ends: seq<nat> := [0] + seq(|later|, k requires 0 <= k < |later| => n + later[k]);
    forall k | 0 <= k < |[c] + rest| ensures AreJobsOf(all, ends[k], ends[k + 1], ([c] + rest)[k]) {
      if k > 0 {
        assert ([c] + rest)[k] == rest[k - 1];
        JobsOfLater(first, jobs, later[k - 1], later[k], rest[k - 1]);
      }
    }
    assert AreJobPieces(all, [c] + rest, ends);
  }

  lemma {:induction false} JobsOfLater(first: seq<Job>, jobs: seq<Job>, from: nat, to: nat, c: Control)
    requires AreJobsOf(jobs, from, to, c)
    ensures AreJobsOf(first + jobs, |first| + from, |first| + to, c)
  {
    forall i | 0 <= i < |c.decoders| ensures (first + jobs)[|first| + from + i] == Job(c, c.decoders[i]) {
      assert (first + jobs)[|first| + (from + i)] == jobs[from + i];
    }
  }

  lemma {:induction false} JobsInOrder(controls: seq<Control>)
    ensures AreJobs(Jobs(controls), controls)
    decreases |controls|
  {
    hide AreJobPieces;
    if controls == [] {
      NoJobs();
    } else {
      var rest := controls[1..];
      JobsInOrder(rest);
      var later: seq<nat> :| AreJobPieces(Jobs(rest), rest, later);
      PieceInFront(controls[0], Jobs(rest), rest, later);
      assert controls == [controls[0]] + rest;
    }
  }

  lemma {:induction false} NoJobs()
    ensures AreJobs([], [])
  {
    assert AreJobPieces([], [], [0]);
  }

  /**
   The report of a run: every control of the expanded matrix runs once with each of its decoders, in order, each
   execution has its record, and the problems are the issues of all records, one after the other.
  */
  lemma {:induction false} RunReports(m: Matrix, available: set<string>, run: Executor) returns (jobs: seq<Job>)
    requires RunOf(m, available, run).Ok?
    ensures Expand(m.controls).Ok? && AreJobs(jobs, Expand(m.controls).value)
    ensures var r := RunOf(m, available, run).value;
      && |r.results| == |jobs|
      && (forall k :: 0 <= k < |jobs| ==> RecordIs(r.results[k], jobs[k], run(k, jobs[k].control, jobs[k].decoder)))
      && AreProblems(r.results, r.problems) && (r.status == "pass" || r.status == "fail")
      && (r.status == "pass" <==> r.problems == [])
  {
    hide Expand, Execute, Jobs, Issues, AreJobs, AreProblems, AllAdvertised;
    jobs := Jobs(Expand(m.controls).value);
    var records := Execute(jobs, [], run).value;
    JobsInOrder(Expand(m.controls).value);
    ExecuteRecords(jobs, [], run);
    IssuesAre(records);
    assert "pass" != "fail";
    forall k | 0 <= k < |jobs| ensures RecordIs(records[k], jobs[k], run(k, jobs[k].control, jobs[k].decoder)) {
      assert records[0 + k] == Entry(jobs[k], run(0 + k, jobs[k].control, jobs[k].decoder).value);
    }
  }

  // -------------------------------------------------- the installed artifact

  /**
   The test of an installed artifact passes exactly when every record passed and nothing is wrong beforehand: an
   artifact expected to have the MLE decoder advertises it, any other refuses to run it.
  */
  lemma {:induction false} InstalledPassesIff(m: Matrix, advertised: set<string>, expectIlp: bool,
                                              contract: seq<string>, run: Executor)
    requires InstalledRun(m, advertised, expectIlp, contract, run).Ok?
    ensures var r := InstalledRun(m, advertised, expectIlp, contract, run).value;
      && (r.status == "pass" || r.status == "fail")
      && (r.status == "pass" <==>
           AllPass(r.results) && (if expectIlp then MLE in advertised else contract == []))
      && (r.status == "pass" <==> r.problems == [])
  {
    hide Expand, Execute, Jobs, Issues, AllAdvertised, Valid, Reduced, AllPass;
    var matrix := if expectIlp then m else Reduced(m, advertised);
    PassIffAllPass(Expand(matrix.controls).value, run);
    assert "pass" != "fail";
    var report := RunOf(matrix, advertised, run).value;
    assert report.status == "pass" <==> report.problems == [];
  }
}
