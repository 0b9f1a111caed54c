/** What the release gate asks of the records of a run, and why a passing run satisfies it. */
module SupportGate {
  import opened Prelude
  import opened Text
  import opened SupportMatrix
  import opened Evidence

  function IdsFor(controls: seq<Control>, decoder: string): set<string> {
    set c | c in controls && decoder in c.decoders :: c.id
  }

  /** Every control the matrix declares for the decoder, variants expanded. */
  function ExpectedControls(controls: seq<Control>, decoder: string): Result<set<string>, MatrixError> {
    match Expand(controls)
    case Err(e) => Err(e)
    case Ok(expanded) => Ok(IdsFor(expanded, decoder))
  }

  /** The status of every control a decoder has a record for; the first record of a control decides. */
  function Observed(decoder: string, results: seq<Record>): map<string, string> {
    if results == [] then map[]
    else
      var rest := Observed(decoder, results[1..]);
      if results[0].decoder == decoder then rest[results[0].control := results[0].status] else rest
  }

  function Missing(expected: set<string>, observed: map<string, string>): set<string> {
    set id | id in expected && id !in observed
  }

  function NotPassing(expected: set<string>, observed: map<string, string>): set<string> {
    set id | id in observed && id in expected && observed[id] != "pass"
  }

  function GapsIn(decoder: string, expected: set<string>, observed: map<string, string>, source: string): seq<Gap> {
    var missing, failing := Missing(expected, observed), NotPassing(expected, observed);
    (if missing != {} then [Incomplete(source, decoder, |observed|, |expected|, missing)] else [])
    + if failing != {} then [Failing(source, decoder, failing)] else []
  }

  function SupportGapsOf(decoder: string, results: seq<Record>, controls: seq<Control>, source: string)
      : Result<seq<Gap>, MatrixError> {
    match ExpectedControls(controls, decoder)
    case Err(e) => Err(e)
    case Ok(expected) => Ok(GapsIn(decoder, expected, Observed(decoder, results), source))
  }

  lemma {:induction false} ObservedPush(decoder: string, results: seq<Record>, r: Record)
    ensures var seen := Observed(decoder, results);
      Observed(decoder, results + [r]) ==
        if r.decoder == decoder && r.control !in seen then seen[r.control := r.status] else seen
  {
    if results == [] {
      assert results + [r] == [r] && [r][1..] == [];
    } else {
      assert (results + [r])[0] == results[0] && (results + [r])[1..] == results[1..] + [r];
      ObservedPush(decoder, results[1..], r);
    }
  }

  method SupportGaps(decoder: string, results: seq<Record>, controls: seq<Control>, source: string)
      returns (r: Result<seq<Gap>, MatrixError>)
    ensures r == SupportGapsOf(decoder, results, controls, source)
  {
    var e := ExpandControls(controls);
    if e.Err? {
      return Err(e.error);
    }
    var expected := IdsFor(e.value, decoder);
    var observed: map<string, string> := map[];
    for i := 0 to |results|
      invariant observed == Observed(decoder, results[..i])
    {
      ObservedPush(decoder, results[..i], results[i]);
      assert results[..i + 1] == results[..i] + [results[i]];
      if results[i].decoder == decoder && results[i].control !in observed {
        observed := observed[results[i].control := results[i].status];
      }
    }
    assert results[..|results|] == results;
    var gaps: seq<Gap> := [];
    if Missing(expected, observed) != {} {
      gaps := gaps + [Incomplete(source, decoder, |observed|, |expected|, Missing(expected, observed))];
    }
    if NotPassing(expected, observed) != {} {
      gaps := gaps + [Failing(source, decoder, NotPassing(expected, observed))];
    }
    assert gaps == GapsIn(decoder, expected, observed, source);
    r := Ok(gaps);
  }

  // ---------------------------------------------------- what no gap means

  /** The first record of the control with the decoder says that it passed. */
  predicate FirstPasses(decoder: string, id: string, results: seq<Record>) {
    exists i :: 0 <= i < |results| && IsFirst(decoder, id, results, i) && results[i].status == "pass"
  }

  predicate IsFirst(decoder: string, id: string, results: seq<Record>, i: nat)
    requires i < |results|
  {
    && results[i].decoder == decoder && results[i].control == id
    && forall j :: 0 <= j < i ==> !(results[j].decoder == decoder && results[j].control == id)
  }

  lemma {:induction false} ObservedIsFirst(decoder: string, results: seq<Record>, id: string)
    ensures var seen := Observed(decoder, results);
      id in seen <==> exists i :: 0 <= i < |results| && IsFirst(decoder, id, results, i)
    ensures var seen := Observed(decoder, results);
      forall i :: 0 <= i < |results| && IsFirst(decoder, id, results, i) ==> id in seen && seen[id] == results[i].status
  {
    if results != [] {
      var rest := results[1..];
      ObservedIsFirst(decoder, rest, id);
      if results[0].decoder == decoder && results[0].control == id {
        assert IsFirst(decoder, id, results, 0);
      } else {
        forall i | 0 <= i < |rest| ensures IsFirst(decoder, id, rest, i) <==> IsFirst(decoder, id, results, i + 1) {
          assert forall j :: 0 <= j < i ==> rest[j] == results[j + 1];
          assert forall j :: 1 <= j < i + 1 ==> results[j] == rest[j - 1];
        }
        assert forall i :: 1 <= i < |results| && IsFirst(decoder, id, results, i) ==> IsFirst(decoder, id, rest, i - 1);
      }
    }
  }

  /** No gap: the matrix expands, and every control declared for the decoder has a record whose first one passed. */
  lemma {:induction false} NoSupportGapIff(decoder: string, results: seq<Record>, controls: seq<Control>,
                                           source: string)
    ensures SupportGapsOf(decoder, results, controls, source) == Ok([]) <==>
      && Expand(controls).Ok?
      && forall id :: id in IdsFor(Expand(controls).value, decoder) ==> FirstPasses(decoder, id, results)
  {
    hide Expand, Observed, IdsFor, IsFirst;
    if Expand(controls).Ok? {
      var expected, seen := IdsFor(Expand(controls).value, decoder), Observed(decoder, results);
      forall id | id in expected
        ensures FirstPasses(decoder, id, results) <==> id in seen && seen[id] == "pass"
      {
        ObservedIsFirst(decoder, results, id);
      }
      var missing, failing := Missing(expected, seen), NotPassing(expected, seen);
      var gaps := GapsIn(decoder, expected, seen, source);
      assert gaps == [] <==> missing == {} && failing == {};
      assert SupportGapsOf(decoder, results, controls, source) == Ok(gaps);
      assert missing == {} && failing == {} <==> forall id :: id in expected ==> id in seen && seen[id] == "pass" by {
        assert forall id :: id in expected && id !in seen ==> id in missing;
        assert forall id :: id in expected && id in seen && seen[id] != "pass" ==> id in failing;
      }
    }
  }

  // ------------------------------------------------- reduction and expansion

  lemma {:induction false} ReduceConcat(a: seq<Control>, b: seq<Control>, available: set<string>)
    ensures Reduce(a + b, available) == Reduce(a, available) + Reduce(b, available)
    decreases |a|
  {
    hide KeepNames, Narrow;
    if a == [] {
      assert a + b == b;
    } else {
      assert (a + b)[0] == a[0] && (a + b)[1..] == a[1..] + b;
      ReduceConcat(a[1..], b, available);
    }
  }

  lemma {:induction false} NarrowInstance(c: Control, v: Variant, available: set<string>)
    requires c.dataset.Variants?
    ensures Instance(Narrow(c, available), v) == Narrow(Instance(c, v), available)
  {
  }

  lemma {:induction false} NarrowInstances(c: Control, variants: seq<Variant>, available: set<string>)
    requires c.dataset.Variants? && Instances(c, variants).Ok?
    ensures var kept := KeepNames(c.decoders, available);
      && (kept != [] ==>
        Instances(Narrow(c, available), variants) == Ok(Reduce(Instances(c, variants).value, available)))
      && (kept == [] ==> Reduce(Instances(c, variants).value, available) == [])
    decreases |variants|
  {
    hide KeepNames, Contains, Replace, VariantId;
    if variants != [] {
      NarrowInstances(c, variants[1..], available);
      var rest := Instances(c, variants[1..]).value;
      assert Instances(c, variants).value == [Instance(c, variants[0])] + rest;
      ReduceConcat([Instance(c, variants[0])], rest, available);
      ReduceOne(Instance(c, variants[0]), available);
      var n := Narrow(c, available);
      NarrowInstance(c, variants[0], available);
      if KeepNames(c.decoders, available) != [] {
        assert Instances(n, variants) == Prepend([Instance(n, variants[0])], Ok(Reduce(rest, available)));
      }
    }
  }

  lemma {:induction false} ReduceOne(c: Control, available: set<string>)
    ensures Reduce([c], available) == if KeepNames(c.decoders, available) != [] then [Narrow(c, available)] else []
  {
    hide KeepNames, Narrow;
    assert [c][1..] == [];
    assert Reduce([], available) == [];
  }

  lemma {:induction false} NarrowExpands(c: Control, available: set<string>)
    requires ExpandOne(c).Ok?
    ensures var kept := KeepNames(c.decoders, available);
      && (kept != [] ==> ExpandOne(Narrow(c, available)) == Ok(Reduce(ExpandOne(c).value, available)))
      && (kept == [] ==> Reduce(ExpandOne(c).value, available) == [])
  {
    hide KeepNames, Instances;
    if c.dataset.Variants? {
      NarrowInstances(c, c.dataset.variants, available);
    } else {
      ReduceOne(c, available);
    }
  }

  /** Reduction commutes with expansion. */
  lemma {:induction false} ReduceCommutes(controls: seq<Control>, available: set<string>)
    requires Expand(controls).Ok?
    ensures Expand(Reduce(controls, available)) == Ok(Reduce(Expand(controls).value, available))
    decreases |controls|
  {
    hide KeepNames, Narrow, ExpandOne;
    if controls != [] {
      var first, rest := ExpandOne(controls[0]).value, Expand(controls[1..]).value;
      ReduceCommutes(controls[1..], available);
      NarrowExpands(controls[0], available);
      ReduceConcat(first, rest, available);
      if KeepNames(controls[0].decoders, available) != [] {
        var n := Narrow(controls[0], available);
        assert Reduce(controls, available) == [n] + Reduce(controls[1..], available);
        assert ([n] + Reduce(controls[1..], available))[1..] == Reduce(controls[1..], available);
      } else {
        assert Reduce(controls, available) == Reduce(controls[1..], available);
        assert [] + Reduce(rest, available) == Reduce(rest, available);
      }
    }
  }

  /** Every decoder that is kept keeps all its controls. */
  lemma {:induction false} ReduceKeepsIds(controls: seq<Control>, available: set<string>, decoder: string)
    requires decoder in available
    ensures IdsFor(Reduce(controls, available), decoder) == IdsFor(controls, decoder)
    decreases |controls|
  {
    if controls != [] {
      ReduceKeepsIds(controls[1..], available, decoder);
      assert forall c :: c in controls <==> c == controls[0] || c in controls[1..];
      IdsConcat([controls[0]], controls[1..], decoder);
      assert controls == [controls[0]] + controls[1..];
      var n := Narrow(controls[0], available);
      if KeepNames(controls[0].decoders, available) != [] {
        IdsConcat([n], Reduce(controls[1..], available), decoder);
      } else {
        assert decoder !in controls[0].decoders;
        assert Reduce(controls, available) == Reduce(controls[1..], available);
      }
    }
  }

  lemma {:induction false} IdsConcat(a: seq<Control>, b: seq<Control>, decoder: string)
    ensures IdsFor(a + b, decoder) == IdsFor(a, decoder) + IdsFor(b, decoder)
  {
    assert forall c :: c in a + b <==> c in a || c in b;
  }

  /** A control set of the full matrix is the control set of the reduced one. */
  lemma {:induction false} ExpectedControlsSurviveReduction(controls: seq<Control>, available: set<string>,
                                                            decoder: string)
    requires Expand(controls).Ok? && decoder in available
    ensures ExpectedControls(Reduce(controls, available), decoder) == ExpectedControls(controls, decoder)
  {
    hide Expand, IdsFor, Reduce;
    ReduceCommutes(controls, available);
    ReduceKeepsIds(Expand(controls).value, available, decoder);
  }

  // ------------------------------------------------------------------ runs

  lemma {:induction false} ExecuteRecords(jobs: seq<Job>, done: seq<Record>, run: Executor)
    requires Execute(jobs, done, run).Ok?
    ensures var records := Execute(jobs, done, run).value;
      && |records| == |done| + |jobs| && records[..|done|] == done
      && forall i :: 0 <= i < |jobs| ==>
        run(|done| + i, jobs[i].control, jobs[i].decoder).Ok?
        && records[|done| + i] == Entry(jobs[i], run(|done| + i, jobs[i].control, jobs[i].decoder).value)
    decreases |jobs|
  {
    hide Entry;
    if jobs != [] {
      var issues := run(|done|, jobs[0].control, jobs[0].decoder).value;
      var next := done + [Entry(jobs[0], issues)];
      ExecuteRecords(jobs[1..], next, run);
      var records := Execute(jobs, done, run).value;
      assert records[..|done|] == records[..|next|][..|done|] == done;
      assert records[|done|] == records[..|next|][|done|];
      forall i | 0 <= i < |jobs|
        ensures run(|done| + i, jobs[i].control, jobs[i].decoder).Ok?
          && records[|done| + i] == Entry(jobs[i], run(|done| + i, jobs[i].control, jobs[i].decoder).value)
      {
        if i > 0 {
          assert jobs[1..][i - 1] == jobs[i] && |next| + (i - 1) == |done| + i;
        }
      }
    }
  }

  lemma {:induction false} NoIssuesIff(records: seq<Record>)
    ensures Issues(records) == [] <==> forall i :: 0 <= i < |records| ==> records[i].issues == []
  {
    if records != [] {
      NoIssuesIff(records[..|records| - 1]);
    }
  }

  predicate HasJob(jobs: seq<Job>, decoder: string, id: string) {
    exists i :: 0 <= i < |jobs| && jobs[i].decoder == decoder && jobs[i].control.id == id
  }

  lemma {:induction false} HasJobConcat(a: seq<Job>, b: seq<Job>, decoder: string, id: string)
    ensures HasJob(a + b, decoder, id) <==> HasJob(a, decoder, id) || HasJob(b, decoder, id)
  {
    if HasJob(b, decoder, id) {
      var i :| 0 <= i < |b| && b[i].decoder == decoder && b[i].control.id == id;
      assert (a + b)[|a| + i] == b[i];
    }
    if HasJob(a, decoder, id) {
      var i :| 0 <= i < |a| && a[i].decoder == decoder && a[i].control.id == id;
      assert (a + b)[i] == a[i];
    }
  }

  lemma {:induction false} HasControlJob(c: Control, decoder: string, id: string)
    ensures HasJob(ControlJobs(c, c.decoders), decoder, id) <==> decoder in c.decoders && c.id == id
  {
    if decoder in c.decoders && c.id == id {
      var i :| 0 <= i < |c.decoders| && c.decoders[i] == decoder;
      assert ControlJobs(c, c.decoders)[i] == Job(c, decoder);
    }
  }

  lemma {:induction false} JobsAre(controls: seq<Control>, decoder: string, id: string)
    ensures id in IdsFor(controls, decoder) <==> HasJob(Jobs(controls), decoder, id)
    decreases |controls|
  {
    if controls != [] {
      var c := controls[0];
      JobsAre(controls[1..], decoder, id);
      IdsConcat([c], controls[1..], decoder);
      assert controls == [c] + controls[1..];
      HasControlJob(c, decoder, id);
      hide HasJob;
      HasJobConcat(ControlJobs(c, c.decoders), Jobs(controls[1..]), decoder, id);
    }
  }

  predicate AllPass(records: seq<Record>) {
    forall i :: 0 <= i < |records| ==> records[i].status == "pass"
  }

  lemma {:induction false} PassIffAllPass(expanded: seq<Control>, run: Executor)
    requires Execute(Jobs(expanded), [], run).Ok?
    ensures var records := Execute(Jobs(expanded), [], run).value;
      ReportOf(records).status == "pass" <==> AllPass(records)
  {
    hide Execute, Jobs, Issues;
    var records := Execute(Jobs(expanded), [], run).value;
    ExecuteRecords(Jobs(expanded), [], run);
    NoIssuesIff(records);
    forall i | 0 <= i < |records| ensures records[i].status == "pass" <==> records[i].issues == [] {
      var job := Jobs(expanded)[i];
      assert records[0 + i] == Entry(job, run(0 + i, job.control, job.decoder).value);
    }
  }

  /** A record for every declared control of every decoder. */
  lemma {:induction false} EveryControlHasARecord(expanded: seq<Control>, run: Executor, decoder: string, id: string)
    requires Execute(Jobs(expanded), [], run).Ok? && id in IdsFor(expanded, decoder)
    ensures var records := Execute(Jobs(expanded), [], run).value;
      exists i :: 0 <= i < |records| && records[i].decoder == decoder && records[i].control == id
  {
    hide Execute, Jobs, IdsFor;
    var records := Execute(Jobs(expanded), [], run).value;
    ExecuteRecords(Jobs(expanded), [], run);
    JobsAre(expanded, decoder, id);
    var i :| 0 <= i < |Jobs(expanded)| && Jobs(expanded)[i].decoder == decoder && Jobs(expanded)[i].control.id == id;
    assert records[0 + i].decoder == decoder && records[0 + i].control == id;
  }

  lemma {:induction false} FirstExists(decoder: string, id: string, results: seq<Record>, n: nat)
    requires n < |results| && results[n].decoder == decoder && results[n].control == id
    ensures exists i :: 0 <= i < |results| && IsFirst(decoder, id, results, i)
    decreases n
  {
    if !IsFirst(decoder, id, results, n) {
      var j :| 0 <= j < n && results[j].decoder == decoder && results[j].control == id;
      FirstExists(decoder, id, results, j);
    }
  }

  lemma {:induction false} PassingRunCovers(expanded: seq<Control>, run: Executor, decoder: string, id: string)
    requires Execute(Jobs(expanded), [], run).Ok? && AllPass(Execute(Jobs(expanded), [], run).value)
    requires id in IdsFor(expanded, decoder)
    ensures FirstPasses(decoder, id, Execute(Jobs(expanded), [], run).value)
  {
    hide Execute, Jobs, IdsFor, IsFirst;
    var records := Execute(Jobs(expanded), [], run).value;
    EveryControlHasARecord(expanded, run, decoder, id);
    var n :| 0 <= n < |records| && records[n].decoder == decoder && records[n].control == id;
    FirstExists(decoder, id, records, n);
  }

  /** A passing run of a matrix leaves no gap for any decoder. */
  lemma {:induction false} RunSatisfiesGate(m: Matrix, available: set<string>, run: Executor, decoder: string,
                                            source: string)
    requires RunOf(m, available, run).Ok? && RunOf(m, available, run).value.status == "pass"
    ensures SupportGapsOf(decoder, RunOf(m, available, run).value.results, m.controls, source) == Ok([])
  {
    hide Expand, Execute, Jobs, IdsFor, FirstPasses, SupportGapsOf, AllPass, AllAdvertised;
    var expanded := Expand(m.controls).value;
    var records := Execute(Jobs(expanded), [], run).value;
    PassIffAllPass(expanded, run);
    forall id | id in IdsFor(expanded, decoder) ensures FirstPasses(decoder, id, records) {
      PassingRunCovers(expanded, run, decoder, id);
    }
    NoSupportGapIff(decoder, records, m.controls, source);
  }

  /**
   A passing run of the reduced matrix leaves no gap against the FULL matrix, for every available decoder, exactly
   when the full matrix expands: a control that the reduction dropped can still stop the gate by a broken variant.
  */
  lemma {:induction false} ReducedRunSatisfiesGateIff(m: Matrix, available: set<string>, advertised: set<string>,
                                                      run: Executor, decoder: string, source: string)
    requires decoder in available
    requires RunOf(Reduced(m, available), advertised, run).Ok?
    requires RunOf(Reduced(m, available), advertised, run).value.status == "pass"
    ensures
      (SupportGapsOf(decoder, RunOf(Reduced(m, available), advertised, run).value.results, m.controls,
                     source) == Ok([]))
      <==> forall c :: c in m.controls ==> Expandable(c)
  {
    hide Expand, RunOf, Reduce, GapsIn, Observed, Expandable, IdsFor;
    RunSatisfiesGate(Reduced(m, available), advertised, run, decoder, source);
    ExpandOkIff(m.controls);
    if Expand(m.controls).Ok? {
      ExpectedControlsSurviveReduction(m.controls, available, decoder);
    }
  }

  // ------------------------------------------------- installed artifacts

  const MLE_MISSING := "expected an ILP-capable archive but envelope-mle is missing"

  /**
   The test of an installed artifact: the whole matrix where the decoders of every feature are expected, the matrix
   reduced to what the artifact advertises otherwise. `contract` holds the problems of the invocation that has to fail.
  */
  function InstalledRun(m: Matrix, advertised: set<string>, expectIlp: bool, contract: seq<string>, run: Executor)
      : Result<Report, MatrixError> {
    var first := if !expectIlp then contract else if MLE !in advertised then [MLE_MISSING] else [];
    if !expectIlp && !Valid(Reduced(m, advertised)) then Err(NothingAvailable)
    else match RunOf(if expectIlp then m else Reduced(m, advertised), advertised, run)
      case Err(e) => Err(e)
      case Ok(report) =>
        var problems := first + report.problems;
        Ok(Report(report.results, if problems == [] && report.status == "pass" then "pass" else "fail", problems))
  }

  /** A passing installed report satisfies the gate for every advertised decoder, if the full matrix expands. */
  lemma {:induction false} InstalledReportSatisfiesGate(m: Matrix, advertised: set<string>, expectIlp: bool,
      contract: seq<string>, run: Executor, decoder: string, source: string)
    requires decoder in advertised
    requires var r := InstalledRun(m, advertised, expectIlp, contract, run); r.Ok? && r.value.status == "pass"
    ensures
      (SupportGapsOf(decoder, InstalledRun(m, advertised, expectIlp, contract, run).value.results, m.controls, source)
        == Ok([]))
      <==> forall c :: c in m.controls ==> Expandable(c)
  {
    hide Valid, Expand, RunOf, Reduce, SupportGapsOf, Expandable;
    if expectIlp {
      RunSatisfiesGate(m, advertised, run, decoder, source);
      RunExpands(m, advertised, run);
      ExpandOkIff(m.controls);
    } else {
      ReducedRunSatisfiesGateIff(m, advertised, advertised, run, decoder, source);
    }
  }

  lemma {:induction false} RunExpands(m: Matrix, available: set<string>, run: Executor)
    requires RunOf(m, available, run).Ok?
    ensures Expand(m.controls).Ok?
  {
  }

  // -------------------------------------------------------- the converse

  /** No two runs of the matrix are recorded under the same control and decoder. */
  predicate JobsDiffer(jobs: seq<Job>) {
    forall i, j :: 0 <= i < j < |jobs| ==>
      !(jobs[i].control.id == jobs[j].control.id && jobs[i].decoder == jobs[j].decoder)
  }

  /** With every run recorded under its own name, the gate finds no gap for any decoder exactly when the run passed. */
  lemma {:induction false} NoGapForAnyDecoderIffRunPassed(m: Matrix, available: set<string>, run: Executor,
                                                          source: string)
    requires RunOf(m, available, run).Ok? && JobsDiffer(Jobs(Expand(m.controls).value))
    ensures var report := RunOf(m, available, run).value;
      (forall decoder :: SupportGapsOf(decoder, report.results, m.controls, source) == Ok([])) <==>
        report.status == "pass"
  {
    hide Expand, Execute, Jobs, SupportGapsOf, AllPass, AllAdvertised;
    var report := RunOf(m, available, run).value;
    var expanded := Expand(m.controls).value;
    PassIffAllPass(expanded, run);
    if report.status == "pass" {
      forall decoder ensures SupportGapsOf(decoder, report.results, m.controls, source) == Ok([]) {
        RunSatisfiesGate(m, available, run, decoder, source);
      }
    } else if forall decoder :: SupportGapsOf(decoder, report.results, m.controls, source) == Ok([]) {
      NoGapMeansAllPass(m, expanded, run, source);
    }
  }

  lemma {:induction false} NoGapMeansAllPass(m: Matrix, expanded: seq<Control>, run: Executor, source: string)
    requires Expand(m.controls) == Ok(expanded) && Execute(Jobs(expanded), [], run).Ok? && JobsDiffer(Jobs(expanded))
    requires var results := Execute(Jobs(expanded), [], run).value;
             forall decoder :: SupportGapsOf(decoder, results, m.controls, source) == Ok([])
    ensures AllPass(Execute(Jobs(expanded), [], run).value)
  {
    hide Expand, Execute, Jobs, SupportGapsOf, IdsFor;
    var jobs, records := Jobs(expanded), Execute(Jobs(expanded), [], run).value;
    ExecuteRecords(jobs, [], run);
    forall i | 0 <= i < |records| ensures records[i].status == "pass" {
      var decoder, id := jobs[i].decoder, jobs[i].control.id;
      JobsAre(expanded, decoder, id);
      NoSupportGapIff(decoder, records, m.controls, source);
      var k :| 0 <= k < |records| && IsFirst(decoder, id, records, k) && records[k].status == "pass";
      assert records[0 + i].decoder == decoder && records[0 + i].control == id;
      assert records[0 + k] == records[k] && jobs[k].decoder == decoder && jobs[k].control.id == id;
      assert i == k;
    }
  }

  // -------------------------------------------------------------- validity

  predicate Touches(c: Control, available: set<string>) {
    exists name :: name in c.decoders && name in available
  }

  /** A control of the reduced matrix comes from a control that covers an available decoder, and the other way round. */
  lemma {:induction false} ReduceMembers(controls: seq<Control>, available: set<string>, d: Control)
    ensures d in Reduce(controls, available) <==>
      exists c :: c in controls && Touches(c, available) && d == Narrow(c, available)
    decreases |controls|
  {
    hide Narrow;
    if controls != [] {
      ReduceMembers(controls[1..], available, d);
      var c := controls[0];
      assert Touches(c, available) <==> KeepNames(c.decoders, available) != [] by { KeptIff(c.decoders, available); }
      assert forall x :: x in controls <==> x == c || x in controls[1..];
    }
  }

  lemma {:induction false} KeptIff(names: seq<string>, available: set<string>)
    ensures KeepNames(names, available) != [] <==> exists name :: name in names && name in available
  {
    var kept := KeepNames(names, available);
    if kept != [] {
      assert kept[0] in kept;
    }
  }

  lemma {:induction false} ReducedIdsDiffer(controls: seq<Control>, available: set<string>)
    requires IdsOk(controls)
    ensures IdsOk(Reduce(controls, available))
    decreases |controls|
  {
    if controls != [] {
      var c, tail := controls[0], Reduce(controls[1..], available);
      forall i | 0 <= i < |controls[1..]|
        ensures controls[1..][i].id != "" && controls[1..][i].id != c.id
          && forall j :: 0 <= j < i ==> controls[1..][j].id != controls[1..][i].id
      {
        assert controls[1..][i] == controls[i + 1];
        assert forall j :: 0 <= j < i ==> controls[1..][j] == controls[j + 1];
      }
      ReducedIdsDiffer(controls[1..], available);
      forall d | d in tail ensures d.id != c.id {
        ReduceMembers(controls[1..], available, d);
      }
      if KeepNames(c.decoders, available) != [] {
        var whole := [Narrow(c, available)] + tail;
        forall i | 0 <= i < |whole|
          ensures whole[i].id != "" && forall j :: 0 <= j < i ==> whole[j].id != whole[i].id
        {
          if i > 0 {
            assert whole[i] == tail[i - 1] && tail[i - 1] in tail;
            assert forall j :: 1 <= j < i ==> whole[j] == tail[j - 1];
          }
        }
      } else {
        assert Reduce(controls, available) == tail;
      }
    }
  }

  lemma {:induction false} ReducedKeepsRequired(m: Matrix, available: set<string>, decoder: string)
    requires RequiredOk(m, decoder)
    ensures RequiredOk(Reduced(m, available), decoder)
  {
    hide Required;
    var r := Reduced(m, available);
    if Declared(r, decoder) {
      assert Declared(m, decoder) && decoder in available;
      forall id | id in Required(decoder) ensures Kept(r, id, decoder) {
        var c :| c in m.controls && Covers(c, id, decoder);
        ReduceMembers(m.controls, available, Narrow(c, available));
        assert Touches(c, available);
        assert Covers(Narrow(c, available), id, decoder);
      }
    }
  }

  lemma {:induction false} ReducedControlsOk(m: Matrix, available: set<string>, d: Control)
    requires forall c :: c in m.controls ==> DecodersOk(m, c) && ExpectationOk(c.expected)
    requires d in Reduce(m.controls, available)
    ensures DecodersOk(Reduced(m, available), d) && ExpectationOk(d.expected)
  {
    hide ExpectationOk;
    ReduceMembers(m.controls, available, d);
    var c :| c in m.controls && Touches(c, available) && d == Narrow(c, available);
    KeptIff(c.decoders, available);
    forall name | name in d.decoders ensures Declared(Reduced(m, available), name) {
      assert Declared(m, name);
    }
  }

  /** The reduction of a valid matrix is valid exactly when some control covers an available decoder. */
  lemma {:induction false} ReducedIsValidIff(m: Matrix, available: set<string>)
    requires Valid(m)
    ensures Valid(Reduced(m, available)) <==> exists c :: c in m.controls && Touches(c, available)
  {
    hide Narrow, ExpectationOk, DecodersOk, Declared, Required, RequiredOk, IdsOk;
    var r := Reduced(m, available);
    ReducedIdsDiffer(m.controls, available);
    ReducedKeepsRequired(m, available, MATCHING);
    ReducedKeepsRequired(m, available, MLE);
    forall d | d in r.controls ensures DecodersOk(r, d) && ExpectationOk(d.expected) {
      ReducedControlsOk(m, available, d);
    }
    if r.controls != [] {
      var d := r.controls[0];
      assert d in r.controls;
      ReduceMembers(m.controls, available, d);
    }
    if c :| c in m.controls && Touches(c, available) {
      ReduceMembers(m.controls, available, Narrow(c, available));
      assert r.controls != [];
      TouchedIsDeclared(m, c, available);
    }
  }

  lemma {:induction false} TouchedIsDeclared(m: Matrix, c: Control, available: set<string>)
    requires DecodersOk(m, c) && Touches(c, available)
    ensures Reduced(m, available).decoders != []
  {
    var name :| name in c.decoders && name in available;
    assert Declared(m, name);
    var d :| d in m.decoders && d.name == name;
    assert d in Reduced(m, available).decoders;
  }

  // ------------------------------------------------------- empty variants

  /** A control whose dataset is a list of no variants stands for no run at all. */
  predicate Vanishes(c: Control) {
    c.dataset.Variants? && c.dataset.variants == []
  }

  lemma {:induction false} InstancesKeepDecoders(c: Control, variants: seq<Variant>)
    requires c.dataset.Variants? && Instances(c, variants).Ok?
    ensures |Instances(c, variants).value| == |variants|
    ensures forall d :: d in Instances(c, variants).value ==> d.decoders == c.decoders
    decreases |variants|
  {
    hide Contains, Replace, VariantId;
    if variants != [] {
      InstancesKeepDecoders(c, variants[1..]);
      var rest := Instances(c, variants[1..]).value;
      assert Instances(c, variants).value == [Instance(c, variants[0])] + rest;
    }
  }

  /** A control expands to nothing exactly when it vanishes; otherwise every instance keeps its decoders. */
  lemma {:induction false} ExpandsToNothingIff(c: Control, decoder: string)
    requires ExpandOne(c).Ok?
    ensures ExpandOne(c).value == [] <==> Vanishes(c)
    ensures IdsFor(ExpandOne(c).value, decoder) == {} <==> decoder !in c.decoders || Vanishes(c)
  {
    hide Instances;
    if c.dataset.Variants? {
      InstancesKeepDecoders(c, c.dataset.variants);
    }
    var all := ExpandOne(c).value;
    if decoder in c.decoders && all != [] {
      assert all[0] in all && decoder in all[0].decoders && all[0].id in IdsFor(all, decoder);
    }
  }

  /** Nothing is expected of a decoder exactly when every control that lists it vanishes. */
  lemma {:induction false} NothingExpectedIff(controls: seq<Control>, decoder: string)
    requires Expand(controls).Ok?
    ensures IdsFor(Expand(controls).value, decoder) == {} <==>
      forall c :: c in controls && decoder in c.decoders ==> Vanishes(c)
    decreases |controls|
  {
    hide IdsFor, Vanishes, ExpandOne;
    if controls == [] {
      NoIds(decoder);
    } else {
      var first, rest := ExpandOne(controls[0]).value, Expand(controls[1..]).value;
      NothingExpectedIff(controls[1..], decoder);
      ExpandsToNothingIff(controls[0], decoder);
      IdsConcat(first, rest, decoder);
      assert forall c :: c in controls <==> c == controls[0] || c in controls[1..];
    }
  }

  lemma {:induction false} NoIds(decoder: string)
    ensures IdsFor([], decoder) == {}
  {
  }

  predicate RanNothing(results: seq<Record>, decoder: string) {
    forall r :: r in results ==> r.decoder != decoder
  }

  /**
   Validation does not see this: a run of a matrix executes nothing with a decoder exactly when all the controls that
   list the decoder have lists of no variants.
  */
  lemma {:induction false} DecoderRunsNothingIff(m: Matrix, available: set<string>, run: Executor, decoder: string)
    requires RunOf(m, available, run).Ok?
    ensures RanNothing(RunOf(m, available, run).value.results, decoder) <==>
      forall c :: c in m.controls && decoder in c.decoders ==> Vanishes(c)
  {
    hide Expand, Execute, Jobs, IdsFor, AllAdvertised, Vanishes;
    var expanded := Expand(m.controls).value;
    var records := RunOf(m, available, run).value.results;
    NothingExpectedIff(m.controls, decoder);
    ExecuteRecords(Jobs(expanded), [], run);
    forall id ensures id in IdsFor(expanded, decoder) <==> HasJob(Jobs(expanded), decoder, id) {
      JobsAre(expanded, decoder, id);
    }
    forall i | 0 <= i < |records| ensures records[i].decoder == Jobs(expanded)[i].decoder {
      assert records[0 + i].decoder == Jobs(expanded)[i].decoder;
    }
    if !RanNothing(records, decoder) {
      var i :| 0 <= i < |records| && records[i].decoder == decoder;
      assert HasJob(Jobs(expanded), decoder, Jobs(expanded)[i].control.id);
    }
    if id :| id in IdsFor(expanded, decoder) {
      var i :| 0 <= i < |Jobs(expanded)| && Jobs(expanded)[i].decoder == decoder && Jobs(expanded)[i].control.id == id;
      assert records[i] in records && records[i].decoder == decoder;
    }
  }

  /** The run of a valid matrix is empty exactly when every control has a list of no variants. */
  lemma {:induction false} ValidMatrixRunsNothingIff(m: Matrix, available: set<string>, run: Executor)
    requires Valid(m) && RunOf(m, available, run).Ok?
    ensures RunOf(m, available, run).value.results == [] <==> forall c :: c in m.controls ==> Vanishes(c)
  {
    hide Valid, RunOf, Vanishes;
    var results := RunOf(m, available, run).value.results;
    forall c | c in m.controls ensures c.decoders != [] {
      ValidHasDecoders(m, c);
    }
    forall decoder ensures RanNothing(results, decoder) <==>
      forall c :: c in m.controls && decoder in c.decoders ==> Vanishes(c)
    {
      DecoderRunsNothingIff(m, available, run, decoder);
    }
    if results == [] {
      forall c | c in m.controls ensures Vanishes(c) {
        assert RanNothing(results, c.decoders[0]) && c.decoders[0] in c.decoders;
      }
    } else {
      assert results[0] in results && !RanNothing(results, results[0].decoder);
    }
  }

  lemma {:induction false} ValidHasDecoders(m: Matrix, c: Control)
    requires Valid(m) && c in m.controls
    ensures c.decoders != []
  {
    hide IdsOk, RequiredOk, ExpectationOk, Declared;
  }
}
