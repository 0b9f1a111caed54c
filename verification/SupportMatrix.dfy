/**
 The support matrix: the controls every decoder has to pass, their validation, the expansion of variants, the
 restriction to the decoders of one artifact, and the runs.
*/
module SupportMatrix {
  import opened Prelude
  import opened Text

  datatype Variant = Variant(id: string, find: string, put: string)

  datatype Dataset =
    | Variants(base: string, shots: string, variants: seq<Variant>)
    | Inline(circuit: string, shots: string)
    | Other(spec: string)

  /** The declared expectation: its outcome, and the fields that are present. */
  datatype Expected = Expected(outcome: string, fields: set<string>)

  datatype Control = Control(id: string, decoders: seq<string>, dataset: Dataset, expected: Expected)

  datatype PublishedSupport = PublishedSupport(maturity: string, release: string, releaseUrl: string,
                                               evidenceAsset: string, evidenceUrl: string, scope: string)

  /** A declared decoder: the names of the fields that are present, and the values later steps use. */
  datatype Decoder = Decoder(name: string, fields: set<string>, currentMaturity: string, proposed: string,
                             objective: string, features: seq<string>, limits: string, limitations: seq<string>,
                             published: Option<PublishedSupport>)

  datatype Family = Family(id: string, status: string, note: string)

  /** The support matrix; the names of its decoders are the keys of one object. */
  datatype Matrix = Matrix(schema: string, sourceRevision: string, decoders: seq<Decoder>, families: seq<Family>,
                           statement: string, controls: seq<Control>)

  datatype MatrixError =
    | UnsupportedSchema
    | NoDecoders
    | MissingField(decoder: string)
    | NoControls
    | BadId(id: string)
    | BadDecoders(id: string)
    | BadExpectation(id: string)
    | RequiredMissing(decoder: string)
    | BaseMismatch(id: string, variant: string)
    | NotAdvertised
    | NothingAvailable
    | DatasetFailed(reason: string)

  const MATRIX_SCHEMA := "rustqec.envelope-support.v1"

  const DECODER_FIELDS: set<string> := {"required_build_features", "current_maturity", "objective"}

  const REJECTION_FIELDS: set<string> := {"error_code", "exit_code", "predictions_written", "stats_written"}

  const MATCHING := "envelope-matching"

  const MLE := "envelope-mle"

  /** The controls a declared decoder must keep. */
  function Required(decoder: string): seq<string> {
    if decoder == MATCHING then
      ["mini-circuit-known-answer", "midswap-fixture-matching-acceptance", "conventional-fixture-matching-acceptance",
       "repeat-block-rejection", "terminal-ml-rejection", "observable-limit-rejection"]
    else if decoder == MLE then
      ["mini-circuit-known-answer", "midswap-canonical-mle-known-answer",
       "conventional-mle-candidate-explosion-rejection", "mle-solve-timeout", "mle-infeasible-shot"]
    else []
  }

  // ----------------------------------------------------------- validation

  predicate Declared(m: Matrix, name: string) {
    exists d :: d in m.decoders && d.name == name
  }

  predicate ExpectationOk(e: Expected) {
    if e.outcome == "success" then "predictions_hex" in e.fields || "predictions_sha256" in e.fields
    else e.outcome == "rejection" && REJECTION_FIELDS <= e.fields
  }

  predicate Covers(c: Control, id: string, decoder: string) {
    c.id == id && decoder in c.decoders
  }

  predicate Kept(m: Matrix, id: string, decoder: string) {
    exists c :: c in m.controls && Covers(c, id, decoder)
  }

  predicate DecodersOk(m: Matrix, c: Control) {
    c.decoders != [] && forall name :: name in c.decoders ==> Declared(m, name)
  }

  /** The ids are present and pairwise different. */
  predicate IdsOk(controls: seq<Control>) {
    forall i :: 0 <= i < |controls| ==>
      controls[i].id != "" && forall j :: 0 <= j < i ==> controls[j].id != controls[i].id
  }

  predicate RequiredOk(m: Matrix, decoder: string) {
    Declared(m, decoder) ==> forall id :: id in Required(decoder) ==> Kept(m, id, decoder)
  }

  predicate Valid(m: Matrix) {
    && m.schema == MATRIX_SCHEMA
    && m.decoders != [] && (forall d :: d in m.decoders ==> DECODER_FIELDS <= d.fields)
    && m.controls != [] && IdsOk(m.controls)
    && (forall c :: c in m.controls ==> DecodersOk(m, c) && ExpectationOk(c.expected))
    && RequiredOk(m, MATCHING) && RequiredOk(m, MLE)
  }

  /** The controls up to the first one the validator stops at. */
  predicate ControlsOk(m: Matrix, n: nat)
    requires n <= |m.controls|
  {
    && IdsOk(m.controls[..n])
    && forall i :: 0 <= i < n ==> DecodersOk(m, m.controls[i]) && ExpectationOk(m.controls[i].expected)
  }

  method ValidateMatrix(m: Matrix) returns (r: Result<(), MatrixError>)
    ensures r.Ok? <==> Valid(m)
  {
    hide Required, ExpectationOk, DecodersOk, Covers, Declared, Kept, RequiredOk;
    if m.schema != MATRIX_SCHEMA {
      return Err(UnsupportedSchema);
    }
    if m.decoders == [] {
      return Err(NoDecoders);
    }
    for i := 0 to |m.decoders|
      invariant forall k :: 0 <= k < i ==> DECODER_FIELDS <= m.decoders[k].fields
    {
      if !(DECODER_FIELDS <= m.decoders[i].fields) {
        assert m.decoders[i] in m.decoders;
        return Err(MissingField(m.decoders[i].name));
      }
    }
    if m.controls == [] {
      return Err(NoControls);
    }
    var ids: set<string> := {};
    for i := 0 to |m.controls|
      invariant ControlsOk(m, i)
      invariant ids == set c | c in m.controls[..i] :: c.id
    {
      var c := m.controls[i];
      assert m.controls[..i + 1] == m.controls[..i] + [c];
      if c.id == "" || c.id in ids {
        BadIdIsInvalid(m.controls, i);
        return Err(BadId(c.id));
      }
      ids := ids + {c.id};
      NewIdIsFine(m.controls[..i], c);
      assert c in m.controls;
      if !DecodersOk(m, c) {
        return Err(BadDecoders(c.id));
      }
      if !ExpectationOk(c.expected) {
        return Err(BadExpectation(c.id));
      }
    }
    assert m.controls[..|m.controls|] == m.controls;
    if !RequiredOk(m, MATCHING) {
      return Err(RequiredMissing(MATCHING));
    }
    if !RequiredOk(m, MLE) {
      return Err(RequiredMissing(MLE));
    }
    r := Ok(());
  }

  lemma {:induction false} BadIdIsInvalid(controls: seq<Control>, i: nat)
    requires i < |controls|
    requires controls[i].id == "" || controls[i].id in set c | c in controls[..i] :: c.id
    ensures !IdsOk(controls)
  {
    if controls[i].id != "" {
      var c :| c in controls[..i] && c.id == controls[i].id;
      var j :| 0 <= j < i && controls[j] == c;
    }
  }

  lemma {:induction false} NewIdIsFine(controls: seq<Control>, c: Control)
    requires IdsOk(controls) && c.id != "" && c.id !in set d | d in controls :: d.id
    ensures IdsOk(controls + [c])
  {
    forall i | 0 <= i < |controls + [c]|
      ensures (controls + [c])[i].id != "" && forall j :: 0 <= j < i ==>
        (controls + [c])[j].id != (controls + [c])[i].id
    {
      if i == |controls| {
        assert forall j :: 0 <= j < i ==> (controls + [c])[j] in controls;
      } else {
        assert forall j :: 0 <= j <= i ==> (controls + [c])[j] == controls[j];
      }
    }
  }

  // ------------------------------------------------------------ expansion

  /**
   `text.replace(find, new)`: left to right, no overlaps; an empty `find` is found before every character and at the
   end.
  */
  function Replace(text: string, find: string, put: string): string
    decreases |text|
  {
    if find == "" then
      if text == "" then put else put + [text[0]] + Replace(text[1..], find, put)
    else if find <= text then put + Replace(text[|find|..], find, put)
    else if text == "" then ""
    else [text[0]] + Replace(text[1..], find, put)
  }

  function VariantId(c: Control, v: Variant): string {
    c.id + ":" + v.id
  }

  function Instance(c: Control, v: Variant): Control
    requires c.dataset.Variants?
  {
    c.(id := VariantId(c, v), dataset := Inline(Replace(c.dataset.base, v.find, v.put), c.dataset.shots))
  }

  function Prepend(done: seq<Control>, r: Result<seq<Control>, MatrixError>): Result<seq<Control>, MatrixError> {
    match r
    case Err(e) => Err(e)
    case Ok(rest) => Ok(done + rest)
  }

  function Instances(c: Control, variants: seq<Variant>): Result<seq<Control>, MatrixError>
    requires c.dataset.Variants?
    decreases |variants|
  {
    if variants == [] then Ok([])
    else if !Contains(c.dataset.base, variants[0].find) then Err(BaseMismatch(c.id, variants[0].id))
    else Prepend([Instance(c, variants[0])], Instances(c, variants[1..]))
  }

  function ExpandOne(c: Control): Result<seq<Control>, MatrixError> {
    if c.dataset.Variants? then Instances(c, c.dataset.variants) else Ok([c])
  }

  /** The controls with every variant on its own; the first variant whose text is not in the base stops it. */
  function Expand(controls: seq<Control>): Result<seq<Control>, MatrixError>
    decreases |controls|
  {
    if controls == [] then Ok([])
    else match ExpandOne(controls[0])
      case Err(e) => Err(e)
      case Ok(first) => Prepend(first, Expand(controls[1..]))
  }

  lemma {:induction false} PrependNothing(r: Result<seq<Control>, MatrixError>)
    ensures Prepend([], r) == r
  {
    if r.Ok? {
      assert [] + r.value == r.value;
    }
  }

  lemma {:induction false} PrependTwice(a: seq<Control>, b: seq<Control>, r: Result<seq<Control>, MatrixError>)
    ensures Prepend(a, Prepend(b, r)) == Prepend(a + b, r)
  {
    if r.Ok? {
      assert a + (b + r.value) == a + b + r.value;
    }
  }

  method ExpandControls(controls: seq<Control>) returns (r: Result<seq<Control>, MatrixError>)
    ensures r == Expand(controls)
  {
    hide Contains, Instance, Prepend;
    var expanded: seq<Control> := [];
    PrependNothing(Expand(controls));
    assert controls[0..] == controls;
    for i := 0 to |controls|
      invariant Expand(controls) == Prepend(expanded, Expand(controls[i..]))
    {
      var c := controls[i];
      assert controls[i..][0] == c && controls[i..][1..] == controls[i + 1..];
      if !c.dataset.Variants? {
        PrependTwice(expanded, [c], Expand(controls[i + 1..]));
        expanded := expanded + [c];
        continue;
      }
      var variants := c.dataset.variants;
      ghost var before, own: seq<Control> := expanded, [];
      PrependNothing(Instances(c, variants));
      assert variants[0..] == variants;
      for k := 0 to |variants|
        invariant expanded == before + own
        invariant Instances(c, variants) == Prepend(own, Instances(c, variants[k..]))
      {
        assert variants[k..][0] == variants[k] && variants[k..][1..] == variants[k + 1..];
        if !Contains(c.dataset.base, variants[k].find) {
          PrependError(own, BaseMismatch(c.id, variants[k].id));
          PrependError(before, BaseMismatch(c.id, variants[k].id));
          return Err(BaseMismatch(c.id, variants[k].id));
        }
        var instance := Instance(c, variants[k]);
        PrependTwice(own, [instance], Instances(c, variants[k + 1..]));
        assert before + own + [instance] == before + (own + [instance]);
        own := own + [instance];
        expanded := expanded + [instance];
      }
      PrependOk(own, []);
      PrependTwice(before, own, Expand(controls[i + 1..]));
    }
    PrependOk(expanded, []);
    r := Ok(expanded);
  }

  lemma {:induction false} PrependOk(done: seq<Control>, rest: seq<Control>)
    ensures Prepend(done, Ok(rest)) == Ok(done + rest)
    ensures rest == [] ==> done + rest == done
  {
  }

  lemma {:induction false} PrependError(done: seq<Control>, e: MatrixError)
    ensures Prepend(done, Err(e)) == Err(e)
  {
  }

  predicate Expandable(c: Control) {
    c.dataset.Variants? ==> forall v :: v in c.dataset.variants ==> Contains(c.dataset.base, v.find)
  }

  lemma {:induction false} InstancesOkIff(c: Control, variants: seq<Variant>)
    requires c.dataset.Variants?
    ensures Instances(c, variants).Ok? <==> forall v :: v in variants ==> Contains(c.dataset.base, v.find)
    decreases |variants|
  {
    hide Contains, Instance;
    if variants != [] {
      InstancesOkIff(c, variants[1..]);
    }
  }

  lemma {:induction false} ExpandOneOkIff(c: Control)
    ensures ExpandOne(c).Ok? <==> Expandable(c)
  {
    hide Contains;
    if c.dataset.Variants? {
      InstancesOkIff(c, c.dataset.variants);
    }
  }

  /** The expansion succeeds exactly when every variant finds its text in its base circuit. */
  lemma {:induction false} ExpandOkIff(controls: seq<Control>)
    ensures Expand(controls).Ok? <==> forall c :: c in controls ==> Expandable(c)
    decreases |controls|
  {
    hide Expandable, ExpandOne;
    if controls != [] {
      ExpandOneOkIff(controls[0]);
      ExpandOkIff(controls[1..]);
      assert forall c :: c in controls <==> c == controls[0] || c in controls[1..];
    }
  }

  // ------------------------------------------------------------ reduction

  function KeepNames(names: seq<string>, available: set<string>): (kept: seq<string>)
    ensures forall x :: x in kept <==> x in names && x in available
  {
    if names == [] then []
    else (if names[0] in available then [names[0]] else []) + KeepNames(names[1..], available)
  }

  function Narrow(c: Control, available: set<string>): Control {
    c.(decoders := KeepNames(c.decoders, available))
  }

  /** The controls narrowed to the available decoders, without those that cover none of them. */
  function Reduce(controls: seq<Control>, available: set<string>): seq<Control>
    decreases |controls|
  {
    if controls == [] then []
    else (if KeepNames(controls[0].decoders, available) != [] then [Narrow(controls[0], available)] else [])
         + Reduce(controls[1..], available)
  }

  function KeepDecoders(decoders: seq<Decoder>, available: set<string>): (kept: seq<Decoder>)
    ensures forall d :: d in kept <==> d in decoders && d.name in available
  {
    if decoders == [] then []
    else (if decoders[0].name in available then [decoders[0]] else []) + KeepDecoders(decoders[1..], available)
  }

  function Reduced(m: Matrix, available: set<string>): Matrix {
    m.(decoders := KeepDecoders(m.decoders, available), controls := Reduce(m.controls, available))
  }

  method ReduceControls(all: seq<Control>, available: set<string>) returns (controls: seq<Control>)
    ensures controls == Reduce(all, available)
  {
    hide KeepNames;
    controls := [];
    for i := 0 to |all|
      invariant Reduce(all, available) == controls + Reduce(all[i..], available)
    {
      ReduceFrom(all, i, controls, available);
      var kept := KeepNames(all[i].decoders, available);
      if kept != [] {
        controls := controls + [all[i].(decoders := kept)];
      }
    }
    assert controls + Reduce([], available) == controls;
  }

  lemma {:induction false} ReduceFrom(all: seq<Control>, i: nat, controls: seq<Control>, available: set<string>)
    requires i < |all|
    ensures controls + Reduce(all[i..], available) ==
      if KeepNames(all[i].decoders, available) == [] then controls + Reduce(all[i + 1..], available)
      else controls + [Narrow(all[i], available)] + Reduce(all[i + 1..], available)
  {
    hide KeepNames, Narrow;
    assert all[i..][0] == all[i] && all[i..][1..] == all[i + 1..];
    assert [] + Reduce(all[i + 1..], available) == Reduce(all[i + 1..], available);
  }

  method ReducedMatrix(m: Matrix, available: set<string>) returns (r: Result<Matrix, MatrixError>)
    ensures r.Ok? <==> Valid(Reduced(m, available))
    ensures r.Ok? ==> r.value == Reduced(m, available)
  {
    hide Valid, Reduce;
    var decoders := KeepDecoders(m.decoders, available);
    if decoders == [] {
      NoDecodersIsInvalid(Reduced(m, available));
      return Err(NothingAvailable);
    }
    var controls := ReduceControls(m.controls, available);
    var reduced := m.(decoders := decoders, controls := controls);
    assert reduced == Reduced(m, available);
    var v := ValidateMatrix(reduced);
    r := match v case Ok(_) => Ok(reduced) case Err(e) => Err(e);
  }

  lemma {:induction false} NoDecodersIsInvalid(m: Matrix)
    requires m.decoders == []
    ensures !Valid(m)
  {
  }

  // ---------------------------------------------------------------- runs

  datatype Record = Record(control: string, decoder: string, status: string, issues: seq<string>)

  datatype Report = Report(results: seq<Record>, status: string, problems: seq<string>)

  /** What a run of one control with one decoder comes to, by the number of runs before it. */
  type Executor = (nat, Control, string) -> Result<seq<string>, MatrixError>

  datatype Job = Job(control: Control, decoder: string)

  function ControlJobs(c: Control, decoders: seq<string>): (jobs: seq<Job>)
    ensures |jobs| == |decoders| && forall i :: 0 <= i < |jobs| ==> jobs[i] == Job(c, decoders[i])
  {
    seq(|decoders|, i requires 0 <= i < |decoders| => Job(c, decoders[i]))
  }

  function Jobs(controls: seq<Control>): seq<Job>
    decreases |controls|
  {
    if controls == [] then [] else ControlJobs(controls[0], controls[0].decoders) + Jobs(controls[1..])
  }

  function Outcome(issues: seq<string>): string {
    if issues == [] then "pass" else "fail"
  }

  function Entry(job: Job, issues: seq<string>): Record {
    Record(job.control.id, job.decoder, Outcome(issues), issues)
  }

  function Execute(jobs: seq<Job>, done: seq<Record>, run: Executor): Result<seq<Record>, MatrixError>
    decreases |jobs|
  {
    if jobs == [] then Ok(done)
    else match run(|done|, jobs[0].control, jobs[0].decoder)
      case Err(e) => Err(e)
      case Ok(issues) => Execute(jobs[1..], done + [Entry(jobs[0], issues)], run)
  }

  function Issues(records: seq<Record>): seq<string> {
    if records == [] then [] else Issues(records[..|records| - 1]) + records[|records| - 1].issues
  }

  function ReportOf(records: seq<Record>): Report {
    Report(records, Outcome(Issues(records)), Issues(records))
  }

  predicate AllAdvertised(m: Matrix, available: set<string>) {
    forall d :: d in m.decoders ==> d.name in available
  }

  function RunOf(m: Matrix, available: set<string>, run: Executor): Result<Report, MatrixError> {
    if !AllAdvertised(m, available) then Err(NotAdvertised)
    else match Expand(m.controls)
      case Err(e) => Err(e)
      case Ok(expanded) =>
        match Execute(Jobs(expanded), [], run)
        case Err(e) => Err(e)
        case Ok(records) => Ok(ReportOf(records))
  }

  method RunChecks(m: Matrix, available: set<string>, run: Executor) returns (r: Result<Report, MatrixError>)
    ensures r == RunOf(m, available, run)
  {
    hide Expand, Entry, Execute, Jobs, Issues;
    if !AllAdvertised(m, available) {
      return Err(NotAdvertised);
    }
    var e := ExpandControls(m.controls);
    if e.Err? {
      return Err(e.error);
    }
    var controls := e.value;
    var results: seq<Record> := [];
    var problems: seq<string> := [];
    NothingLeft(results, run);
    assert controls[0..] == controls;
    for i := 0 to |controls|
      invariant Execute(Jobs(controls), [], run) == Execute(Jobs(controls[i..]), results, run)
      invariant problems == Issues(results)
    {
      var c := controls[i];
      ghost var later := Jobs(controls[i + 1..]);
      JobsFrom(controls, i);
      for k := 0 to |c.decoders|
        invariant Execute(Jobs(controls), [], run) == Execute(ControlJobs(c, c.decoders[k..]) + later, results, run)
        invariant problems == Issues(results)
      {
        ExecuteNext(c, k, later, results, run);
        var outcome := run(|results|, c, c.decoders[k]);
        if outcome.Err? {
          return Err(outcome.error);
        }
        var issues := outcome.value;
        ghost var was := results;
        problems := problems + issues;
        results := results + [Entry(Job(c, c.decoders[k]), issues)];
        IssuesPush(was, Entry(Job(c, c.decoders[k]), issues));
        assert Entry(Job(c, c.decoders[k]), issues).issues == issues by { EntryIssues(Job(c, c.decoders[k]), issues); }
      }
      assert ControlJobs(c, c.decoders[|c.decoders|..]) + later == later;
    }
    assert controls[|controls|..] == [];
    NothingLeft(results, run);
    r := Ok(Report(results, if problems == [] then "pass" else "fail", problems));
  }

  lemma {:induction false} NothingLeft(results: seq<Record>, run: Executor)
    ensures Execute(Jobs([]), results, run) == Ok(results) && Issues([]) == []
  {
  }

  lemma {:induction false} JobsFrom(controls: seq<Control>, i: nat)
    requires i < |controls|
    ensures Jobs(controls[i..])
      == ControlJobs(controls[i], controls[i].decoders[0..]) + Jobs(controls[i + 1..])
  {
    assert controls[i..][0] == controls[i] && controls[i..][1..] == controls[i + 1..];
    assert controls[i].decoders[0..] == controls[i].decoders;
  }

  lemma {:induction false} ExecuteNext(c: Control, k: nat, later: seq<Job>, results: seq<Record>, run: Executor)
    requires k < |c.decoders|
    ensures Execute(ControlJobs(c, c.decoders[k..]) + later, results, run) ==
      match run(|results|, c, c.decoders[k])
      case Err(e) => Err(e)
      case Ok(issues) =>
        Execute(ControlJobs(c, c.decoders[k + 1..]) + later, results + [Entry(Job(c, c.decoders[k]), issues)], run)
  {
    hide Entry;
    var left := ControlJobs(c, c.decoders[k..]) + later;
    assert left[0] == Job(c, c.decoders[k]);
    assert left[1..] == ControlJobs(c, c.decoders[k + 1..]) + later;
  }

  lemma {:induction false} IssuesPush(records: seq<Record>, r: Record)
    ensures Issues(records + [r]) == Issues(records) + r.issues
  {
    assert (records + [r])[..|records + [r]| - 1] == records;
  }

  lemma {:induction false} EntryIssues(job: Job, issues: seq<string>)
    ensures Entry(job, issues).issues == issues
  {
  }
}
