/** An evidence directory whose MLE resource report stops the release gate. */
module GateWitness {
  import opened Prelude
  import opened Text
  import opened SupportMatrix
  import opened SupportWitnesses
  import opened Evidence
  import opened Gate
  import opened GateDecision
  import opened GateLaws

  const MATRIX_TEXT := "matrix"
  const POLICY_TEXT := "policy"
  const PLAN_TEXT := "plan"
  const MLE_TEXT := "MLE resources"
  const RETAINED_TEXT := "retained manifest"

  /** A commit id. */
  function Commit(digit: char): (id: string)
    requires IsHex(digit)
    ensures HexOf(id, 40)
  {
    seq(40, _ => digit)
  }

  const CANDIDATE := Commit('a')

  // -------------------------------------------------------- the scope plan

  function Generation(distance: string, rounds: string, loss: string): string {
    "rstim circuit gen " + distance + " " + rounds + " " + loss
  }

  function CaseIdentity(source: string, digit: char, seed: string): map<string, string> {
    map["source" := source, "circuit_sha256" := seq(64, _ => digit), "seed" := seed]
  }

  function Params(distance: string, rounds: string, loss: string, batch: string): map<string, string> {
    map["distance" := distance, "rounds" := rounds, "loss_rate" := loss, "batch" := batch]
  }

  /** The cases that no valid plan drops. */
  const SCOPE_CASES: seq<RequiredCase> :=
    [EndToEndCase("midswap-d3-r2-fixture", CaseIdentity("midswap_d3_r2.stim", '1', "714001"), "3,2,0.003"),
     EndToEndCase("midswap-d3-r2-p002-generated", CaseIdentity(Generation("3", "2", "0.002"), '2', "721000"),
                  "3,2,0.002"),
     EndToEndCase("midswap-d3-r1-generated", CaseIdentity(Generation("3", "1", "0.01"), '3', "714002"), "3,1,0.01"),
     CompilerCase("midswap-d3-r3-generated", CaseIdentity(Generation("3", "3", "0.01"), '4', "714003"), "3,3,0.01"),
     ControlCase("mini-circuit-known-answer"), ControlCase("lost-value-placeholder-invariance"),
     ControlCase("midswap-canonical-mle-known-answer"), ControlCase("midswap-fixture-mle-acceptance"),
     ControlCase("conventional-mle-candidate-explosion-rejection"), ControlCase("mle-solve-timeout"),
     ControlCase("mle-infeasible-shot"), ControlCase("mle-unsupported-detector-layout"),
     ControlCase("repeat-block-rejection"),
     WorkloadCase("mle-d3r2-p002-b1024", true, Params("3", "2", "0.002", "1024")),
     WorkloadCase("mle-d3r2-p002-b16384", true, Params("3", "2", "0.002", "16384")),
     WorkloadCase("mle-d3r1-p010-b1024", true, Params("3", "1", "0.01", "1024")),
     WorkloadCase("mle-d3r1-p010-b16384", true, Params("3", "1", "0.01", "16384")),
     WorkloadCase("mle-eviction-wires24", false, map[]),
     FailureCase("fail-mle-candidate-limit"), FailureCase("fail-mle-solve-timeout"), FailureCase("fail-mle-infeasible"),
     PlatformCase("x86_64-unknown-linux-gnu"), PlatformCase("aarch64-apple-darwin")]

  const SCOPE_PLAN := Plan(CANDIDATE, "supported", PROPOSED, "v0.3.3", "", SCOPE_CASES)

  // ------------------------------------------------------------ the evidence

  const UNTIMED := "mle-d3r2-p002-b1024"

  /**
   The resource report names no machine, and its one record no wall time. A report without a machine is not replayed
   any further, so that the replay does not ask for the wall time either.
  */
  function UntimedReport(): MleDoc {
    Generated(MLE_SCHEMA, CANDIDATE, "pass",
              [MleRecord(UNTIMED, 0, false, None, true, Params("3", "2", "0.002", "1024"), "", 1024, false)])
  }

  const REPLAYED := ["report missing machine"]

  function WitnessMatrix(): Matrix {
    SoleMatrix(MLE, PROPOSED, Other(""))
  }

  /** Any world in which these three texts are these documents. */
  function WitnessWorld(base: World): World {
    base.(
      matrixOf := text => if text == MATRIX_TEXT then Some(WitnessMatrix()) else base.matrixOf(text),
      planOf := text => if text == PLAN_TEXT then Some(SCOPE_PLAN) else base.planOf(text),
      mleOf := text => if text == MLE_TEXT then Some(UntimedReport()) else base.mleOf(text),
      replay := (report, plan) =>
        if report == UntimedReport() && plan == PLAN_TEXT then Some(REPLAYED) else base.replay(report, plan))
  }

  /** A candidate with a policy, a plan and an MLE resource report, and no other evidence yet. */
  function WitnessInputs(base: World): Inputs {
    Inputs(map[MLE_FILE := MLE_TEXT], MATRIX_TEXT, Some(POLICY_TEXT), Some(PLAN_TEXT), true,
           RetainedRecord(true, "source-equivalent", base.hash(RETAINED_TEXT), Commit('b')), [], CANDIDATE, [], [])
  }

  lemma {:induction false} WitnessIsRead(base: World)
    ensures ReadMatrix(WitnessWorld(base), WitnessInputs(base)) == Ok(WitnessMatrix())
    ensures ReadGeneric(WitnessWorld(base), WitnessInputs(base)) == Ok(Generic(None, None, None))
    ensures ReadReports(WitnessWorld(base), WitnessInputs(base), []) == Ok(Reports(map[], []))
    ensures ReadMle(WitnessWorld(base), WitnessInputs(base), WitnessMatrix()) == Ok(Some(UntimedReport()))
  {
    hide Valid, SoleMatrix, UntimedReport;
    SoleIsValid(MLE, PROPOSED, Other(""));
    assert MLE_FILE[0] == 'm';
    assert "support.json"[0] == 's' && "correctness.json"[0] == 'c' && "resources.json"[0] == 'r';
  }

  lemma {:induction false} WitnessLoads(base: World, l: Loaded)
    requires l == Assemble(WitnessWorld(base), WitnessInputs(base), WitnessMatrix(), Generic(None, None, None),
                           Some(UntimedReport()), Reports(map[], []))
    ensures l.matrix == WitnessMatrix() && l.plan == Some(SCOPE_PLAN) && l.planText == PLAN_TEXT
    ensures l.mle == Some(UntimedReport()) && l.mleEnforced && l.support.None? && l.installed == map[]
    ensures WitnessWorld(base).replay(UntimedReport(), PLAN_TEXT) == Some(REPLAYED)
  {
    hide SoleMatrix, SharedGaps, MleOnlyGaps, MatrixProposesMle;
  }

  lemma {:induction false} FirstWorkload()
    ensures |SCOPE_CASES| == 23 && Untimed(UntimedReport().body, SCOPE_CASES[13])
    ensures SCOPE_CASES[13].WorkloadCase? && SCOPE_CASES[13].workload == UNTIMED
    ensures forall j :: 0 <= j < 13 ==> !Untimed(UntimedReport().body, SCOPE_CASES[j])
  {
    hide Params, CaseIdentity, Generation;
    var records := UntimedReport().body;
    assert records[|records| - 1].id == UNTIMED;
  }

  /** The gate stops at this directory on the missing wall time, and reaches no decision for any decoder. */
  lemma {:induction false} WitnessStops(base: World)
    ensures EvaluateOf(WitnessWorld(base), WitnessInputs(base)) == Err(NoWallTime(UNTIMED))
  {
    hide EvaluateOf, ReadMatrix, ReadGeneric, ReadReports, ReadMle, Assemble, SoleMatrix, WitnessMatrix, WitnessWorld;
    hide Untimed, UntimedReport, SCOPE_CASES;
    var w, i := WitnessWorld(base), WitnessInputs(base);
    var l := Assemble(w, i, WitnessMatrix(), Generic(None, None, None), Some(UntimedReport()), Reports(map[], []));
    WitnessIsRead(base);
    WitnessLoads(base, l);
    assert Load(w, i) == Ok(l);
    FirstDecoder();
    FirstWorkload();
    UntimedWorkloadIsNamed(w, i, l, 0, 13);
  }

  lemma {:induction false} FirstDecoder()
    ensures |WitnessMatrix().decoders| == 1
    ensures WitnessMatrix().decoders[0].name == MLE && WitnessMatrix().decoders[0].proposed == PROPOSED
  {
    hide Required;
  }
}
