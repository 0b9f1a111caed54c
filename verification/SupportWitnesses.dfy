/** Two matrices on which the gate does not do what its documentation suggests. */
module SupportWitnesses {
  import opened Prelude
  import opened Text
  import opened SupportMatrix
  import opened SupportGate

  // ------------------------------------- a control that the reduction drops

  /** A matrix of two decoders, where the only control of the second has a variant that is not in its base. */
  const GOOD := Control("good", ["a"], Other(""), Expected("success", {"predictions_hex"}))

  const BROKEN :=
    Control("broken", ["b"], Variants("", "", [Variant("v", "x", "")]), Expected("success", {"predictions_hex"}))

  function Plain(name: string): Decoder {
    Decoder(name, DECODER_FIELDS, "", "", "", [], "", [], None)
  }

  function BrokenMatrix(): Matrix {
    Matrix(MATRIX_SCHEMA, "", [Plain("a"), Plain("b")], [], "", [GOOD, BROKEN])
  }

  lemma {:induction false} BrokenIsValid()
    ensures Valid(BrokenMatrix())
  {
    hide Required;
    var m := BrokenMatrix();
    assert m.decoders[0].name == "a" && m.decoders[1].name == "b" && m.decoders[0] in m.decoders
      && m.decoders[1] in m.decoders;
    assert Declared(m, "a") && Declared(m, "b");
    assert GOOD.id[0] == 'g' && BROKEN.id[0] == 'b';
    assert |MATCHING| > 1 && |MLE| > 1;
  }

  lemma {:induction false} BrokenReduces()
    ensures Reduced(BrokenMatrix(), {"a"}) == Matrix(MATRIX_SCHEMA, "", [Plain("a")], [], "", [GOOD])
  {
    var m := BrokenMatrix();
    assert "a" != "b";
    assert KeepNames(["a"], {"a"}) == ["a"] + KeepNames([], {"a"});
    assert KeepNames(["b"], {"a"}) == [] + KeepNames([], {"a"});
    assert m.controls[1..] == [BROKEN] && [BROKEN][1..] == [];
    assert m.decoders[1..] == [Plain("b")] && [Plain("b")][1..] == [];
    assert Narrow(GOOD, {"a"}) == GOOD;
    assert Reduce([BROKEN], {"a"}) == [];
    assert KeepDecoders([Plain("b")], {"a"}) == [];
  }

  lemma {:induction false} BrokenDoesNotExpand()
    ensures Expand(BrokenMatrix().controls) == Err(BaseMismatch("broken", "v"))
  {
    var controls := BrokenMatrix().controls;
    assert controls[1..] == [BROKEN];
    assert !Contains("", "x");
    assert ExpandOne(BROKEN) == Err(BaseMismatch("broken", "v"));
    assert Expand([BROKEN]) == Err(BaseMismatch("broken", "v"));
  }

  /** The run of the reduced matrix passes, and the gate stops at a control that the run never saw. */
  lemma {:induction false} DroppedControlStopsTheGate(source: string)
    ensures var m, run := BrokenMatrix(), (n: nat, c: Control, d: string) => Ok([]);
      var report := RunOf(Reduced(m, {"a"}), {"a"}, run);
      && Valid(m) && Valid(Reduced(m, {"a"})) && report.Ok? && report.value.status == "pass"
      && SupportGapsOf("a", report.value.results, m.controls, source) == Err(BaseMismatch("broken", "v"))
  {
    var m: Matrix := BrokenMatrix();
    var run: Executor := (n: nat, c: Control, d: string) => Ok([]);
    BrokenIsValid();
    BrokenReduces();
    BrokenDoesNotExpand();
    ReducedIsValidIff(m, {"a"});
    assert "a" in GOOD.decoders && GOOD in m.controls && Touches(GOOD, {"a"});
    GoodPasses(run);
  }

  lemma {:induction false} GoodPasses(run: Executor)
    requires run(0, GOOD, "a") == Ok([])
    ensures var m := Matrix(MATRIX_SCHEMA, "", [Plain("a")], [], "", [GOOD]);
      RunOf(m, {"a"}, run) == Ok(Report([Record("good", "a", "pass", [])], "pass", []))
  {
    var job := Job(GOOD, "a");
    var r := Record("good", "a", "pass", []);
    assert [GOOD][1..] == [] && Expand([GOOD]) == Ok([GOOD] + []);
    assert [GOOD] + [] == [GOOD];
    assert ControlJobs(GOOD, GOOD.decoders) == [job];
    assert Jobs([GOOD]) == [job] + [] && [job] + [] == [job] && [job][1..] == [];
    assert Entry(job, []) == r;
    assert [] + [r] == [r];
    assert Execute([job], [], run) == Execute([], [r], run);
    assert [r][..0] == [];
  }

  // -------------------------------------------- controls without variants

  function RequiredControl(name: string, id: string, dataset: Dataset): Control {
    Control(id, [name], dataset, Expected("success", {"predictions_hex"}))
  }

  /** A matrix that declares one decoder with all its required controls, which share one dataset. */
  function SoleMatrix(name: string, proposed: string, dataset: Dataset): Matrix {
    var ids := Required(name);
    Matrix(MATRIX_SCHEMA, "", [Decoder(name, DECODER_FIELDS, "", proposed, "", [], "", [], None)], [], "",
           seq(|ids|, i requires 0 <= i < |ids| => RequiredControl(name, ids[i], dataset)))
  }

  lemma {:induction false} MatchingIdsDiffer(i: nat, j: nat)
    requires j < i < 6
    ensures |Required(MATCHING)| == 6 && Required(MATCHING)[j] != Required(MATCHING)[i] && Required(MATCHING)[j] != ""
    ensures Required(MATCHING)[i] != ""
  {
    var ids := Required(MATCHING);
    assert |ids[0]| == 25 && |ids[1]| == 35 && |ids[2]| == 40 && |ids[3]| == 22 && |ids[4]| == 21 && |ids[5]| == 26;
  }

  lemma {:induction false} MleIdsDiffer(i: nat, j: nat)
    requires j < i < 5
    ensures |Required(MLE)| == 5 && Required(MLE)[j] != Required(MLE)[i] && Required(MLE)[j] != ""
    ensures Required(MLE)[i] != ""
  {
    NotTheSame();
    var ids := Required(MLE);
    assert |ids[0]| == 25 && |ids[1]| == 34 && |ids[2]| == 46 && |ids[3]| == 17 && |ids[4]| == 19;
  }

  lemma {:induction false} NotTheSame()
    ensures MATCHING != MLE
  {
    assert |MATCHING| == 17 && |MLE| == 12;
  }

  lemma {:induction false} RequiredAreDistinct(name: string)
    requires name == MATCHING || name == MLE
    ensures |Required(name)| >= 5
    ensures forall i, j :: 0 <= j < i < |Required(name)| ==> Required(name)[j] != Required(name)[i]
    ensures forall i :: 0 <= i < |Required(name)| ==> Required(name)[i] != ""
  {
    hide Required;
    if name == MATCHING {
      MatchingIdsDiffer(1, 0);
      forall i, j | 0 <= j < i < 6 ensures Required(name)[j] != Required(name)[i] && Required(name)[i] != "" {
        MatchingIdsDiffer(i, j);
      }
    } else {
      MleIdsDiffer(1, 0);
      forall i, j | 0 <= j < i < 5 ensures Required(name)[j] != Required(name)[i] && Required(name)[i] != "" {
        MleIdsDiffer(i, j);
      }
    }
  }

  lemma {:induction false} SoleIsValid(name: string, proposed: string, dataset: Dataset)
    requires name == MATCHING || name == MLE
    ensures Valid(SoleMatrix(name, proposed, dataset))
  {
    hide Required;
    RequiredAreDistinct(name);
    NotTheSame();
    var m := SoleMatrix(name, proposed, dataset);
    var ids := Required(name);
    assert m.decoders[0] in m.decoders && Declared(m, name);
    forall i | 0 <= i < |m.controls|
      ensures m.controls[i].id != "" && forall j :: 0 <= j < i ==> m.controls[j].id != m.controls[i].id
    {
      assert m.controls[i].id == ids[i];
    }
    forall c | c in m.controls ensures DecodersOk(m, c) && ExpectationOk(c.expected) {
      var i :| 0 <= i < |m.controls| && m.controls[i] == c;
      assert c == RequiredControl(name, ids[i], dataset);
      assert c.decoders == [name];
    }
    forall id | id in ids ensures Kept(m, id, name) {
      var i :| 0 <= i < |ids| && ids[i] == id;
      assert m.controls[i] in m.controls && name in m.controls[i].decoders && Covers(m.controls[i], id, name);
    }
  }

  /** A matrix that declares envelope-matching with all its required controls, none of which lists a variant. */
  function HollowMatrix(): Matrix {
    SoleMatrix(MATCHING, "", Variants("", "", []))
  }

  /** It is valid, runs nothing, passes, and leaves no gap for the decoder it declares. */
  lemma {:induction false} HollowMatrixPasses(run: Executor, source: string)
    ensures Valid(HollowMatrix()) && RunOf(HollowMatrix(), {MATCHING}, run) == Ok(Report([], "pass", []))
    ensures SupportGapsOf(MATCHING, [], HollowMatrix().controls, source) == Ok([])
  {
    hide Required, Expand, SupportGapsOf, Valid;
    var m := HollowMatrix();
    SoleIsValid(MATCHING, "", Variants("", "", []));
    AllVanish(m.controls);
    RunSatisfiesGate(m, {MATCHING}, run, MATCHING, source);
  }

  lemma {:induction false} AllVanish(controls: seq<Control>)
    requires forall c :: c in controls ==> Vanishes(c)
    ensures Expand(controls) == Ok([])
    decreases |controls|
  {
    if controls != [] {
      assert controls[0] in controls;
      assert forall c :: c in controls[1..] ==> c in controls;
      AllVanish(controls[1..]);
      assert ExpandOne(controls[0]) == Ok([]);
      PrependOk([], []);
    }
  }
}
