/** What the gate has read when it starts to decide, and which of several entries of one name it goes by. */
module GateLoads {
  import opened Prelude
  import opened SupportMatrix
  import opened Evidence
  import opened Gate
  import opened GateDecision
  import opened GateJustified

  // ------------------------------------------------------------- documents

  /** The document is the file's, if the file is there and holds one of this schema; a file that is there is read. */
  predicate IsDocument<T(==)>(document: Option<Generated<T>>, dir: map<string, string>, file: string,
                              parse: string -> Option<Generated<T>>, schema: string) {
    && (file in dir ==> parse(dir[file]).Some?)
    && (document.Some? <==> file in dir && parse(dir[file]).Some? && parse(dir[file]).value.schema == schema)
    && (document.Some? ==> parse(dir[file]) == document)
  }

  lemma {:induction false} UsableIsDocument<T>(dir: map<string, string>, file: string,
                                               parse: string -> Option<Generated<T>>, schema: string)
    requires Read(dir, file, parse).Ok?
    ensures IsDocument(Usable(Read(dir, file, parse).value, schema), dir, file, parse, schema)
  {
  }

  /** Everything the gate decides by comes from the files: nothing is made up, nothing usable is passed over. */
  lemma {:induction false} DocumentsAreLoaded(w: World, i: Inputs, l: Loaded)
    requires Load(w, i) == Ok(l)
    ensures w.matrixOf(i.matrix) == Some(l.matrix) && Valid(l.matrix) && l.targets == i.targets
    ensures IsDocument(l.support, i.dir, "support.json", w.supportOf, SUPPORT_SCHEMA)
    ensures IsDocument(l.correctness, i.dir, "correctness.json", w.correctnessOf, CORRECTNESS_SCHEMA)
    ensures IsDocument(l.resources, i.dir, "resources.json", w.resourcesOf, RESOURCES_SCHEMA)
    ensures if l.mleEnforced then IsDocument(l.mle, i.dir, "mle-resources.json", w.mleOf, MLE_SCHEMA) else l.mle == None
    ensures l.plan.Some? ==> i.planGiven && i.plan == Some(l.planText) && w.planOf(l.planText) == l.plan
    ensures forall t :: t in l.installed <==>
      t in i.targets && InstalledAt(w, i, t).Some? && InstalledAt(w, i, t).value.schema == INSTALLED_SCHEMA
    ensures forall t :: t in l.installed ==> InstalledAt(w, i, t) == Some(l.installed[t])
  {
    hide Valid, SharedGaps, MleOnlyGaps, ReadReports, MleEnforced, IsDocument, Usable, InstalledAt, Read;
    UsableIsDocument(i.dir, "support.json", w.supportOf, SUPPORT_SCHEMA);
    UsableIsDocument(i.dir, "correctness.json", w.correctnessOf, CORRECTNESS_SCHEMA);
    UsableIsDocument(i.dir, "resources.json", w.resourcesOf, RESOURCES_SCHEMA);
    if l.mleEnforced {
      UsableIsDocument(i.dir, "mle-resources.json", w.mleOf, MLE_SCHEMA);
    } else {
      NothingUsable<seq<MleRecord>>(MLE_SCHEMA);
    }
    ReportsAre(w, i, i.targets);
  }

  lemma {:induction false} NothingUsable<T>(schema: string)
    ensures Usable<T>(None, schema) == None
  {
  }

  lemma {:induction false} ReportsAre(w: World, i: Inputs, targets: seq<string>)
    requires ReadReports(w, i, targets).Ok?
    ensures var reports := ReadReports(w, i, targets).value.reports;
      && (forall t :: t in reports <==>
           t in targets && InstalledAt(w, i, t).Some? && InstalledAt(w, i, t).value.schema == INSTALLED_SCHEMA)
      && forall t :: t in reports ==> InstalledAt(w, i, t) == Some(reports[t])
  {
    hide InstalledGaps, InstalledAt, ReadReport;
    if targets != [] {
      var front, t := targets[..|targets| - 1], targets[|targets| - 1];
      ReportsAre(w, i, front);
      NoReportGapIff(w, i, t);
      assert forall x :: x in targets <==> x in front || x == t;
    }
  }

  // ------------------------------------------- which of several entries

  /** Of several cases of one name the last is gone by. */
  lemma {:induction false} LastCaseIs(cases: seq<Case>, name: string)
    ensures LastCase(cases, name).None? <==> forall k :: 0 <= k < |cases| ==> cases[k].name != name
    ensures forall k | 0 <= k < |cases| && cases[k].name == name
      && (forall j :: k < j < |cases| ==> cases[j].name != name) ::
      LastCase(cases, name) == Some(cases[k])
  {
    if cases != [] {
      var front := cases[..|cases| - 1];
      LastCaseIs(front, name);
      assert forall k :: 0 <= k < |front| ==> front[k] == cases[k];
      forall k | 0 <= k < |cases| && cases[k].name == name
        && (forall j :: k < j < |cases| ==> cases[j].name != name)
        ensures LastCase(cases, name) == Some(cases[k])
      {
        assert k < |front| ==> front[k] == cases[k] && forall j :: k < j < |front| ==> front[j] == cases[j];
      }
    }
  }

  /** Of several measurements of one workload the last is gone by. */
  lemma {:induction false} LastRecordIs(records: seq<MleRecord>, id: string)
    ensures LastRecord(records, id).None? <==> forall k :: 0 <= k < |records| ==> records[k].id != id
    ensures forall k | 0 <= k < |records| && records[k].id == id
      && (forall j :: k < j < |records| ==> records[j].id != id) ::
      LastRecord(records, id) == Some(records[k])
  {
    if records != [] {
      var front := records[..|records| - 1];
      LastRecordIs(front, id);
      assert forall k :: 0 <= k < |front| ==> front[k] == records[k];
      forall k | 0 <= k < |records| && records[k].id == id
        && (forall j :: k < j < |records| ==> records[j].id != id)
        ensures LastRecord(records, id) == Some(records[k])
      {
        assert k < |front| ==> front[k] == records[k] && forall j :: k < j < |front| ==> front[j] == records[j];
      }
    }
  }

  predicate RunsControl(r: Record, control: string) {
    r.control == control && r.decoder == MLE
  }

  /** Of several records of the MLE decoder for one control the last is gone by, where support gaps go by the first. */
  lemma {:induction false} LastResultIs(results: seq<Record>, control: string)
    ensures LastResult(results, control).None? <==>
      forall k :: 0 <= k < |results| ==> !RunsControl(results[k], control)
    ensures forall k | 0 <= k < |results| && RunsControl(results[k], control)
      && (forall j :: k < j < |results| ==> !RunsControl(results[j], control)) ::
      LastResult(results, control) == Some(results[k])
  {
    if results != [] {
      var front := results[..|results| - 1];
      LastResultIs(front, control);
      assert forall k :: 0 <= k < |front| ==> front[k] == results[k];
      forall k | 0 <= k < |results| && RunsControl(results[k], control)
        && (forall j :: k < j < |results| ==> !RunsControl(results[j], control))
        ensures LastResult(results, control) == Some(results[k])
      {
        assert k < |front| ==> front[k] == results[k] && forall j :: k < j < |front| ==> front[j] == results[j];
      }
    }
  }
}
