/** The audit of a tag ruleset: when the live ruleset, the reviewed snapshot and the reviewed payload have drifted. */
module RulesetDrift {
  import opened Prelude
  import opened Json
  import opened Canonical

  /** Type, id if it is a number, and mode of a bypass actor. */
  type Actor = (string, Option<int>, string)

  const PUBLIC_KEYS: seq<string> := ["name", "target", "source_type", "source", "enforcement", "conditions", "rules"]

  const REPOSITORY_TYPE := "Repository"

  // ------------------------------------------------------ the public policy

  /** `value.get(key)` */
  function Find(fields: seq<Field>, key: string): Option<Value> {
    if fields == [] then None
    else if fields[0].key == key then Some(fields[0].value)
    else Find(fields[1..], key)
  }

  predicate HasKeys(doc: seq<Field>) {
    forall key :: key in PUBLIC_KEYS ==> Find(doc, key).Some?
  }

  /** The identity fields are strings, the conditions an object, the rules a list. */
  predicate IsPublic(doc: seq<Field>) {
    && HasKeys(doc)
    && (forall i :: 0 <= i < 5 ==> Find(doc, PUBLIC_KEYS[i]).value.Str?)
    && Find(doc, PUBLIC_KEYS[5]).value.Obj? && Find(doc, PUBLIC_KEYS[6]).value.Arr?
  }

  function PublicFields(doc: seq<Field>): (fields: seq<Field>)
    requires HasKeys(doc)
    ensures |fields| == |PUBLIC_KEYS|
    ensures forall i :: 0 <= i < |fields| ==> fields[i].key == PUBLIC_KEYS[i]
  {
    seq(|PUBLIC_KEYS|, i requires 0 <= i < |PUBLIC_KEYS| => Field(PUBLIC_KEYS[i], Find(doc, PUBLIC_KEYS[i]).value))
  }

  /** `_public_policy`, which fails on a document without the public fields. */
  function PublicPolicy(doc: seq<Field>): Option<Value> {
    if IsPublic(doc) then Some(Canon(Obj(PublicFields(doc)))) else None
  }

  function Replace(fields: seq<Field>, key: string, value: Value): seq<Field> {
    seq(|fields|, i requires 0 <= i < |fields| => if fields[i].key == key then Field(key, value) else fields[i])
  }

  /** `fields[key] = value` */
  function With(fields: seq<Field>, key: string, value: Value): seq<Field> {
    if Find(fields, key).Some? then Replace(fields, key, value) else fields + [Field(key, value)]
  }

  /** The reviewed payload as it is compared: the payload names neither the repository nor its kind. */
  function Payload(doc: seq<Field>): seq<Field> {
    With(With(doc, "source_type", Str(REPOSITORY_TYPE)), "source", Str(""))
  }

  /** `_expected_public_policy`: the payload for this repository. */
  function ExpectedPolicy(policy: Value, repository: string): Value
    requires policy.Obj?
  {
    Canon(Obj(Replace(policy.fields, "source", Str(repository))))
  }

  // ------------------------------------------------------------- the audit

  datatype Desired = Desired(publicPolicy: Value, bypassActors: set<Actor>)

  datatype Reviewed = Reviewed(repository: string, rulesetId: int, updatedAt: string, publicPolicy: Value,
                               bypassActors: set<Actor>)

  datatype Drift =
    | NoSnapshot | OtherRepository | OtherRuleset | BadTimestamp | Updated | SnapshotPolicyDiffers
    | SnapshotActorsDiffer | BadLivePolicy | LivePolicyDiffers

  function ErrorUnless(condition: bool, error: Drift): seq<Drift> {
    if condition then [] else [error]
  }

  function UpdatedErrors(updated: Option<string>, reviewed: Reviewed): seq<Drift> {
    match updated
    case None => [BadTimestamp]
    case Some(time) => ErrorUnless(time == reviewed.updatedAt, Updated)
  }

  function LiveErrors(live: seq<Field>, reviewed: Reviewed): seq<Drift> {
    match PublicPolicy(live)
    case None => [BadLivePolicy]
    case Some(policy) => ErrorUnless(policy == reviewed.publicPolicy, LivePolicyDiffers)
  }

  /** What the audit reports; `time` is the normal form of a timestamp. */
  function Errors(live: seq<Field>, repository: string, desired: Desired, reviewed: Option<Reviewed>,
                  time: Option<Value> -> Option<string>): seq<Drift>
    requires desired.publicPolicy.Obj?
  {
    match reviewed
    case None => [NoSnapshot]
    case Some(r) =>
      ErrorUnless(r.repository == repository, OtherRepository)
      + ErrorUnless(Find(live, "id") == Some(Int(r.rulesetId)), OtherRuleset)
      + UpdatedErrors(time(Find(live, "updated_at")), r)
      + ErrorUnless(r.publicPolicy == ExpectedPolicy(desired.publicPolicy, repository), SnapshotPolicyDiffers)
      + ErrorUnless(r.bypassActors == desired.bypassActors, SnapshotActorsDiffer)
      + LiveErrors(live, r)
  }

  /** `_reviewed_bypass_errors` */
  method ReviewedBypassErrors(live: seq<Field>, repository: string, desired: Desired, reviewed: Option<Reviewed>,
                              time: Option<Value> -> Option<string>)
      returns (errors: seq<Drift>)
    requires desired.publicPolicy.Obj?
    ensures errors == Errors(live, repository, desired, reviewed, time)
  {
    hide Canon, Find, Replace, IsPublic, PublicFields, PublicPolicy, ExpectedPolicy;
    if reviewed.None? {
      return [NoSnapshot];
    }
    var r := reviewed.value;
    errors := [];
    if r.repository != repository {
      errors := errors + [OtherRepository];
    }
    ghost var all := ErrorUnless(r.repository == repository, OtherRepository);
    assert errors == all;
    if Find(live, "id") != Some(Int(r.rulesetId)) {
      errors := errors + [OtherRuleset];
    }
    all := all + ErrorUnless(Find(live, "id") == Some(Int(r.rulesetId)), OtherRuleset);
    assert errors == all;
    var updated := time(Find(live, "updated_at"));
    if updated.None? {
      errors := errors + [BadTimestamp];
    } else if updated.value != r.updatedAt {
      errors := errors + [Updated];
    }
    all := all + UpdatedErrors(updated, r);
    assert errors == all;
    if r.publicPolicy != ExpectedPolicy(desired.publicPolicy, repository) {
      errors := errors + [SnapshotPolicyDiffers];
    }
    all := all + ErrorUnless(r.publicPolicy == ExpectedPolicy(desired.publicPolicy, repository), SnapshotPolicyDiffers);
    assert errors == all;
    if r.bypassActors != desired.bypassActors {
      errors := errors + [SnapshotActorsDiffer];
    }
    all := all + ErrorUnless(r.bypassActors == desired.bypassActors, SnapshotActorsDiffer);
    assert errors == all;
    var policy := PublicPolicy(live);
    if policy.None? {
      errors := errors + [BadLivePolicy];
    } else if policy.value != r.publicPolicy {
      errors := errors + [LivePolicyDiffers];
    }
    assert errors == all + LiveErrors(live, r);
  }

  // ------------------------------------------------- drift is more than order

  lemma {:induction false} FindMember(fields: seq<Field>, key: string)
    requires Find(fields, key).Some?
    ensures Field(key, Find(fields, key).value) in fields
  {
    if fields[0].key != key {
      FindMember(fields[1..], key);
    } else {
      assert fields[0] == Field(key, Find(fields, key).value);
    }
  }

  lemma {:induction false} KeysDiffer(i: nat, j: nat)
    requires j < i < 7
    ensures |PUBLIC_KEYS| == 7 && PUBLIC_KEYS[j] != PUBLIC_KEYS[i]
  {
    assert PUBLIC_KEYS[0][0] == 'n' && PUBLIC_KEYS[1][0] == 't' && PUBLIC_KEYS[4][0] == 'e';
    assert PUBLIC_KEYS[2][0] == 's' && PUBLIC_KEYS[3][0] == 's' && PUBLIC_KEYS[5][0] == 'c' && PUBLIC_KEYS[6][0] == 'r';
    assert |PUBLIC_KEYS[2]| == 11 && |PUBLIC_KEYS[3]| == 6;
  }

  lemma {:induction false} PublicIsWellFormed(doc: seq<Field>)
    requires WellFormed(Obj(doc)) && HasKeys(doc)
    ensures WellFormed(Obj(PublicFields(doc)))
  {
    hide Find, IsFloatText;
    var fields := PublicFields(doc);
    forall i, j | 0 <= i < j < |fields| ensures fields[i].key != fields[j].key {
      KeysDiffer(j, i);
    }
    forall f: Field | f in fields ensures WellFormed(f.value) {
      var i :| 0 <= i < |fields| && fields[i] == f;
      FindMember(doc, PUBLIC_KEYS[i]);
    }
  }

  lemma {:induction false} ReplaceIsWellFormed(fields: seq<Field>, key: string, s: string)
    requires WellFormed(Obj(fields))
    ensures WellFormed(Obj(Replace(fields, key, Str(s))))
  {
    hide IsFloatText;
    var changed := Replace(fields, key, Str(s));
    forall f: Field | f in changed ensures WellFormed(f.value) {
      var i :| 0 <= i < |changed| && changed[i] == f;
      assert fields[i] in fields;
    }
  }

  /** Replacing a field keeps two objects equal up to order. */
  lemma {:induction false} ReplaceKeepsSame(xs: seq<Field>, ys: seq<Field>, key: string, s: string)
    requires Same(Obj(xs), Obj(ys))
    ensures Same(Obj(Replace(xs, key, Str(s))), Obj(Replace(ys, key, Str(s))))
  {
    hide Same;
    SameShape(Obj(xs), Obj(ys));
    var p :| SameFields(xs, ys, p);
    SameShape(Str(s), Str(s));
    var u, v := Replace(xs, key, Str(s)), Replace(ys, key, Str(s));
    forall i | 0 <= i < |u| ensures u[i].key == v[p[i]].key && Same(u[i].value, v[p[i]].value) {
      assert xs[i].key == ys[p[i]].key;
    }
    assert SameFields(u, v, p);
    SameShape(Obj(u), Obj(v));
  }

  /** What is expected of the snapshot is the payload, with this repository as its source, up to order. */
  lemma {:induction false} ExpectedIsPayload(fields: seq<Field>, repository: string)
    requires WellFormed(Obj(fields))
    ensures Canon(Obj(fields)).Obj?
    ensures ExpectedPolicy(Canon(Obj(fields)), repository) == Canon(Obj(Replace(fields, "source", Str(repository))))
  {
    hide Canon, Same, WellFormed, Replace;
    CanonShape(Obj(fields));
    var canon := Canon(Obj(fields)).fields;
    CanonIsSame(Obj(fields));
    CanonIsSorted(Obj(fields));
    ReplaceKeepsSame(fields, canon, "source", repository);
    ReplaceIsWellFormed(fields, "source", repository);
    ReplaceIsWellFormed(canon, "source", repository);
    CanonIsComplete(Obj(Replace(fields, "source", Str(repository))), Obj(Replace(canon, "source", Str(repository))));
  }

  /** The snapshot has the policy of the payload, made out for this repository. */
  ghost predicate SnapshotIsPayload(snapshot: seq<Field>, payload: seq<Field>, repository: string)
    requires HasKeys(snapshot) && HasKeys(payload)
  {
    Same(Obj(PublicFields(snapshot)), Obj(Replace(PublicFields(payload), "source", Str(repository))))
  }

  /** The live ruleset has the policy of the snapshot. */
  ghost predicate LiveIsSnapshot(live: seq<Field>, snapshot: seq<Field>)
    requires HasKeys(live) && HasKeys(snapshot)
  {
    Same(Obj(PublicFields(live)), Obj(PublicFields(snapshot)))
  }

  lemma {:induction false} LiveErrorsIff(live: seq<Field>, snapshot: seq<Field>, r: Reviewed)
    requires WellFormed(Obj(live)) && WellFormed(Obj(snapshot)) && PublicPolicy(snapshot) == Some(r.publicPolicy)
    ensures LiveErrors(live, r) == [] <==> IsPublic(live) && LiveIsSnapshot(live, snapshot)
  {
    hide Canon, Same, WellFormed, Find;
    if IsPublic(live) {
      PublicIsWellFormed(live);
      PublicIsWellFormed(snapshot);
      CanonIsComplete(Obj(PublicFields(live)), Obj(PublicFields(snapshot)));
    }
  }

  lemma {:induction false} PolicyErrorIff(snapshot: seq<Field>, payload: seq<Field>, repository: string, r: Reviewed,
                                          desired: Desired)
    requires WellFormed(Obj(snapshot)) && PublicPolicy(snapshot) == Some(r.publicPolicy)
    requires WellFormed(Obj(payload)) && PublicPolicy(payload) == Some(desired.publicPolicy)
    ensures desired.publicPolicy.Obj?
    ensures r.publicPolicy == ExpectedPolicy(desired.publicPolicy, repository) <==>
      SnapshotIsPayload(snapshot, payload, repository)
  {
    hide Canon, Same, WellFormed, Find, Replace;
    PublicIsWellFormed(snapshot);
    PublicIsWellFormed(payload);
    ExpectedIsPayload(PublicFields(payload), repository);
    ReplaceIsWellFormed(PublicFields(payload), "source", repository);
    CanonIsComplete(Obj(PublicFields(snapshot)), Obj(Replace(PublicFields(payload), "source", Str(repository))));
  }

  lemma {:induction false} WithIsWellFormed(fields: seq<Field>, key: string, s: string)
    requires WellFormed(Obj(fields))
    ensures WellFormed(Obj(With(fields, key, Str(s))))
  {
    hide IsFloatText;
    if Find(fields, key).Some? {
      ReplaceIsWellFormed(fields, key, s);
    } else {
      NotFound(fields, key);
      assert forall f :: f in fields + [Field(key, Str(s))] <==> f in fields || f == Field(key, Str(s));
    }
  }

  lemma {:induction false} FindReplaced(fields: seq<Field>, key: string, value: Value, k: string)
    ensures Find(Replace(fields, key, value), k) ==
      if k == key && Find(fields, k).Some? then Some(value) else Find(fields, k)
  {
    if fields != [] {
      FindReplaced(fields[1..], key, value, k);
      assert Replace(fields, key, value)[1..] == Replace(fields[1..], key, value);
    }
  }

  lemma {:induction false} FindLast(fields: seq<Field>, f: Field, k: string)
    ensures Find(fields + [f], k) == if Find(fields, k).None? && k == f.key then Some(f.value) else Find(fields, k)
  {
    if fields == [] {
      assert fields + [f] == [f] && [f][1..] == [];
    } else {
      assert (fields + [f])[0] == fields[0] && (fields + [f])[1..] == fields[1..] + [f];
      FindLast(fields[1..], f, k);
    }
  }

  lemma {:induction false} FindWith(fields: seq<Field>, key: string, value: Value, k: string)
    ensures Find(With(fields, key, value), k) == if k == key then Some(value) else Find(fields, k)
  {
    hide Find, Replace;
    FindReplaced(fields, key, value, k);
    FindLast(fields, Field(key, value), k);
  }

  /** The desired payload is made a repository ruleset without a source; everything else in it stays. */
  lemma {:induction false} PayloadSays(doc: seq<Field>, key: string)
    ensures Find(Payload(doc), "source_type") == Some(Str("Repository"))
    ensures Find(Payload(doc), "source") == Some(Str(""))
    ensures key != "source_type" && key != "source" ==> Find(Payload(doc), key) == Find(doc, key)
  {
    hide Find, With;
    var typed := With(doc, "source_type", Str(REPOSITORY_TYPE));
    FindWith(typed, "source", Str(""), "source");
    FindWith(typed, "source", Str(""), "source_type");
    FindWith(typed, "source", Str(""), key);
    FindWith(doc, "source_type", Str(REPOSITORY_TYPE), "source_type");
    FindWith(doc, "source_type", Str(REPOSITORY_TYPE), key);
  }

  lemma {:induction false} NotFound(fields: seq<Field>, key: string)
    requires Find(fields, key).None?
    ensures forall i :: 0 <= i < |fields| ==> fields[i].key != key
  {
    if fields != [] {
      NotFound(fields[1..], key);
      assert forall i :: 0 < i < |fields| ==> fields[i] == fields[1..][i - 1];
    }
  }

  /**
   Nothing is reported exactly when there is a snapshot of this ruleset in this repository at this time with the desired
   bypass actors, and the documents themselves agree: the snapshot with the payload made out for the repository, and the
   live ruleset with the snapshot, up to the order of keys and of list elements at any depth.
  */
  lemma {:induction false} NoDriftIff(live: seq<Field>, repository: string, payload: seq<Field>, desired: Desired,
                                      snapshot: seq<Field>, r: Reviewed, time: Option<Value> -> Option<string>)
    requires WellFormed(Obj(live)) && WellFormed(Obj(payload)) && WellFormed(Obj(snapshot))
    requires PublicPolicy(Payload(payload)) == Some(desired.publicPolicy)
    requires PublicPolicy(snapshot) == Some(r.publicPolicy)
    ensures desired.publicPolicy.Obj?
    ensures Errors(live, repository, desired, Some(r), time) == [] <==>
      && r.repository == repository && Find(live, "id") == Some(Int(r.rulesetId))
      && time(Find(live, "updated_at")) == Some(r.updatedAt) && r.bypassActors == desired.bypassActors
      && SnapshotIsPayload(snapshot, Payload(payload), repository)
      && IsPublic(live) && LiveIsSnapshot(live, snapshot)
  {
    hide Canon, WellFormed, Find, Replace, PublicPolicy, LiveErrors, SnapshotIsPayload, LiveIsSnapshot, ExpectedPolicy;
    hide IsPublic;
    WithIsWellFormed(payload, "source_type", REPOSITORY_TYPE);
    WithIsWellFormed(With(payload, "source_type", Str(REPOSITORY_TYPE)), "source", "");
    PolicyErrorIff(snapshot, Payload(payload), repository, r, desired);
    LiveErrorsIff(live, snapshot, r);
    AllSilent(ErrorUnless(r.repository == repository, OtherRepository),
              ErrorUnless(Find(live, "id") == Some(Int(r.rulesetId)), OtherRuleset),
              UpdatedErrors(time(Find(live, "updated_at")), r),
              ErrorUnless(r.publicPolicy == ExpectedPolicy(desired.publicPolicy, repository), SnapshotPolicyDiffers),
              ErrorUnless(r.bypassActors == desired.bypassActors, SnapshotActorsDiffer), LiveErrors(live, r));
  }

  lemma {:induction false} AllSilent(a: seq<Drift>, b: seq<Drift>, c: seq<Drift>, d: seq<Drift>, e: seq<Drift>,
                                     f: seq<Drift>)
    ensures a + b + c + d + e + f == [] <==> a == [] && b == [] && c == [] && d == [] && e == [] && f == []
  {
    assert |a + b + c + d + e + f| == |a| + |b| + |c| + |d| + |e| + |f|;
  }
}
