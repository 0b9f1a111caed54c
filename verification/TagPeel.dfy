/** `resolve_tag_commit`: following annotated tags to the commit they stand for. */
module TagPeel {
  import opened Prelude
  import opened Text

  /** A reference to a Git object: its name, and the type the referring object claims for it. */
  datatype Ref = Ref(sha: string, kind: string)

  datatype Failure = Unavailable | Cycle | NotFullSha | UnsupportedType | TooDeep

  /** What an annotated tag points to, if that can be read. */
  type Targets = string -> Option<Ref>

  const DEPTH: nat := 8

  /** The reference after `k` annotated tags. */
  function Peeled(start: Ref, targets: Targets, k: nat): Option<Ref> {
    if k == 0 then Some(start)
    else match Peeled(start, targets, k - 1)
      case None => None
      case Some(r) => if r.kind == "tag" then targets(r.sha) else None
  }

  predicate SeenBefore(start: Ref, targets: Targets, k: nat, sha: string) {
    exists j :: 0 <= j < k && Peeled(start, targets, j).Some? && Peeled(start, targets, j).value.sha == sha
  }

  /** After `k` annotated tags there is a commit, and no object was met twice on the way. */
  predicate ReachesCommit(start: Ref, targets: Targets, k: nat, sha: string) {
    && Peeled(start, targets, k) == Some(Ref(sha, "commit")) && HexOf(sha, 40)
    && forall j :: 0 <= j <= k ==> Unrepeated(start, targets, j)
  }

  predicate Unrepeated(start: Ref, targets: Targets, j: nat) {
    Peeled(start, targets, j).Some? && !SeenBefore(start, targets, j, Peeled(start, targets, j).value.sha)
  }

  /**
   The tag and its commit, exactly when fewer than eight annotated tags lead from one to the other without a cycle.
  */
  method ResolveTagCommit(start: Ref, targets: Targets) returns (r: Result<(string, string), Failure>)
    ensures r.Ok? <==> exists k, sha :: 0 <= k < DEPTH && ReachesCommit(start, targets, k, sha)
    ensures r.Ok? ==>
      r.value.0 == start.sha && exists k :: 0 <= k < DEPTH && ReachesCommit(start, targets, k, r.value.1)
  {
    hide HexOf;
    var current := start;
    var seen: set<string> := {};
    for k := 0 to DEPTH
      invariant Peeled(start, targets, k) == Some(current)
      invariant forall sha :: sha in seen <==> SeenBefore(start, targets, k, sha)
      invariant forall j :: 0 <= j < k ==>
        Unrepeated(start, targets, j) && Peeled(start, targets, j).value.kind == "tag"
    {
      if current.sha in seen {
        Stuck(start, targets, k);
        return Err(Cycle);
      }
      assert Unrepeated(start, targets, k);
      SeenGrows(start, targets, k, current.sha);
      seen := seen + {current.sha};
      if current.kind == "commit" {
        Stuck(start, targets, k);
        if !HexOf(current.sha, 40) {
          return Err(NotFullSha);
        }
        assert ReachesCommit(start, targets, k, current.sha);
        return Ok((start.sha, current.sha));
      }
      if current.kind != "tag" {
        Stuck(start, targets, k);
        return Err(UnsupportedType);
      }
      var next := targets(current.sha);
      if next.None? {
        Stuck(start, targets, k);
        return Err(Unavailable);
      }
      current := next.value;
    }
    r := Err(TooDeep);
  }

  lemma {:induction false} SeenGrows(start: Ref, targets: Targets, k: nat, sha: string)
    requires Peeled(start, targets, k).Some? && Peeled(start, targets, k).value.sha == sha
    ensures forall x :: SeenBefore(start, targets, k + 1, x) <==> SeenBefore(start, targets, k, x) || x == sha
  {
  }

  /** Past a reference that is no tag, or whose target cannot be read, there is nothing. */
  lemma {:induction false} Ends(start: Ref, targets: Targets, k: nat, n: nat)
    requires k < n && Peeled(start, targets, k + 1).None?
    ensures Peeled(start, targets, n).None?
  {
    if n > k + 1 {
      Ends(start, targets, k, n - 1);
    }
  }

  /** After `k` tags the walk is decided if it met an object again, is not at a tag, or cannot go on. */
  lemma {:induction false} Stuck(start: Ref, targets: Targets, k: nat)
    requires Peeled(start, targets, k).Some?
    requires !Unrepeated(start, targets, k) || Peeled(start, targets, k + 1).None?
    requires forall j :: 0 <= j < k ==> Peeled(start, targets, j).Some? && Peeled(start, targets, j).value.kind == "tag"
    ensures forall n, sha :: n != k ==> !ReachesCommit(start, targets, n, sha)
    ensures !Unrepeated(start, targets, k) ==> forall sha :: !ReachesCommit(start, targets, k, sha)
  {
    hide HexOf;
    assert "commit" != "tag";
    forall n: nat, sha | n != k && ReachesCommit(start, targets, n, sha) ensures false {
      if n > k {
        assert Unrepeated(start, targets, k) && Unrepeated(start, targets, n);
        Ends(start, targets, k, n);
      }
    }
  }

  /** A tag stands for one commit only. */
  lemma {:induction false} CommitIsUnique(start: Ref, targets: Targets, k: nat, n: nat, a: string, b: string)
    requires ReachesCommit(start, targets, k, a) && ReachesCommit(start, targets, n, b)
    ensures k == n && a == b
  {
    hide HexOf;
    assert "commit" != "tag";
    if k < n {
      Ends(start, targets, k, n);
    } else if n < k {
      Ends(start, targets, n, k);
    }
  }
}
