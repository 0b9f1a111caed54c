/** The links of the documentation index: every section has its own anchor. */
module DocsIndexAnchors {
  import opened Prelude
  import opened DocsIndex
  import opened DocsIndexLaws

  /** The `k`-th candidate is the first one from the `n`-th on that is not taken. */
  ghost predicate FirstFree(slug: string, ids: set<string>, n: nat, k: nat) {
    n <= k && Candidate(slug, k) !in ids && forall m :: n <= m < k ==> Candidate(slug, m) in ids
  }

  /** The search always ends at an anchor that is not taken: the slug or the slug with a number behind it. */
  lemma {:induction false} SearchIsFresh(slug: string, taken: set<string>, ids: set<string>, n: nat)
    requires n >= 1 && taken <= ids && forall m :: n <= m && Candidate(slug, m) in ids ==> Candidate(slug, m) in taken
    ensures exists k :: FirstFree(slug, ids, n, k) && Search(slug, taken, n) == Candidate(slug, k)
    decreases |taken|
  {
    hide Candidate;
    var c := Candidate(slug, n);
    if c in taken {
      assert |taken - {c}| < |taken|;
      forall m | n + 1 <= m && Candidate(slug, m) in ids ensures Candidate(slug, m) in taken - {c} {
        CandidatesDiffer(slug, n, m);
      }
      SearchIsFresh(slug, taken - {c}, ids, n + 1);
      var k :| FirstFree(slug, ids, n + 1, k) && Search(slug, taken - {c}, n + 1) == Candidate(slug, k);
      assert FirstFree(slug, ids, n, k);
    } else {
      assert FirstFree(slug, ids, n, n);
    }
  }

  /** A generated anchor is the first of slug, slug-2, slug-3, ... that no id of the page uses. */
  lemma {:induction false} AnchorIsFresh(slug: string, ids: set<string>)
    ensures FreshAnchor(slug, ids) !in ids
    ensures exists k :: FirstFree(slug, ids, 1, k) && FreshAnchor(slug, ids) == Candidate(slug, k)
  {
    hide Candidate, Search;
    SearchIsFresh(slug, ids, ids, 1);
  }

  // ------------------------------------------------------------ whole pages

  function All(s: State): seq<Section> {
    s.sections + [s.current]
  }

  /** Two sections with the same anchor have none, or one that the page spells out. */
  ghost predicate Unambiguous(sections: seq<Section>, explicit: set<string>) {
    forall i, j :: 0 <= i < j < |sections| && sections[i].anchor == sections[j].anchor ==>
      sections[i].anchor == "" || sections[i].anchor in explicit
  }

  predicate Known(sections: seq<Section>, ids: set<string>) {
    forall i :: 0 <= i < |sections| ==> sections[i].anchor == "" || sections[i].anchor in ids
  }

  ghost predicate Linked(s: State, explicit: set<string>) {
    && explicit <= s.ids
    && Known(All(s), s.ids)
    && Unambiguous(All(s), explicit)
    && (s.headingId != "" ==> s.headingId in explicit)
  }

  lemma {:induction false} FlushLinks(s: State, explicit: set<string>)
    requires Linked(s, explicit)
    ensures Linked(Flush(s), explicit)
  {
    hide Compact;
    FlushFrame(s);
    var t := Flush(s);
    if t.sections != s.sections {
      assert t.sections == All(s);
    }
    assert All(t)[..|All(t)| - 1] == t.sections && All(t)[|All(t)| - 1] == EMPTY;
    assert forall i :: 0 <= i < |t.sections| ==> All(t)[i] == All(s)[i];
  }

  lemma {:induction false} BreakLinks(s: State, explicit: set<string>)
    requires Linked(s, explicit)
    ensures Linked(Break(s), explicit)
  {
    Relabelled(s, Break(s), explicit);
  }

  /** Only the anchors matter. */
  lemma {:induction false} Relabelled(s: State, t: State, explicit: set<string>)
    requires Linked(s, explicit)
    requires t.sections == s.sections && t.current.anchor == s.current.anchor && s.ids <= t.ids
    requires t.headingId == s.headingId
    ensures Linked(t, explicit)
  {
    assert forall i :: 0 <= i < |All(t)| ==> All(t)[i].anchor == All(s)[i].anchor;
  }

  lemma {:induction false} CloseLinks(s: State, explicit: set<string>)
    requires Linked(s, explicit) && s.heading.Some?
    ensures Linked(CloseHeading(s), explicit)
  {
    hide Compact, FreshAnchor, Slug;
    var t := CloseHeading(s);
    var last := |s.sections|;
    assert forall i :: 0 <= i < last ==> All(t)[i] == All(s)[i];
    assert All(t)[last] == t.current;
    if s.headingId == "" {
      AnchorIsFresh(Slug(Compact(s.heading.value)), s.ids);
      AnchorIsNew(s, t.current.anchor);
    }
  }

  lemma {:induction false} AnchorIsNew(s: State, anchor: string)
    requires Known(All(s), s.ids) && anchor !in s.ids
    ensures forall i :: 0 <= i < |s.sections| && s.sections[i].anchor != "" ==> s.sections[i].anchor != anchor
  {
    assert forall i :: 0 <= i < |s.sections| ==> All(s)[i] == s.sections[i];
  }

  lemma {:induction false} StartInMainLinks(s: State, tag: string, attrs: Attributes, explicit: set<string>)
    requires Linked(s, explicit) && (IdOf(attrs) != "" ==> IdOf(attrs) in explicit)
    ensures Linked(StartInMain(s, tag, attrs), explicit)
  {
    hide IdOf, OpensHeading, BreaksAtStart, IsDense, Flush, Break, Linked;
    var s1 := s.(dense := if IsDense(tag) then s.dense + 1 else s.dense,
                 ids := if IdOf(attrs) != "" then s.ids + {IdOf(attrs)} else s.ids);
    Relabelled(s, s1, explicit);
    FlushLinks(s1, explicit);
    var s2 := if OpensHeading(tag, attrs) then Flush(s1).(heading := Some([]), headingId := IdOf(attrs)) else s1;
    Renamed(Flush(s1), IdOf(attrs), explicit);
    BreakLinks(s2, explicit);
  }

  lemma {:induction false} Renamed(s: State, id: string, explicit: set<string>)
    requires Linked(s, explicit) && (id != "" ==> id in explicit)
    ensures Linked(s.(heading := Some([]), headingId := id), explicit)
  {
    var t := s.(heading := Some([]), headingId := id);
    assert All(t) == All(s);
  }

  lemma {:induction false} StartLinks(s: State, tag: string, attrs: Attributes, explicit: set<string>)
    requires Linked(s, explicit) && (IdOf(attrs) != "" ==> IdOf(attrs) in explicit)
    ensures Linked(StepStart(s, tag, attrs), explicit)
  {
    hide IsVoid, Skips, IsTutorial, StartInMain, IdOf, Linked;
    var s0 := SeeBody(s, tag, attrs);
    Relabelled(s, s0, explicit);
    Relabelled(s, s0.(skipped := s0.skipped + [tag]), explicit);
    var s1 := Enter(s0, tag);
    Relabelled(s, s1, explicit);
    StartInMainLinks(s1, tag, attrs, explicit);
  }

  lemma {:induction false} EndLinks(s: State, tag: string, explicit: set<string>)
    requires Linked(s, explicit)
    ensures Linked(StepEnd(s, tag), explicit)
  {
    hide ClosesHeading, IsDense, BreaksAtEnd, Break, CloseHeading, Flush, Linked;
    if s.skipped != [] {
      Relabelled(s, StepEnd(s, tag), explicit);
    } else {
      if ClosesHeading(tag) && s.heading.Some? {
        CloseLinks(s, explicit);
      }
      var s1 := EndHeading(s, tag);
      FlushLinks(s1, explicit);
      Relabelled(if tag == "main" then Flush(s1) else s1, Leave(s1, tag), explicit);
      BreakLinks(Leave(s1, tag), explicit);
    }
  }

  lemma {:induction false} StepLinks(s: State, e: Event, explicit: set<string>)
    requires Linked(s, explicit) && (e.Start? && IdOf(e.attrs) != "" ==> IdOf(e.attrs) in explicit)
    ensures Linked(Step(s, e), explicit)
  {
    hide StepStart, StepEnd, IdOf, Linked;
    match e {
      case Start(tag, attrs) => StartLinks(s, tag, attrs, explicit);
      case End(tag) => EndLinks(s, tag, explicit);
      case Data(text) => Relabelled(s, Step(s, e), explicit);
    }
  }

  lemma {:induction false} RunLinks(s: State, events: seq<Event>, explicit: set<string>)
    requires Linked(s, explicit) && ExplicitIds(events) <= explicit
    ensures Linked(Run(s, events), explicit)
    decreases |events|
  {
    hide Step, IdOf, Linked;
    if events != [] {
      var e := events[0];
      assert e in events;
      assert e.Start? && IdOf(e.attrs) != "" ==> IdOf(e.attrs) in ExplicitIds(events);
      StepLinks(s, e, explicit);
      assert forall x :: x in events[1..] ==> x in events;
      RunLinks(Step(s, e), events[1..], explicit);
    }
  }

  /** On every page, well-nested or not, two sections share a link only if the page itself spells out that id. */
  lemma {:induction false} LinksAreUnambiguous(events: seq<Event>)
    ensures var explicit := ExplicitIds(events);
      Unambiguous(Run(Initial(explicit), events).sections, explicit)
  {
    hide Run;
    var explicit := ExplicitIds(events);
    RunLinks(Initial(explicit), events, explicit);
    var t := Run(Initial(explicit), events);
    assert forall i :: 0 <= i < |t.sections| ==> t.sections[i] == All(t)[i];
  }

  // ---------------------------------------------------- generated anchors

  /** The anchor an event generates, if it closes a heading that has no id of its own. */
  function MadeBy(s: State, e: Event): seq<string> {
    if e.End? && s.skipped == [] && ClosesHeading(e.tag) && s.heading.Some?
      && s.headingId == "" then [AnchorFor(s)] else []
  }

  function Made(s: State, events: seq<Event>): seq<string>
    decreases |events|
  {
    if events == [] then [] else MadeBy(s, events[0]) + Made(Step(s, events[0]), events[1..])
  }

  lemma {:induction false} StartKeepsIds(s: State, tag: string, attrs: Attributes)
    ensures s.ids <= StepStart(s, tag, attrs).ids
  {
    hide IsVoid, Skips, IsTutorial, OpensHeading, BreaksAtStart, IsDense, Flush, IdOf;
    var s1 := Enter(SeeBody(s, tag, attrs), tag);
    FlushFrame(s1.(dense := if IsDense(tag) then s1.dense + 1 else s1.dense,
                   ids := if IdOf(attrs) != "" then s1.ids + {IdOf(attrs)} else s1.ids));
  }

  lemma {:induction false} EndKeepsIds(s: State, tag: string)
    ensures s.ids + (set a | a in MadeBy(s, End(tag))) <= StepEnd(s, tag).ids
  {
    hide BreaksAtEnd, IsDense, ClosesHeading, Flush, AnchorFor, Compact;
    FlushFrame(EndHeading(s, tag));
  }

  lemma {:induction false} StepKeepsIds(s: State, e: Event)
    ensures s.ids + (set a | a in MadeBy(s, e)) <= Step(s, e).ids
  {
    hide StepStart, StepEnd;
    match e {
      case Start(tag, attrs) => StartKeepsIds(s, tag, attrs);
      case End(tag) => EndKeepsIds(s, tag);
      case Data(text) =>
    }
  }

  /** Pairwise different, and none of them in `ids`. */
  ghost predicate FreshFor(made: seq<string>, ids: set<string>) {
    && (forall i :: 0 <= i < |made| ==> made[i] !in ids)
    && (forall i, j :: 0 <= i < j < |made| ==> made[i] != made[j])
  }

  /** The anchors generated in a run are pairwise different, and none of them was taken when the run began. */
  lemma {:induction false} MadeAreFresh(s: State, events: seq<Event>)
    ensures FreshFor(Made(s, events), s.ids)
    decreases |events|
  {
    hide Step, FreshAnchor, Slug, Compact, ClosesHeading, FreshFor;
    NothingMade(s.ids);
    if events != [] {
      var e, t := events[0], Step(s, events[0]);
      var first, rest := MadeBy(s, e), Made(Step(s, e), events[1..]);
      StepKeepsIds(s, e);
      MadeAreFresh(t, events[1..]);
      if s.heading.Some? {
        AnchorIsFresh(Slug(Compact(s.heading.value)), s.ids);
      }
      assert forall a :: a in first ==> a in t.ids && a !in s.ids;
      assert |first| <= 1;
      Prepended(first, rest, s.ids, t.ids);
    }
  }

  lemma {:induction false} NothingMade(ids: set<string>)
    ensures FreshFor([], ids)
  {
  }

  lemma {:induction false} Prepended(first: seq<string>, rest: seq<string>, before: set<string>, after: set<string>)
    requires |first| <= 1 && before <= after && forall a :: a in first ==> a in after && a !in before
    requires FreshFor(rest, after)
    ensures FreshFor(first + rest, before)
  {
    if first == [] {
      assert first + rest == rest;
    } else {
      assert first[0] in first;
      assert forall i :: 0 < i < |first + rest| ==> (first + rest)[i] == rest[i - 1];
    }
  }

  /** With the ids of the page collected first, no generated anchor is an id of the page, not even of a later tag. */
  lemma {:induction false} MadeAvoidTheWholePage(events: seq<Event>)
    ensures FreshFor(Made(Initial(ExplicitIds(events)), events), ExplicitIds(events))
  {
    hide *;
    MadeAreFresh(Initial(ExplicitIds(events)), events);
    assert Initial(ExplicitIds(events)).ids == ExplicitIds(events) by { InitialIds(ExplicitIds(events)); }
  }

  lemma {:induction false} InitialIds(ids: set<string>)
    ensures Initial(ids).ids == ids
  {
  }
}
