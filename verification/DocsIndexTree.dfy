/** The documentation indexer on well-nested pages: what ends up in the sections is the text of the page. */
module DocsIndexTree {
  import opened Prelude
  import opened DocsIndex
  import opened DocsIndexLaws

  datatype Node =
    | Leaf(text: string)
    | Element(tag: string, attrs: Attributes, children: seq<Node>)
    | Void(tag: string, attrs: Attributes, closed: bool)

  function NodeEvents(n: Node): seq<Event> {
    match n
    case Leaf(text) => [Data(text)]
    case Element(tag, attrs, children) => [Start(tag, attrs)] + Events(children) + [End(tag)]
    case Void(tag, attrs, closed) => [Start(tag, attrs)] + if closed then [End(tag)] else []
  }

  function Events(nodes: seq<Node>): seq<Event> {
    if nodes == [] then [] else NodeEvents(nodes[0]) + Events(nodes[1..])
  }

  /** Exactly the void tags stand alone. */
  predicate NodeTagged(n: Node) {
    match n
    case Leaf(_) => true
    case Element(tag, _, children) => !IsVoid(tag) && Tagged(children)
    case Void(tag, _, _) => IsVoid(tag)
  }

  predicate Tagged(nodes: seq<Node>) {
    nodes == [] || (NodeTagged(nodes[0]) && Tagged(nodes[1..]))
  }

  /** Outside skipped elements no `main` is inside a `main`, and no heading or summary is inside a heading. */
  predicate NodeNested(n: Node, inMain: bool, open: bool) {
    match n
    case Leaf(_) => true
    case Element(tag, attrs, children) =>
      Skips(tag, attrs) ||
      (&& (tag == "main" ==> !inMain && !open)
       && (open ==> !ClosesHeading(tag))
       && Nested(children, inMain || tag == "main", open || (inMain && OpensHeading(tag, attrs))))
    case Void(_, _, _) => true
  }

  predicate Nested(nodes: seq<Node>, inMain: bool, open: bool) {
    nodes == [] || (NodeNested(nodes[0], inMain, open) && Nested(nodes[1..], inMain, open))
  }

  // ------------------------------------------- the text of a page, by its tree

  function NodeText(n: Node, inMain: bool): string {
    match n
    case Leaf(text) => if inMain then Squash(text) else ""
    case Element(tag, attrs, children) =>
      if Skips(tag, attrs) then "" else TreeText(children, inMain || tag == "main")
    case Void(_, _, _) => ""
  }

  /** The text inside `main` and outside skipped elements. */
  function TreeText(nodes: seq<Node>, inMain: bool): string {
    if nodes == [] then "" else NodeText(nodes[0], inMain) + TreeText(nodes[1..], inMain)
  }

  function NodeProse(n: Node, inMain: bool, out: bool): string {
    match n
    case Leaf(text) => if inMain && !out then Squash(text) else ""
    case Element(tag, attrs, children) =>
      if Skips(tag, attrs) then ""
      else TreeProse(children, inMain || tag == "main", out || (inMain && (IsDense(tag) || OpensHeading(tag, attrs))))
    case Void(_, _, _) => ""
  }

  /** The part of this text outside `pre`, `table` and headings. */
  function TreeProse(nodes: seq<Node>, inMain: bool, out: bool): string {
    if nodes == [] then "" else NodeProse(nodes[0], inMain, out) + TreeProse(nodes[1..], inMain, out)
  }

  // ---------------------------------------------------------------- streams

  /** No heading opens and no `main` ends while a heading is open. */
  predicate Tidy(c: Control, events: seq<Event>)
    decreases |events|
  {
    events == [] || (TidyAt(c, events[0]) && Tidy(Move(c, events[0]), events[1..]))
  }

  predicate TidyAt(c: Control, e: Event) {
    c.open ==> !Opens(c, e) && (e == End("main") ==> c.skipped != [])
  }

  lemma {:induction false} TidyLosesNothing(s: State, events: seq<Event>)
    requires Tidy(ControlOf(s), events)
    ensures Lost(s, events) == ""
    decreases |events|
  {
    hide Step, Opens, Move;
    if events != [] {
      StepMoves(s, events[0]);
      TidyLosesNothing(Step(s, events[0]), events[1..]);
    }
  }

  /** Outside `main` no heading is open and nothing is left in the current section. */
  predicate Filed(s: State) {
    !s.inMain ==> s.heading.None? && s.current == EMPTY
  }

  lemma {:induction false} StepFiles(s: State, e: Event)
    requires Filed(s) && TidyAt(ControlOf(s), e)
    ensures Filed(Step(s, e))
  {
    hide Step, OpensHeading, Skips, ClosesHeading;
    StepMoves(s, e);
    StepIs(s, e);
    match e {
      case Start(tag, attrs) => StartFiles(s, tag, attrs);
      case End(tag) => EndFiles(s, tag);
      case Data(text) => DataFiles(s, text);
    }
  }

  lemma {:induction false} StartFiles(s: State, tag: string, attrs: Attributes)
    requires Filed(s)
    ensures Filed(StepStart(s, tag, attrs))
  {
    hide IsVoid, Skips, IsTutorial, StartInMain;
    StartInMainMoves(Enter(SeeBody(s, tag, attrs), tag), tag, attrs);
  }

  lemma {:induction false} EndFiles(s: State, tag: string)
    requires Filed(s) && TidyAt(ControlOf(s), End(tag))
    ensures Filed(StepEnd(s, tag))
  {
    hide BreaksAtEnd, IsDense, Flush, AnchorFor, Compact, OpensHeading, Skips;
    FlushFrame(EndHeading(s, tag));
    MainIsPlain();
  }

  lemma {:induction false} MainIsPlain()
    ensures !ClosesHeading("main") && !IsDense("main") && !IsVoid("main") && !BreaksAtEnd("main")
  {
  }

  lemma {:induction false} DataFiles(s: State, text: string)
    requires Filed(s)
    ensures Filed(StepData(s, text))
  {
  }

  lemma {:induction false} RunFiles(s: State, events: seq<Event>)
    requires Filed(s) && Tidy(ControlOf(s), events)
    ensures Filed(Run(s, events))
    decreases |events|
  {
    hide Step, Filed, Move, TidyAt;
    if events != [] {
      StepMoves(s, events[0]);
      StepFiles(s, events[0]);
      RunFiles(Step(s, events[0]), events[1..]);
    }
  }

  /** Everything said of a stream is said of its parts. */
  lemma {:induction false} StreamsConcat(c: Control, a: seq<Event>, b: seq<Event>)
    ensures var d := Moves(c, a);
      && Moves(c, a + b) == Moves(d, b)
      && StreamText(c, a + b) == StreamText(c, a) + StreamText(d, b)
      && StreamProse(c, a + b) == StreamProse(c, a) + StreamProse(d, b)
      && (Tidy(c, a + b) <==> Tidy(c, a) && Tidy(d, b))
      && (StaysSkipped(c, a + b) <==> StaysSkipped(c, a) && StaysSkipped(d, b))
    decreases |a|
  {
    hide Move, TextOf, InProse, TidyAt;
    if a == [] {
      assert a + b == b;
    } else {
      assert (a + b)[0] == a[0] && (a + b)[1..] == a[1..] + b;
      StreamsConcat(Move(c, a[0]), a[1..], b);
    }
  }

  lemma {:induction false} OneEvent(c: Control, e: Event)
    ensures Moves(c, [e]) == Move(c, e)
    ensures StreamText(c, [e]) == TextOf(c, e)
    ensures StreamProse(c, [e]) == if InProse(c) then TextOf(c, e) else ""
    ensures Tidy(c, [e]) <==> TidyAt(c, e)
    ensures StaysSkipped(c, [e]) <==> c.skipped != []
  {
    assert [e][1..] == [];
  }

  // ------------------------------------------------------- skipped elements

  /** What a stream of events inside a skipped element amounts to: nothing. */
  predicate Inert(c: Control, events: seq<Event>) {
    && Moves(c, events) == c && StreamText(c, events) == "" && StreamProse(c, events) == "" && Tidy(c, events)
    && StaysSkipped(c, events)
  }

  /** The stack is not empty before any of the events. */
  predicate StaysSkipped(c: Control, events: seq<Event>)
    decreases |events|
  {
    events == [] || (c.skipped != [] && StaysSkipped(Move(c, events[0]), events[1..]))
  }

  lemma {:induction false} InertConcat(c: Control, a: seq<Event>, b: seq<Event>)
    requires Inert(c, a) && Inert(c, b)
    ensures Inert(c, a + b)
  {
    hide Moves, StreamText, StreamProse, Tidy;
    StreamsConcat(c, a, b);
  }

  /** An element and its contents, where the end tag undoes what the start tag did. */
  lemma {:induction false} InertElement(c: Control, start: Event, inner: seq<Event>, end: Event)
    requires TextOf(c, start) == "" && TidyAt(c, start) && c.skipped != [] && Move(c, start).skipped != []
    requires Inert(Move(c, start), inner)
    requires Move(Move(c, start), end) == c && TextOf(Move(c, start), end) == "" && TidyAt(Move(c, start), end)
    ensures Inert(c, [start] + inner + [end])
  {
    hide Moves, StreamText, StreamProse, Tidy, Move, TextOf, TidyAt, InProse;
    OneEvent(c, start);
    OneEvent(Move(c, start), end);
    StreamsConcat(Move(c, start), inner, [end]);
    StreamsConcat(c, [start], inner + [end]);
    assert [start] + inner + [end] == [start] + (inner + [end]);
  }

  lemma {:induction false} SkippedNode(c: Control, n: Node)
    requires NodeTagged(n) && c.skipped != [] && !IsVoid(c.skipped[|c.skipped| - 1])
    ensures Inert(c, NodeEvents(n))
    decreases n
  {
    hide IsVoid, Skips, ClosesHeading, OpensHeading, IsDense;
    match n {
      case Leaf(text) => OneEvent(c, Data(text));
      case Element(tag, attrs, children) =>
        SkippedNodes(Move(c, Start(tag, attrs)), children);
        InertElement(c, Start(tag, attrs), Events(children), End(tag));
      case Void(tag, attrs, closed) =>
        OneEvent(c, Start(tag, attrs));
        if closed {
          OneEvent(c, End(tag));
          InertConcat(c, [Start(tag, attrs)], [End(tag)]);
        } else {
          assert [Start(tag, attrs)] + [] == [Start(tag, attrs)];
        }
    }
  }

  lemma {:induction false} SkippedNodes(c: Control, nodes: seq<Node>)
    requires Tagged(nodes) && c.skipped != [] && !IsVoid(c.skipped[|c.skipped| - 1])
    ensures Inert(c, Events(nodes))
    decreases nodes
  {
    hide IsVoid, NodeEvents;
    if nodes != [] {
      SkippedNode(c, nodes[0]);
      SkippedNodes(c, nodes[1..]);
      InertConcat(c, NodeEvents(nodes[0]), Events(nodes[1..]));
    }
  }

  // --------------------------------------------------------- balanced pages

  /** A run over well-nested nodes: the control returns to where it was, and the text is the text of the tree. */
  predicate Balanced(c: Control, events: seq<Event>, text: string, prose: string) {
    Moves(c, events) == c && StreamText(c, events) == text && StreamProse(c, events) == prose && Tidy(c, events)
  }

  lemma {:induction false} BalancedConcat(c: Control, a: seq<Event>, b: seq<Event>, text: string, prose: string,
                                          text': string, prose': string)
    requires Balanced(c, a, text, prose) && Balanced(c, b, text', prose')
    ensures Balanced(c, a + b, text + text', prose + prose')
  {
    hide Moves, StreamText, StreamProse, Tidy;
    StreamsConcat(c, a, b);
  }

  lemma {:induction false} BalancedElement(c: Control, start: Event, inner: seq<Event>, end: Event, text: string,
                                           prose: string)
    requires TextOf(c, start) == "" && TidyAt(c, start)
    requires Balanced(Move(c, start), inner, text, prose)
    requires Move(Move(c, start), end) == c && TextOf(Move(c, start), end) == "" && TidyAt(Move(c, start), end)
    ensures Balanced(c, [start] + inner + [end], text, prose)
  {
    hide Moves, StreamText, StreamProse, Tidy, Move, TextOf, TidyAt, InProse;
    OneEvent(c, start);
    OneEvent(Move(c, start), end);
    StreamsConcat(Move(c, start), inner, [end]);
    StreamsConcat(c, [start], inner + [end]);
    assert [start] + inner + [end] == [start] + (inner + [end]);
    assert forall x: string :: x + "" == x && "" + x == x;
  }

  lemma {:induction false} VoidIsPlain(tag: string, attrs: Attributes)
    requires IsVoid(tag)
    ensures tag != "main" && !IsDense(tag) && !ClosesHeading(tag) && !OpensHeading(tag, attrs)
  {
  }

  lemma {:induction false} OpeningCloses(tag: string, attrs: Attributes)
    requires OpensHeading(tag, attrs)
    ensures ClosesHeading(tag) && !IsDense(tag) && tag != "main"
  {
  }

  lemma {:induction false} BalancedVoid(c: Control, tag: string, attrs: Attributes, closed: bool)
    requires IsVoid(tag) && c.skipped == []
    ensures Balanced(c, NodeEvents(Void(tag, attrs, closed)), "", "")
  {
    VoidIsPlain(tag, attrs);
    hide IsVoid, Skips, ClosesHeading, OpensHeading, IsDense;
    OneEvent(c, Start(tag, attrs));
    OneEvent(c, End(tag));
    if closed {
      BalancedConcat(c, [Start(tag, attrs)], [End(tag)], "", "", "", "");
    } else {
      assert [Start(tag, attrs)] + [] == [Start(tag, attrs)];
    }
  }

  lemma {:induction false} SkippedElement(c: Control, n: Node)
    requires n.Element? && NodeTagged(n) && Skips(n.tag, n.attrs) && c.skipped == []
    ensures Balanced(c, NodeEvents(n), "", "")
  {
    hide IsVoid, Skips, ClosesHeading, OpensHeading, IsDense;
    SkippedNodes(Move(c, Start(n.tag, n.attrs)), n.children);
    BalancedElement(c, Start(n.tag, n.attrs), Events(n.children), End(n.tag), "", "");
  }

  /** The end tag of an element undoes its start tag. */
  lemma {:induction false} EndUndoesStart(c: Control, tag: string, attrs: Attributes)
    requires c.skipped == [] && !IsVoid(tag) && !Skips(tag, attrs)
    requires tag == "main" ==> !c.inMain && !c.open
    requires c.open ==> !ClosesHeading(tag)
    ensures var d := Move(c, Start(tag, attrs));
      && d.skipped == [] && d.inMain == (c.inMain || tag == "main")
      && d.open == (c.open || (c.inMain && OpensHeading(tag, attrs)))
      && (d.dense > 0 <==> c.dense > 0 || (c.inMain && IsDense(tag)))
      && Move(d, End(tag)) == c && TidyAt(c, Start(tag, attrs)) && TidyAt(d, End(tag))
  {
    MainIsPlain();
    if OpensHeading(tag, attrs) {
      OpeningCloses(tag, attrs);
    }
    hide IsVoid, Skips, ClosesHeading, OpensHeading, IsDense;
  }

  lemma {:induction false} BalancedNode(c: Control, n: Node)
    requires c.skipped == [] && NodeTagged(n) && NodeNested(n, c.inMain, c.open)
    ensures Balanced(c, NodeEvents(n), NodeText(n, c.inMain), NodeProse(n, c.inMain, !InProse(c)))
    decreases n
  {
    hide IsVoid, Skips, ClosesHeading, OpensHeading, IsDense, Balanced, Moves, StreamText, StreamProse, Tidy;
    match n {
      case Leaf(text) =>
        OneEvent(c, Data(text));
        BalancedLeaf(c, text);
      case Element(tag, attrs, children) =>
        if Skips(tag, attrs) {
          SkippedElement(c, n);
        } else {
          EndUndoesStart(c, tag, attrs);
          var d := Move(c, Start(tag, attrs));
          BalancedNodes(d, children);
          BalancedElement(c, Start(tag, attrs), Events(children), End(tag),
                          TreeText(children, d.inMain), TreeProse(children, d.inMain, !InProse(d)));
          assert !InProse(d) == (!InProse(c) || (c.inMain && (IsDense(tag) || OpensHeading(tag, attrs))));
        }
      case Void(tag, attrs, closed) => BalancedVoid(c, tag, attrs, closed);
    }
  }

  lemma {:induction false} BalancedLeaf(c: Control, text: string)
    requires c.skipped == []
    ensures Balanced(c, [Data(text)], NodeText(Leaf(text), c.inMain), NodeProse(Leaf(text), c.inMain, !InProse(c)))
  {
    OneEvent(c, Data(text));
  }

  lemma {:induction false} BalancedNodes(c: Control, nodes: seq<Node>)
    requires c.skipped == [] && Tagged(nodes) && Nested(nodes, c.inMain, c.open)
    ensures Balanced(c, Events(nodes), TreeText(nodes, c.inMain), TreeProse(nodes, c.inMain, !InProse(c)))
    decreases nodes
  {
    hide NodeEvents, NodeText, NodeProse, InProse;
    if nodes != [] {
      BalancedNode(c, nodes[0]);
      BalancedNodes(c, nodes[1..]);
      BalancedConcat(c, NodeEvents(nodes[0]), Events(nodes[1..]), NodeText(nodes[0], c.inMain),
                     NodeProse(nodes[0], c.inMain, !InProse(c)), TreeText(nodes[1..], c.inMain),
                     TreeProse(nodes[1..], c.inMain, !InProse(c)));
    }
  }

  /**
   Text conservation: on a well-nested page the sections hold exactly the text of `main`, in order, their previews
   hold exactly the prose, and nothing is left over in the machine.
  */
  lemma {:induction false} PageIsConserved(ids: set<string>, page: seq<Node>)
    requires Tagged(page) && Nested(page, false, false)
    ensures var t := Run(Initial(ids), Events(page));
      && SectionsInk(t.sections) == TreeText(page, false)
      && SectionsProse(t.sections) == TreeProse(page, false, false)
      && t.current == EMPTY && t.heading.None? && t.skipped == [] && t.dense == 0 && !t.inMain
  {
    hide Run, Inv, Held, HeldProse, Moves, StreamText, StreamProse, Lost, TreeText, TreeProse, Events, Nested, Tagged;
    hide Ink;
    hide SectionInk, SectionsInk, SectionsProse, Tidy;
    var s := Initial(ids);
    var c := ControlOf(s);
    StartsEmpty(ids);
    BalancedNodes(c, page);
    TidyLosesNothing(s, Events(page));
    StreamConserves(s, Events(page));
    RunFiles(s, Events(page));
    var t := Run(s, Events(page));
    assert ControlOf(t) == c;
    NothingOpen(t);
    assert forall x: string :: "" + x == x;
  }

  lemma {:induction false} StartsEmpty(ids: set<string>)
    ensures var s := Initial(ids); Inv(s) && Held(s) == "" && HeldProse(s) == "" && Filed(s) && InProse(ControlOf(s))
  {
    EmptyInk();
  }

  lemma {:induction false} NothingOpen(t: State)
    requires t.current == EMPTY && t.heading.None?
    ensures Held(t) == SectionsInk(t.sections) && HeldProse(t) == SectionsProse(t.sections)
  {
    hide SectionsInk, SectionsProse;
    EmptyInk();
  }

  // -------------------------------------------------- the rest of the state

  function KindAt(kind: string, e: Event): string {
    if e.Start? && e.tag == "body" then if IsTutorial(e.attrs) then "tutorial" else "" else kind
  }

  function KindAfter(kind: string, events: seq<Event>): string
    decreases |events|
  {
    if events == [] then kind else KindAfter(KindAt(kind, events[0]), events[1..])
  }

  lemma {:induction false} SkippedStep(s: State, e: Event)
    requires s.skipped != []
    ensures var t := Step(s, e); t == s.(skipped := t.skipped, pageKind := KindAt(s.pageKind, e))
  {
    hide IsTutorial, IsVoid, Skips, Enter, StartInMain, Leave, EndHeading;
  }

  /** In a skipped element only the stack and the page kind move. */
  lemma {:induction false} SkippedRun(s: State, events: seq<Event>)
    requires StaysSkipped(ControlOf(s), events)
    ensures Run(s, events)
         == s.(skipped := Moves(ControlOf(s), events).skipped, pageKind := KindAfter(s.pageKind, events))
    decreases |events|
  {
    hide Step, Move, KindAt;
    if events != [] {
      StepMoves(s, events[0]);
      SkippedStep(s, events[0]);
      SkippedRun(Step(s, events[0]), events[1..]);
    }
  }

  lemma {:induction false} RunConcat(s: State, a: seq<Event>, b: seq<Event>)
    ensures Run(s, a + b) == Run(Run(s, a), b)
    decreases |a|
  {
    hide Step;
    if a == [] {
      assert a + b == b;
    } else {
      assert (a + b)[0] == a[0] && (a + b)[1..] == a[1..] + b;
      RunConcat(Step(s, a[0]), a[1..], b);
    }
  }

  lemma {:induction false} KindConcat(kind: string, a: seq<Event>, b: seq<Event>)
    ensures KindAfter(kind, a + b) == KindAfter(KindAfter(kind, a), b)
    decreases |a|
  {
    hide IsTutorial;
    if a == [] {
      assert a + b == b;
    } else {
      assert (a + b)[0] == a[0] && (a + b)[1..] == a[1..] + b;
      KindConcat(KindAt(kind, a[0]), a[1..], b);
    }
  }

  /** A balanced skipped element leaves the whole state as it was, but for the page kind that a `body` tag sets. */
  lemma {:induction false} SkippedElementChangesNothing(s: State, n: Node)
    requires n.Element? && NodeTagged(n) && Skips(n.tag, n.attrs) && s.skipped == []
    ensures Run(s, NodeEvents(n)) == s.(pageKind := KindAfter(s.pageKind, NodeEvents(n)))
  {
    hide IsVoid, Skips, Step, Run, KindAfter, KindAt, Events, Move, Moves, ControlOf;
    var start, inner, end := Start(n.tag, n.attrs), Events(n.children), End(n.tag);
    var s1 := Step(s, start);
    SkippedStart(s, n.tag, n.attrs);
    SkippedNodes(ControlOf(s1), n.children);
    SkippedRun(s1, inner);
    var s2 := Run(s1, inner);
    SkippedEnd(s2, n.tag);
    assert NodeEvents(n) == [start] + (inner + [end]);
    RunConcat(s, [start], inner + [end]);
    RunConcat(s1, inner, [end]);
    KindConcat(s.pageKind, [start], inner + [end]);
    KindConcat(s1.pageKind, inner, [end]);
    OneStep(s, start);
    OneStep(s2, end);
  }

  lemma {:induction false} OneStep(s: State, e: Event)
    ensures Run(s, [e]) == Step(s, e) && KindAfter(s.pageKind, [e]) == KindAt(s.pageKind, e)
  {
    hide Step, KindAt;
    assert [e][1..] == [];
  }

  lemma {:induction false} SkippedStart(s: State, tag: string, attrs: Attributes)
    requires s.skipped == [] && Skips(tag, attrs) && !IsVoid(tag)
    ensures Step(s, Start(tag, attrs)) == s.(skipped := [tag], pageKind := KindAt(s.pageKind, Start(tag, attrs)))
    ensures ControlOf(Step(s, Start(tag, attrs))).skipped == [tag]
  {
    hide Skips, IsVoid, IsTutorial, Enter, StartInMain;
  }

  lemma {:induction false} SkippedEnd(s: State, tag: string)
    requires s.skipped == [tag]
    ensures Step(s, End(tag)) == s.(skipped := []) && KindAt(s.pageKind, End(tag)) == s.pageKind
  {
    hide Leave, EndHeading;
  }
}
