/** Laws of the documentation indexer: no text is lost, previews are prose, links are unambiguous. */
module DocsIndexLaws {
  import opened Prelude
  import opened Text
  import opened DocsIndex

  // ------------------------------------------------- text up to white space

  function Squash(s: string): string {
    if s == "" then "" else (if IsSpace(s[0]) then "" else [s[0]]) + Squash(s[1..])
  }

  lemma {:induction false} SquashConcat(a: string, b: string)
    ensures Squash(a + b) == Squash(a) + Squash(b)
  {
    if a == "" {
      assert a + b == b;
    } else {
      assert (a + b)[1..] == a[1..] + b;
      SquashConcat(a[1..], b);
    }
  }

  lemma {:induction false} ConcatPush(parts: seq<string>, text: string)
    ensures Concat(parts + [text]) == Concat(parts) + text
  {
    if parts == [] {
      assert parts + [text] == [text];
      assert [text][1..] == [];
    } else {
      assert (parts + [text])[1..] == parts[1..] + [text];
      ConcatPush(parts[1..], text);
    }
  }

  lemma {:induction false} JoinedWords(s: string)
    ensures Squash(JoinBy(" ", Words(s))) == Squash(s)
    decreases |s|
  {
    if s != "" && IsSpace(s[0]) {
      JoinedWords(s[1..]);
    } else if s != "" {
      var n := WordLength(s);
      var rest := Words(s[n..]);
      JoinedWords(s[n..]);
      assert s == s[..n] + s[n..];
      SquashConcat(s[..n], s[n..]);
      assert Words(s) == [s[..n]] + rest;
      assert Words(s)[1..] == rest;
      if rest == [] {
        assert JoinBy(" ", Words(s)) == s[..n] + "";
        SquashConcat(s[..n], "");
      } else {
        assert JoinBy(" ", Words(s)) == s[..n] + (" " + JoinBy(" ", rest));
        SquashConcat(s[..n], " " + JoinBy(" ", rest));
        SquashConcat(" ", JoinBy(" ", rest));
      }
    }
  }

  /** The characters of a list of pieces, without white space. */
  function Ink(parts: seq<string>): string {
    Squash(Concat(parts))
  }

  lemma {:induction false} InkPush(parts: seq<string>, text: string)
    ensures Ink(parts + [text]) == Ink(parts) + Squash(text)
  {
    ConcatPush(parts, text);
    SquashConcat(Concat(parts), text);
  }

  /** `compact` only touches white space, and it gives nothing exactly when there is nothing but white space. */
  lemma {:induction false} CompactKeepsInk(parts: seq<string>)
    ensures Squash(Compact(parts)) == Ink(parts)
    ensures Compact(parts) == "" <==> Ink(parts) == ""
  {
    JoinedWords(Concat(parts));
    if Ink(parts) == "" {
      BlankHasNoWords(Concat(parts));
    }
  }

  lemma {:induction false} BlankHasNoWords(s: string)
    requires Squash(s) == ""
    ensures Words(s) == []
  {
    if s != "" {
      BlankHasNoWords(s[1..]);
    }
  }

  // ------------------------------------------------ what the machine holds

  function SectionInk(c: Section): string {
    Squash(c.heading) + Ink(c.parts)
  }

  function SectionsInk(sections: seq<Section>): string {
    if sections == [] then "" else SectionInk(sections[0]) + SectionsInk(sections[1..])
  }

  function SectionsProse(sections: seq<Section>): string {
    if sections == [] then "" else Ink(sections[0].prose) + SectionsProse(sections[1..])
  }

  function Buffer(s: State): string {
    if s.heading.Some? then Ink(s.heading.value) else ""
  }

  /** All the text the machine holds: closed sections, the section being filled, the heading being read. */
  function Held(s: State): string {
    SectionsInk(s.sections) + SectionInk(s.current) + Buffer(s)
  }

  function HeldProse(s: State): string {
    SectionsProse(s.sections) + Ink(s.current.prose)
  }

  predicate Inv(s: State) {
    && (s.heading.Some? ==> SectionInk(s.current) == "")
    && (SectionInk(s.current) == "" ==> Ink(s.current.prose) == "")
  }

  lemma {:induction false} SectionsPush(sections: seq<Section>, c: Section)
    ensures SectionsInk(sections + [c]) == SectionsInk(sections) + SectionInk(c)
    ensures SectionsProse(sections + [c]) == SectionsProse(sections) + Ink(c.prose)
  {
    hide SectionInk, Ink;
    if sections == [] {
      assert sections + [c] == [c];
      assert [c][1..] == [];
    } else {
      assert (sections + [c])[1..] == sections[1..] + [c];
      SectionsPush(sections[1..], c);
    }
  }

  // ------------------------------------------- the control part of the machine

  datatype Control = Control(inMain: bool, skipped: seq<string>, dense: nat, open: bool)

  function ControlOf(s: State): Control {
    Control(s.inMain, s.skipped, s.dense, s.heading.Some?)
  }

  function Move(c: Control, e: Event): Control {
    match e
    case Start(tag, attrs) =>
      if c.skipped != [] || Skips(tag, attrs) then
        c.(skipped := if IsVoid(tag) then c.skipped else c.skipped + [tag])
      else
        var m := c.inMain || tag == "main";
        c.(inMain := m,
           dense := if m && IsDense(tag) then c.dense + 1 else c.dense,
           open := c.open || (m && OpensHeading(tag, attrs)))
    case End(tag) =>
      if c.skipped != [] then
        c.(skipped := if tag == c.skipped[|c.skipped| - 1] then c.skipped[..|c.skipped| - 1] else c.skipped)
      else
        var m := c.inMain && tag != "main";
        c.(inMain := m,
           dense := if m && IsDense(tag) && c.dense > 0 then c.dense - 1 else c.dense,
           open := c.open && !ClosesHeading(tag))
    case Data(_) => c
  }

  function Moves(c: Control, events: seq<Event>): Control
    decreases |events|
  {
    if events == [] then c else Moves(Move(c, events[0]), events[1..])
  }

  function TextOf(c: Control, e: Event): string {
    if e.Data? && c.inMain && c.skipped == [] then Squash(e.text) else ""
  }

  /** The text of a stream inside `main` and outside skipped elements. */
  function StreamText(c: Control, events: seq<Event>): string
    decreases |events|
  {
    if events == [] then "" else TextOf(c, events[0]) + StreamText(Move(c, events[0]), events[1..])
  }

  predicate InProse(c: Control) {
    c.dense == 0 && !c.open
  }

  /** The part of it outside headings, `pre` and `table`. */
  function StreamProse(c: Control, events: seq<Event>): string
    decreases |events|
  {
    if events == [] then ""
    else (if InProse(c) then TextOf(c, events[0]) else "") + StreamProse(Move(c, events[0]), events[1..])
  }

  /** The event opens a heading. */
  predicate Opens(c: Control, e: Event) {
    e.Start? && c.skipped == [] && !Skips(e.tag, e.attrs) && (c.inMain || e.tag == "main")
      && OpensHeading(e.tag, e.attrs)
  }

  /** The text that an event throws away: a heading that opens inside an open heading takes its place. */
  function LostBy(s: State, e: Event): string {
    if Opens(ControlOf(s), e) then Buffer(s) else ""
  }

  function Lost(s: State, events: seq<Event>): string
    decreases |events|
  {
    if events == [] then "" else LostBy(s, events[0]) + Lost(Step(s, events[0]), events[1..])
  }

  // ------------------------------------------------------------ one event

  lemma {:induction false} FlushHolds(s: State)
    requires Inv(s)
    ensures Inv(Flush(s))
    ensures Held(Flush(s)) == Held(s) && HeldProse(Flush(s)) == HeldProse(s)
    ensures SectionInk(Flush(s).current) == "" && Ink(Flush(s).current.prose) == ""
  {
    hide Compact, Ink, Squash, SectionsInk, SectionsProse;
    CompactKeepsInk(s.current.parts);
    SectionsPush(s.sections, s.current);
    EmptyInk();
    if s.current.heading == "" && Compact(s.current.parts) == "" {
      assert SectionInk(s.current) == "";
    }
  }

  lemma {:induction false} EmptyInk()
    ensures Ink([]) == "" && Squash("") == ""
  {
  }

  lemma {:induction false} BreakHolds(s: State)
    requires Inv(s)
    ensures Inv(Break(s))
    ensures Held(Break(s)) == Held(s) && HeldProse(Break(s)) == HeldProse(s)
    ensures SectionInk(Break(s).current) == SectionInk(s.current)
  {
    hide Ink, Squash;
    InkPush(s.current.parts, " ");
    InkPush(s.current.prose, " ");
    BlankSpace();
  }

  lemma {:induction false} BlankSpace()
    ensures Squash(" ") == ""
  {
  }

  lemma {:induction false} CloseHolds(s: State)
    requires Inv(s) && s.heading.Some?
    ensures Inv(CloseHeading(s))
    ensures Held(CloseHeading(s)) == Held(s) && HeldProse(CloseHeading(s)) == HeldProse(s)
  {
    hide Compact, Ink, Squash, SectionsInk, SectionsProse, AnchorFor;
    CompactKeepsInk(s.heading.value);
    EmptyInk();
    var t := CloseHeading(s);
    assert SectionInk(s.current) == "" && Ink(s.current.parts) == "" && Ink(s.current.prose) == "";
    assert SectionInk(t.current) == Ink(s.heading.value) + "";
  }

  lemma {:induction false} OpenHolds(s: State, id: string)
    requires Inv(s)
    ensures var t := Flush(s).(heading := Some([]), headingId := id);
      Inv(t) && HeldProse(t) == HeldProse(s) && Held(t) + Buffer(s) == Held(s)
  {
    hide Flush, SectionInk, Ink, SectionsInk, SectionsProse;
    FlushHolds(s);
    FlushFrame(s);
    EmptyInk();
  }

  lemma {:induction false} StartInMainHolds(s: State, tag: string, attrs: Attributes)
    requires Inv(s)
    ensures var t := StartInMain(s, tag, attrs);
      && Inv(t) && HeldProse(t) == HeldProse(s)
      && Held(t) + (if OpensHeading(tag, attrs) then Buffer(s) else "") == Held(s)
  {
    hide IdOf, OpensHeading, BreaksAtStart, IsDense, Flush, Break, SectionInk, Ink, SectionsInk, SectionsProse;
    var s1 := s.(dense := if IsDense(tag) then s.dense + 1 else s.dense,
                 ids := if IdOf(attrs) != "" then s.ids + {IdOf(attrs)} else s.ids);
    assert Inv(s1) && Held(s1) == Held(s) && HeldProse(s1) == HeldProse(s) && Buffer(s1) == Buffer(s);
    BreakAndHeadingHold(s1, tag, attrs);
  }

  lemma {:induction false} BreakAndHeadingHold(s: State, tag: string, attrs: Attributes)
    requires Inv(s)
    ensures var t := if OpensHeading(tag, attrs) then Flush(s).(heading := Some([]), headingId := IdOf(attrs)) else s;
      var u := if BreaksAtStart(tag) then Break(t) else t;
      && Inv(u) && HeldProse(u) == HeldProse(s)
      && Held(u) + (if OpensHeading(tag, attrs) then Buffer(s) else "") == Held(s)
  {
    hide IdOf, OpensHeading, BreaksAtStart, Flush, Break, Inv, Held, HeldProse, Buffer;
    var t := if OpensHeading(tag, attrs) then Flush(s).(heading := Some([]), headingId := IdOf(attrs)) else s;
    assert Held(s) + "" == Held(s);
    OpenHolds(s, IdOf(attrs));
    BreakHolds(t);
  }

  lemma {:induction false} FlushFrame(s: State)
    ensures Flush(s).heading == s.heading && Flush(s).inMain == s.inMain && Flush(s).skipped == s.skipped
    ensures Flush(s).dense == s.dense && Flush(s).ids == s.ids && Flush(s).headingId == s.headingId
    ensures Flush(s).current == EMPTY
  {
    hide Compact;
  }

  lemma {:induction false} StartHolds(s: State, tag: string, attrs: Attributes)
    requires Inv(s)
    ensures var t := StepStart(s, tag, attrs); var e := Start(tag, attrs);
      Inv(t) && HeldProse(t) == HeldProse(s) && Held(t) + LostBy(s, e) == Held(s)
  {
    hide IsVoid, Skips, IsTutorial, OpensHeading, StartInMain, SectionInk, Ink, SectionsInk, SectionsProse;
    var s1 := Enter(SeeBody(s, tag, attrs), tag);
    assert Inv(s1) && Held(s1) == Held(s) && HeldProse(s1) == HeldProse(s) && Buffer(s1) == Buffer(s);
    StartInMainHolds(s1, tag, attrs);
    assert forall x: string :: x + "" == x;
  }

  lemma {:induction false} EndHolds(s: State, tag: string)
    requires Inv(s)
    ensures var t := StepEnd(s, tag); Inv(t) && HeldProse(t) == HeldProse(s) && Held(t) == Held(s)
  {
    hide IsDense, BreaksAtEnd, ClosesHeading, CloseHeading, Flush, Break, SectionInk, Ink, SectionsInk, SectionsProse;
    if s.skipped == [] {
      if ClosesHeading(tag) && s.heading.Some? {
        CloseHolds(s);
      }
      var s1 := EndHeading(s, tag);
      FlushHolds(s1);
      var s2 := Leave(s1, tag);
      assert Inv(s2) && HeldProse(s2) == HeldProse(s1) && Held(s2) == Held(s1);
      BreakHolds(s2);
    }
  }

  lemma {:induction false} DataHolds(s: State, text: string)
    requires Inv(s)
    ensures var t := StepData(s, text); var c := ControlOf(s); var seen := TextOf(c, Data(text));
      && Inv(t) && Held(t) == Held(s) + seen
      && HeldProse(t) == HeldProse(s) + if InProse(c) then seen else ""
  {
    hide Ink, Squash, SectionsInk, SectionsProse;
    if s.skipped == [] && s.inMain {
      if s.heading.Some? {
        InkPush(s.heading.value, text);
      } else {
        InkPush(s.current.parts, text);
        InkPush(s.current.prose, text);
        var t := StepData(s, text);
        assert SectionInk(t.current) == SectionInk(s.current) + Squash(text);
      }
    }
  }

  /** One event: what the machine holds grows by the text of the event and shrinks by what the event throws away. */
  lemma {:induction false} StepHolds(s: State, e: Event)
    requires Inv(s)
    ensures var t := Step(s, e); var c := ControlOf(s);
      && Inv(t) && Held(t) + LostBy(s, e) == Held(s) + TextOf(c, e)
      && HeldProse(t) == HeldProse(s) + if InProse(c) then TextOf(c, e) else ""
  {
    hide StepStart, StepEnd, StepData, Inv, Held, HeldProse, Skips, OpensHeading, Squash;
    assert forall x: string :: x + "" == x;
    match e {
      case Start(tag, attrs) => StartHolds(s, tag, attrs);
      case End(tag) => EndHolds(s, tag);
      case Data(text) => DataHolds(s, text);
    }
  }

  lemma {:induction false} StartInMainMoves(s: State, tag: string, attrs: Attributes)
    ensures var t := StartInMain(s, tag, attrs);
      && t.inMain == s.inMain && t.skipped == s.skipped
      && t.dense == (if IsDense(tag) then s.dense + 1 else s.dense)
      && t.heading.Some? == (s.heading.Some? || OpensHeading(tag, attrs))
  {
    hide IdOf, OpensHeading, BreaksAtStart, IsDense, Flush;
    var s1 := s.(dense := if IsDense(tag) then s.dense + 1 else s.dense,
                 ids := if IdOf(attrs) != "" then s.ids + {IdOf(attrs)} else s.ids);
    FlushFrame(s1);
  }

  lemma {:induction false} StartMoves(s: State, tag: string, attrs: Attributes)
    ensures ControlOf(StepStart(s, tag, attrs)) == Move(ControlOf(s), Start(tag, attrs))
  {
    hide IsVoid, Skips, IsTutorial, OpensHeading, IsDense, StartInMain;
    StartInMainMoves(Enter(SeeBody(s, tag, attrs), tag), tag, attrs);
  }

  lemma {:induction false} EndMoves(s: State, tag: string)
    ensures ControlOf(StepEnd(s, tag)) == Move(ControlOf(s), End(tag))
  {
    hide BreaksAtEnd, IsDense, ClosesHeading, Flush, AnchorFor, Compact;
    FlushFrame(EndHeading(s, tag));
  }

  lemma {:induction false} StepMoves(s: State, e: Event)
    ensures ControlOf(Step(s, e)) == Move(ControlOf(s), e)
  {
    hide ControlOf, Move, StepStart, StepEnd;
    match e {
      case Start(tag, attrs) => StartMoves(s, tag, attrs);
      case End(tag) => EndMoves(s, tag);
      case Data(text) => DataMoves(s, text);
    }
  }

  lemma {:induction false} DataMoves(s: State, text: string)
    ensures ControlOf(StepData(s, text)) == Move(ControlOf(s), Data(text))
  {
  }

  // ------------------------------------------------------------- all streams

  lemma {:induction false} Unfold(s: State, c: Control, events: seq<Event>)
    ensures events == [] ==> Run(s, events) == s && Moves(c, events) == c
    ensures events == [] ==> StreamProse(c, events) == "" && StreamText(c, events) == "" && Lost(s, events) == ""
    ensures events != [] ==> var e, rest := events[0], events[1..];
      && Run(s, events) == Run(Step(s, e), rest) && Moves(c, events) == Moves(Move(c, e), rest)
      && StreamProse(c, events) == (if InProse(c) then TextOf(c, e) else "") + StreamProse(Move(c, e), rest)
      && StreamText(c, events) == TextOf(c, e) + StreamText(Move(c, e), rest)
      && Lost(s, events) == LostBy(s, e) + Lost(Step(s, e), rest)
  {
    hide Step, Move, TextOf, LostBy, InProse;
  }

  /**
   For every stream of events, well-nested or not: what the machine holds afterwards is what it held plus the text
   of the stream, except for the text of headings in which another heading opened. Previews lose nothing.
  */
  lemma {:induction false} StreamConserves(s: State, events: seq<Event>)
    requires Inv(s)
    ensures var t := Run(s, events); var c := ControlOf(s);
      && Inv(t) && ControlOf(t) == Moves(c, events)
      && HeldProse(t) == HeldProse(s) + StreamProse(c, events)
      && |Held(t)| + |Lost(s, events)| == |Held(s)| + |StreamText(c, events)|
      && (Lost(s, events) == "" ==> Held(t) == Held(s) + StreamText(c, events))
    decreases |events|
  {
    hide Step, Inv, Held, HeldProse, TextOf, LostBy, Move, InProse, Run, Moves, StreamProse, StreamText, Lost;
    Unfold(s, ControlOf(s), events);
    if events != [] {
      StepHolds(s, events[0]);
      StepMoves(s, events[0]);
      StreamConserves(Step(s, events[0]), events[1..]);
      var t, e := Step(s, events[0]), events[0];
      if Lost(s, events) == "" {
        assert LostBy(s, e) == "";
        assert Held(t) == Held(s) + TextOf(ControlOf(s), e);
      }
    }
  }

  // ------------------------------------------------- what gets published

  /** What an observer of the events alone knows: the ink of the open heading and of the section being filled. */
  datatype Watch = Watch(c: Control, heading: string, section: string)

  const OUTSIDE := Control(false, [], 0, false)

  /** The end tag of a heading turns its text into the title of the section; a heading or the end of `main` files it. */
  function Look(w: Watch, e: Event): Watch {
    var c := Move(w.c, e);
    if Opens(w.c, e) then Watch(c, "", "")
    else if e.End? && w.c.skipped == [] && w.c.open && ClosesHeading(e.tag) then Watch(c, "", w.heading)
    else if e.End? && w.c.skipped == [] && e.tag == "main" then Watch(c, w.heading, "")
    else if w.c.open then Watch(c, w.heading + TextOf(w.c, e), w.section)
    else Watch(c, w.heading, w.section + TextOf(w.c, e))
  }

  function Looks(w: Watch, events: seq<Event>): Watch
    decreases |events|
  {
    if events == [] then w else Looks(Look(w, events[0]), events[1..])
  }

  /** No heading with text in it is open when another heading opens. */
  predicate Uncut(w: Watch, events: seq<Event>)
    decreases |events|
  {
    events == [] || ((Opens(w.c, events[0]) ==> w.heading == "") && Uncut(Look(w, events[0]), events[1..]))
  }

  /**
   At the end no text is left in an open heading or in a section that neither a heading nor the end of `main` filed.
  */
  predicate NothingPending(events: seq<Event>) {
    var w := Looks(Watch(OUTSIDE, "", ""), events);
    w.heading == "" && w.section == ""
  }

  predicate Watches(w: Watch, s: State) {
    w.c == ControlOf(s) && w.heading == Buffer(s) && w.section == SectionInk(s.current)
  }

  lemma {:induction false} StartWatched(s: State, tag: string, attrs: Attributes, w: Watch)
    requires Inv(s) && Watches(w, s)
    ensures Watches(Look(w, Start(tag, attrs)), StepStart(s, tag, attrs))
  {
    hide IsVoid, Skips, IsTutorial, OpensHeading, StartInMain, SectionInk, Ink;
    var s1 := Enter(SeeBody(s, tag, attrs), tag);
    StartMoves(s, tag, attrs);
    StartInMainWatched(s1, tag, attrs);
    assert w.heading + "" == w.heading && w.section + "" == w.section;
  }

  lemma {:induction false} StartInMainWatched(s: State, tag: string, attrs: Attributes)
    requires Inv(s)
    ensures var t := StartInMain(s, tag, attrs); var opens := OpensHeading(tag, attrs);
      && Buffer(t) == (if opens then "" else Buffer(s))
      && SectionInk(t.current) == (if opens then "" else SectionInk(s.current))
  {
    hide IdOf, OpensHeading, BreaksAtStart, IsDense, Flush, Break, SectionInk, Ink;
    var s1 := s.(dense := if IsDense(tag) then s.dense + 1 else s.dense,
                 ids := if IdOf(attrs) != "" then s.ids + {IdOf(attrs)} else s.ids);
    HeadingWatched(s1, tag, attrs);
  }

  lemma {:induction false} HeadingWatched(s: State, tag: string, attrs: Attributes)
    requires Inv(s)
    ensures var t := if OpensHeading(tag, attrs) then Flush(s).(heading := Some([]), headingId := IdOf(attrs)) else s;
      var u := if BreaksAtStart(tag) then Break(t) else t;
      && Buffer(u) == (if OpensHeading(tag, attrs) then "" else Buffer(s))
      && SectionInk(u.current) == (if OpensHeading(tag, attrs) then "" else SectionInk(s.current))
  {
    hide IdOf, OpensHeading, BreaksAtStart, Flush, Break, SectionInk, Ink;
    var t := if OpensHeading(tag, attrs) then Flush(s).(heading := Some([]), headingId := IdOf(attrs)) else s;
    FlushHolds(s);
    OpenHolds(s, IdOf(attrs));
    BreakHolds(t);
    BreakFrame(t);
    EmptyInk();
  }

  lemma {:induction false} BreakFrame(s: State)
    ensures Break(s).heading == s.heading
  {
  }

  lemma {:induction false} EndWatched(s: State, tag: string, w: Watch)
    requires Inv(s) && Watches(w, s)
    ensures Watches(Look(w, End(tag)), StepEnd(s, tag))
  {
    hide IsDense, BreaksAtEnd, ClosesHeading, CloseHeading, Flush, Break, SectionInk, Ink, Inv;
    EndMoves(s, tag);
    if s.skipped == [] {
      MainClosesNoHeading();
      if ClosesHeading(tag) && s.heading.Some? {
        CloseHolds(s);
        CloseWatched(s);
      }
      var s1 := EndHeading(s, tag);
      FlushHolds(s1);
      FlushFrame(s1);
      var s2 := Leave(s1, tag);
      LeaveHolds(s1, tag);
      BreakHolds(s2);
      BreakFrame(s2);
    }
    assert w.heading + "" == w.heading && w.section + "" == w.section;
  }

  lemma {:induction false} LeaveHolds(s: State, tag: string)
    requires Inv(s) && Inv(Flush(s))
    ensures Inv(Leave(s, tag))
  {
    hide IsDense, Flush, SectionInk, Ink;
  }

  lemma {:induction false} MainClosesNoHeading()
    ensures !ClosesHeading("main")
  {
  }

  lemma {:induction false} CloseWatched(s: State)
    requires Inv(s) && s.heading.Some?
    ensures SectionInk(CloseHeading(s).current) == Buffer(s) && CloseHeading(s).heading.None?
  {
    hide Compact, Ink, Squash, AnchorFor;
    CompactKeepsInk(s.heading.value);
    assert Ink(s.heading.value) + "" == Ink(s.heading.value);
  }

  lemma {:induction false} DataWatched(s: State, text: string, w: Watch)
    requires Inv(s) && Watches(w, s)
    ensures Watches(Look(w, Data(text)), StepData(s, text))
  {
    hide Ink, Squash;
    DataMoves(s, text);
    if s.skipped == [] && s.inMain {
      if s.heading.Some? {
        InkPush(s.heading.value, text);
      } else {
        InkPush(s.current.parts, text);
      }
    }
    assert w.heading + "" == w.heading && w.section + "" == w.section;
  }

  lemma {:induction false} StepWatched(s: State, e: Event, w: Watch)
    requires Inv(s) && Watches(w, s)
    ensures Watches(Look(w, e), Step(s, e)) && (LostBy(s, e) == "" <==> (Opens(w.c, e) ==> w.heading == ""))
  {
    hide StepStart, StepEnd, StepData, Inv, Look, Opens, Buffer, SectionInk;
    assert LostBy(s, e) == "" <==> (Opens(w.c, e) ==> w.heading == "");
    hide Watches;
    match e {
      case Start(tag, attrs) => StartWatched(s, tag, attrs, w);
      case End(tag) => EndWatched(s, tag, w);
      case Data(text) => DataWatched(s, text, w);
    }
  }

  lemma {:induction false} RunWatched(s: State, events: seq<Event>, w: Watch)
    requires Inv(s) && Watches(w, s)
    ensures Watches(Looks(w, events), Run(s, events))
    ensures Lost(s, events) == "" <==> Uncut(w, events)
    decreases |events|
  {
    hide Step, Inv, Watches, Look, Opens, LostBy;
    if events != [] {
      StepWatched(s, events[0], w);
      StepHolds(s, events[0]);
      RunWatched(Step(s, events[0]), events[1..], Look(w, events[0]));
    }
  }

  /**
   The published sections hold the text of a page, well-nested or not, exactly when no heading that already has text
   is cut off by another heading and no text is pending at the end.
  */
  lemma {:induction false} TextIsPublishedIff(ids: set<string>, events: seq<Event>)
    ensures SectionsInk(Run(Initial(ids), events).sections) == StreamText(OUTSIDE, events)
      <==> Uncut(Watch(OUTSIDE, "", ""), events) && NothingPending(events)
  {
    hide Run, StreamText, Lost, Uncut, Looks, Inv, SectionsInk, SectionInk, Buffer;
    var s, t := Initial(ids), Run(Initial(ids), events);
    StartsBlank(ids);
    StreamConserves(s, events);
    RunWatched(s, events, Watch(OUTSIDE, "", ""));
    var published, section, heading := SectionsInk(t.sections), SectionInk(t.current), Buffer(t);
    assert |Held(t)| == |published| + |section| + |heading|;
    assert published + "" + "" == published && "" + StreamText(OUTSIDE, events) == StreamText(OUTSIDE, events);
  }

  lemma {:induction false} StartsBlank(ids: set<string>)
    ensures var s := Initial(ids); Inv(s) && Held(s) == "" && Watches(Watch(OUTSIDE, "", ""), s)
  {
    EmptyInk();
  }
}
