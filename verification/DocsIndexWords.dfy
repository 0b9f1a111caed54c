/**
 The words of a page. Blocks separate words, and so do the ends of headings and of sections; nothing else does. The
 published sections hold exactly the words of the page, in order, and headings, texts and excerpts are written with
 single spaces between them.
*/
module DocsIndexWords {
  import opened Prelude
  import opened Text
  import opened TextLaws
  import opened DocsIndex
  import opened DocsIndexLaws

  // -------------------------------------------------------------- compact

  /** No white space at the ends, and inside only single spaces. */
  predicate Spaced(s: string) {
    Stripped(s) && forall i :: 0 <= i < |s| && IsSpace(s[i]) ==> SingleSpace(s, i)
  }

  predicate SingleSpace(s: string, i: nat)
    requires i < |s|
  {
    s[i] == ' ' && 0 < i < |s| - 1 && !IsSpace(s[i + 1])
  }

  lemma {:induction false} JoinIsSpaced(words: seq<string>)
    requires forall w :: w in words ==> IsWord(w)
    ensures Spaced(JoinBy(" ", words)) && (words != [] ==> JoinBy(" ", words) != "")
  {
    hide IsSpace;
    if words != [] {
      var w, rest := words[0], words[1..];
      assert w in words && forall x :: x in rest ==> x in words;
      var t := JoinBy(" ", rest);
      JoinIsSpaced(rest);
      if rest == [] {
        assert JoinBy(" ", words) == w + "" == w;
        assert forall i :: 0 <= i < |w| ==> w[i] in w;
      } else {
        assert JoinBy(" ", words) == w + (" " + t) == w + " " + t;
        JoinStep(w, t);
      }
    }
  }

  lemma {:induction false} JoinStep(w: string, t: string)
    requires IsWord(w) && Spaced(t) && t != ""
    ensures Spaced(w + " " + t)
  {
    hide IsSpace;
    var s := w + " " + t;
    assert w[0] in w;
    assert forall i :: 0 <= i < |w| ==> s[i] == w[i] && w[i] in w;
    forall i | |w| <= i < |s| && IsSpace(s[i]) ensures SingleSpace(s, i) {
      if i > |w| {
        assert s[i] == t[i - |w| - 1];
        assert SingleSpace(t, i - |w| - 1);
      }
    }
  }

  /** `compact` keeps the words, and writes them with single spaces between. */
  lemma {:induction false} CompactIsSpaced(parts: seq<string>)
    ensures Words(Compact(parts)) == Words(Concat(parts)) && Spaced(Compact(parts))
  {
    hide Words, JoinBy, Spaced;
    WordsAreWords(Concat(parts));
    WordsOfJoin(Words(Concat(parts)));
    JoinIsSpaced(Words(Concat(parts)));
  }

  /** There is one way to write words like that, so nothing else could be the compact text. */
  lemma {:induction false} SpacedIsJoined(s: string)
    requires Spaced(s)
    ensures s == JoinBy(" ", Words(s))
    decreases |s|
  {
    if s != "" {
      var n := WordLength(s);
      var w, rest := s[..n], s[n..];
      assert s == w + rest && n > 0;
      if rest == "" {
        assert Words(s) == [w] + Words("") && Words("") == [] && [w] + [] == [w];
      } else {
        assert SingleSpace(s, n);
        var t := s[n + 1..];
        assert rest == " " + t && t != "" && rest[1..] == t;
        SpacedRest(s, n);
        SpacedIsJoined(t);
        assert Words(rest) == Words(t);
        assert Words(s) == [w] + Words(t) && Words(s)[1..] == Words(t) && Words(t) != [];
        assert JoinBy(" ", Words(s)) == w + (" " + JoinBy(" ", Words(t)));
      }
    }
  }

  lemma {:induction false} SpacedRest(s: string, n: nat)
    requires Spaced(s) && n < |s| - 1 && IsSpace(s[n])
    ensures Spaced(s[n + 1..])
  {
    hide IsSpace;
    var t := s[n + 1..];
    assert SingleSpace(s, n);
    forall i | 0 <= i < |t| && IsSpace(t[i]) ensures SingleSpace(t, i) {
      assert SingleSpace(s, n + 1 + i);
      assert t[i] == s[n + 1 + i];
    }
  }

  // ----------------------------------------------------- texts with equal words

  /** The same words, whatever is written behind. */
  ghost predicate Alike(x: string, y: string) {
    forall z :: Words(x + z) == Words(y + z)
  }

  lemma {:induction false} AlikeAppend(x: string, y: string, w: string)
    requires Alike(x, y)
    ensures Alike(x + w, y + w)
  {
    hide Words;
    forall z ensures Words(x + w + z) == Words(y + w + z) {
      assert x + w + z == x + (w + z) && y + w + z == y + (w + z);
    }
  }

  lemma {:induction false} AlikeWords(x: string, y: string)
    requires Alike(x, y)
    ensures Words(x) == Words(y)
  {
    hide Words;
    assert x + "" == x && y + "" == y;
  }

  predicate EndsInGap(x: string) {
    x == "" || IsSpace(x[|x| - 1])
  }

  /** Behind a gap, words are words of their own. */
  lemma {:induction false} GapSplits(x: string, z: string)
    requires EndsInGap(x)
    ensures Words(x + z) == Words(x) + Words(z)
  {
    hide Words, IsSpace;
    if x == "" {
      assert x + z == z;
      WordsOfBlank("");
    } else {
      var n := |x| - 1;
      assert x == x[..n] + [x[n]] + "" && x + z == x[..n] + [x[n]] + z;
      WordsSplit(x[..n], x[n], z);
      WordsSplit(x[..n], x[n], "");
      WordsOfBlank("");
    }
  }

  lemma {:induction false} GapsAlike(x: string, y: string)
    requires EndsInGap(x) && EndsInGap(y) && Words(x) == Words(y)
    ensures Alike(x, y)
  {
    hide Words, EndsInGap;
    forall z ensures Words(x + z) == Words(y + z) {
      GapSplits(x, z);
      GapSplits(y, z);
    }
  }

  lemma {:induction false} SpaceSplits(x: string, y: string)
    ensures Words(x + " " + y) == Words(x) + Words(y)
  {
    hide Words;
    WordsSplit(x, ' ', y);
  }

  lemma {:induction false} NoInkNoWords(s: string)
    ensures Squash(s) == "" <==> Words(s) == []
  {
    if Squash(s) == "" {
      BlankHasNoWords(s);
    } else {
      SomeWord(s);
    }
  }

  lemma {:induction false} SomeWord(s: string)
    requires Squash(s) != ""
    ensures Words(s) != []
  {
    if IsSpace(s[0]) {
      SomeWord(s[1..]);
    }
  }

  // --------------------------------------------------- the text of a stream

  /** What an event contributes to the text: a tag at most a gap. Breaks inside headings separate nothing. */
  function Flow(c: Control, e: Event): string {
    match e
    case Data(text) => if c.inMain && c.skipped == [] then text else ""
    case Start(tag, attrs) =>
      var d := Move(c, e);
      if c.skipped != [] || Skips(tag, attrs) || !d.inMain then ""
      else if OpensHeading(tag, attrs) || (BreaksAtStart(tag) && !c.open) then " "
      else ""
    case End(tag) =>
      var d := Move(c, e);
      if c.skipped != [] then ""
      else if (c.open && ClosesHeading(tag)) || ((tag == "main" || (d.inMain && BreaksAtEnd(tag))) && !d.open) then " "
      else ""
  }

  /** The text of a stream inside `main`, with gaps between blocks, headings and sections. */
  function StreamFlow(c: Control, events: seq<Event>): string
    decreases |events|
  {
    if events == [] then "" else Flow(c, events[0]) + StreamFlow(Move(c, events[0]), events[1..])
  }

  // ----------------------------------------------- the text the machine holds

  /** The text of the sections that are filed, a gap behind each heading and each section. */
  function Shelf(sections: seq<Section>): string {
    if sections == [] then ""
    else
      var n := |sections| - 1;
      Shelf(sections[..n]) + (sections[n].heading + " " + Concat(sections[n].parts)) + " "
  }

  function Front(c: Section): string {
    c.heading + " " + Concat(c.parts)
  }

  function Pending(s: State): string {
    if s.heading.Some? then " " + Concat(s.heading.value) else ""
  }

  function HeldText(s: State): string {
    Shelf(s.sections) + Front(s.current) + Pending(s)
  }

  lemma {:induction false} ShelfEndsInGap(sections: seq<Section>)
    ensures EndsInGap(Shelf(sections))
  {
  }

  lemma {:induction false} FrontWords(c: Section)
    ensures Words(Front(c)) == Words(c.heading) + Words(Concat(c.parts))
  {
    hide Words;
    SpaceSplits(c.heading, Concat(c.parts));
  }

  lemma {:induction false} ShelfPush(sections: seq<Section>, c: Section)
    ensures Shelf(sections + [c]) == Shelf(sections) + Front(c) + " "
    ensures Words(Shelf(sections + [c])) == Words(Shelf(sections)) + Words(Front(c))
  {
    hide Words;
    assert (sections + [c])[..|sections|] == sections;
    ShelfEndsInGap(sections);
    SpaceSplits(Shelf(sections) + Front(c), "");
    GapSplits(Shelf(sections), Front(c));
    WordsOfBlank("");
    assert Shelf(sections) + Front(c) + " " + "" == Shelf(sections) + Front(c) + " ";
  }

  lemma {:induction false} TextWords(s: State)
    ensures Words(Shelf(s.sections) + Front(s.current)) == Words(Shelf(s.sections)) + Words(Front(s.current))
  {
    hide Words, Shelf, Front;
    ShelfEndsInGap(s.sections);
    GapSplits(Shelf(s.sections), Front(s.current));
  }

  lemma {:induction false} NoInkInFront(c: Section)
    requires SectionInk(c) == ""
    ensures Words(Front(c)) == [] && Words(Concat(c.parts)) == [] && Words(c.heading) == []
  {
    hide Words, Squash;
    FrontWords(c);
    NoInkNoWords(c.heading);
    NoInkNoWords(Concat(c.parts));
  }

  /** Filing the current section keeps the words held, and leaves a blank front. */
  lemma {:induction false} FlushWords(s: State)
    ensures var t := Flush(s);
      && Words(Shelf(t.sections)) == Words(Shelf(s.sections)) + Words(Front(s.current))
      && t.current == EMPTY && t.heading == s.heading
  {
    hide Words, Shelf, Front;
    FlushFrame(s);
    ShelfPush(s.sections, s.current);
    CompactIsSpaced(s.current.parts);
    if s.current.heading == "" && Compact(s.current.parts) == "" {
      FrontWords(s.current);
      WordsOfBlank("");
    }
  }

  lemma {:induction false} EmptyFront()
    ensures Front(EMPTY) == " " && Words(" ") == []
  {
    assert IsSpace(' ');
    WordsOfBlank(" ");
  }

  // -------------------------------------------------------------- one event

  lemma {:induction false} BlankPending(s: State)
    requires Buffer(s) == ""
    ensures Words(Pending(s)) == []
  {
    hide Words, Squash;
    WordsOfBlank("");
    if s.heading.Some? {
      NoInkNoWords(Concat(s.heading.value));
      SpaceSplits("", Concat(s.heading.value));
      assert "" + " " + Concat(s.heading.value) == " " + Concat(s.heading.value);
    }
  }

  lemma {:induction false} PendingWords(s: State)
    ensures Words(HeldText(s)) == Words(Shelf(s.sections)) + Words(Front(s.current)) + Words(Pending(s))
  {
    hide Words, Shelf, Front;
    TextWords(s);
    var x := Shelf(s.sections) + Front(s.current);
    if s.heading.Some? {
      var b := Concat(s.heading.value);
      SpaceSplits(x, b);
      SpaceSplits("", b);
      WordsOfBlank("");
      assert x + " " + b == x + (" " + b) && "" + " " + b == " " + b;
    } else {
      WordsOfBlank("");
      assert x + "" == x;
    }
  }

  /** A gap behind the text, and nothing held back: what is held afterwards need only have the same words. */
  lemma {:induction false} GapStep(s: State, t: State)
    requires EndsInGap(HeldText(t)) && Words(HeldText(t)) == Words(HeldText(s))
    ensures Alike(HeldText(t), HeldText(s) + " ")
  {
    hide Words, HeldText, Alike;
    SpaceSplits(HeldText(s), "");
    WordsOfBlank("");
    assert HeldText(s) + " " + "" == HeldText(s) + " ";
    GapsAlike(HeldText(t), HeldText(s) + " ");
  }

  lemma {:induction false} NewHeading(s: State, id: string)
    requires Buffer(s) == ""
    ensures Alike(HeldText(Flush(s).(heading := Some([]), headingId := id)), HeldText(s) + " ")
  {
    hide Words, Shelf, Flush, Alike, EndsInGap;
    var t := Flush(s).(heading := Some([]), headingId := id);
    FlushWords(s);
    PendingWords(s);
    PendingWords(t);
    BlankPending(s);
    EmptyFront();
    assert Pending(t) == " " + "" == " ";
    assert EndsInGap(HeldText(t)) by { LastIsSpace(Shelf(t.sections) + Front(t.current)); }
    GapStep(s, t);
  }

  lemma {:induction false} LastIsSpace(x: string)
    ensures EndsInGap(x + " ")
  {
  }

  lemma {:induction false} BreakOutside(s: State)
    requires s.heading.None?
    ensures HeldText(Break(s)) == HeldText(s) + " "
  {
    ConcatPush(s.current.parts, " ");
    var x, p := Shelf(s.sections), Concat(s.current.parts);
    assert x + (s.current.heading + " " + (p + " ")) + "" == x + (s.current.heading + " " + p) + "" + " ";
  }

  lemma {:induction false} BreakInside(s: State)
    requires s.heading.Some?
    ensures Alike(HeldText(Break(s)), HeldText(s))
  {
    hide Words;
    ConcatPush(s.current.parts, " ");
    var x, b := Shelf(s.sections) + Front(s.current), Concat(s.heading.value);
    var y := Shelf(s.sections) + Front(Break(s).current);
    assert y == x + " " by {
      var h, p := s.current.heading, Concat(s.current.parts);
      assert h + " " + (p + " ") == h + " " + p + " ";
      assert Shelf(s.sections) + (h + " " + p + " ") == Shelf(s.sections) + (h + " " + p) + " ";
    }
    WordsOfBlank("");
    SpaceSplits(x, "");
    assert x + " " + "" == x + " ";
    forall z ensures Words(HeldText(Break(s)) + z) == Words(HeldText(s) + z) {
      assert HeldText(Break(s)) + z == y + " " + (b + z) && HeldText(s) + z == x + " " + (b + z);
      SpaceSplits(y, b + z);
      SpaceSplits(x, b + z);
    }
  }

  lemma {:induction false} HeadingClosed(s: State)
    requires s.heading.Some? && Inv(s)
    ensures Alike(HeldText(CloseHeading(s)), HeldText(s) + " ")
  {
    hide Words, Shelf, AnchorFor, Compact, Alike, EndsInGap;
    var t := CloseHeading(s);
    NoInkInFront(s.current);
    CompactIsSpaced(s.heading.value);
    FrontWords(t.current);
    PendingWords(s);
    PendingWords(t);
    WordsOfBlank("");
    var b := Concat(s.heading.value);
    SpaceSplits("", b);
    assert "" + " " + b == " " + b;
    assert EndsInGap(HeldText(t)) by { BlankTail(t, Concat(s.current.parts)); }
    GapStep(s, t);
  }

  lemma {:induction false} BlankTail(t: State, p: string)
    requires t.heading.None? && Concat(t.current.parts) == p && Words(p) == []
    ensures EndsInGap(HeldText(t))
  {
    if p == "" {
      assert HeldText(t) == Shelf(t.sections) + t.current.heading + " ";
    } else {
      NoWordsAllBlank(p);
      assert HeldText(t)[|HeldText(t)| - 1] == p[|p| - 1];
    }
  }

  lemma {:induction false} NoWordsAllBlank(p: string)
    requires Words(p) == []
    ensures Blank(p)
  {
    if p != "" {
      NoWordsAllBlank(p[1..]);
      assert forall c :: c in p ==> c == p[0] || c in p[1..];
    }
  }

  lemma {:induction false} MainClosed(s: State)
    requires Inv(s)
    ensures s.heading.None? ==> Alike(HeldText(Flush(s)), HeldText(s) + " ")
    ensures s.heading.Some? ==> Alike(HeldText(Flush(s)), HeldText(s))
  {
    hide Words, Shelf, Flush, Alike, EndsInGap, Front;
    var t := Flush(s);
    FlushWords(s);
    EmptyFront();
    PendingWords(s);
    PendingWords(t);
    if s.heading.None? {
      assert HeldText(t) == Shelf(t.sections) + " ";
      assert EndsInGap(HeldText(t)) by { LastIsSpace(Shelf(t.sections)); }
      assert Words(HeldText(t)) == Words(HeldText(s));
      GapStep(s, t);
    } else {
      SamePending(s, t);
    }
  }

  lemma {:induction false} SamePending(s: State, t: State)
    requires s.heading.Some? && t.heading == s.heading
    requires Words(Shelf(t.sections)) + Words(Front(t.current)) == Words(Shelf(s.sections)) + Words(Front(s.current))
    ensures Alike(HeldText(t), HeldText(s))
  {
    hide Words, Shelf, Front;
    TextWords(s);
    TextWords(t);
    var x, y, b := Shelf(s.sections) + Front(s.current), Shelf(t.sections) + Front(t.current), Concat(s.heading.value);
    forall z ensures Words(HeldText(t) + z) == Words(HeldText(s) + z) {
      assert HeldText(t) + z == y + " " + (b + z) && HeldText(s) + z == x + " " + (b + z);
      SpaceSplits(y, b + z);
      SpaceSplits(x, b + z);
    }
  }

  lemma {:induction false} TagsDiffer(tag: string, attrs: Attributes)
    ensures OpensHeading(tag, attrs) ==> !BreaksAtStart(tag)
    ensures ClosesHeading(tag) ==> !BreaksAtEnd(tag) && tag != "main"
    ensures tag == "main" ==> !BreaksAtEnd(tag)
  {
  }

  lemma {:induction false} Unchanged(s: State, t: State)
    requires t.sections == s.sections && t.current == s.current && t.heading == s.heading
    ensures HeldText(t) == HeldText(s) && HeldText(s) + "" == HeldText(s) && (Inv(s) <==> Inv(t))
  {
    hide Shelf, Front, SectionInk, Ink;
  }

  lemma {:induction false} AlikeToItself(x: string)
    ensures Alike(x, x) && x + "" == x
  {
    hide Words;
  }

  lemma {:induction false} StartText(s: State, tag: string, attrs: Attributes)
    requires Inv(s) && LostBy(s, Start(tag, attrs)) == ""
    ensures Alike(HeldText(StepStart(s, tag, attrs)), HeldText(s) + Flow(ControlOf(s), Start(tag, attrs)))
  {
    hide IsVoid, Skips, IsTutorial, OpensHeading, BreaksAtStart, IsDense, IdOf, StartInMain, HeldText, Alike, Inv;
    var s1 := Enter(SeeBody(s, tag, attrs), tag);
    AlikeToItself(HeldText(s));
    Unchanged(s, s1);
    if s.skipped != [] || Skips(tag, attrs) {
      Unchanged(s, StepStart(s, tag, attrs));
    } else if s1.inMain {
      InMainText(s1, tag, attrs);
    }
  }

  lemma {:induction false} InMainText(s: State, tag: string, attrs: Attributes)
    requires Inv(s) && (OpensHeading(tag, attrs) ==> Buffer(s) == "")
    ensures Alike(HeldText(StartInMain(s, tag, attrs)),
                  HeldText(s) + if OpensHeading(tag, attrs) || (BreaksAtStart(tag) && s.heading.None?) then " " else "")
  {
    TagsDiffer(tag, attrs);
    hide OpensHeading, BreaksAtStart, IsDense, IdOf, HeldText, Alike, Inv, Break, Flush, Buffer;
    AlikeToItself(HeldText(s));
    var s1 := s.(dense := if IsDense(tag) then s.dense + 1 else s.dense,
                 ids := if IdOf(attrs) != "" then s.ids + {IdOf(attrs)} else s.ids);
    Unchanged(s, s1);
    if OpensHeading(tag, attrs) {
      assert Buffer(s1) == Buffer(s) by { SameBuffer(s, s1); }
      NewHeading(s1, IdOf(attrs));
    } else if BreaksAtStart(tag) {
      BreakText(s1);
    }
  }

  lemma {:induction false} SameBuffer(s: State, t: State)
    requires t.heading == s.heading
    ensures Buffer(t) == Buffer(s)
  {
  }

  lemma {:induction false} BreakText(s: State)
    ensures Alike(HeldText(Break(s)), HeldText(s) + if s.heading.None? then " " else "")
  {
    hide HeldText, Alike, Break;
    AlikeToItself(HeldText(s) + " ");
    AlikeToItself(HeldText(s));
    if s.heading.None? {
      BreakOutside(s);
    } else {
      BreakInside(s);
    }
  }

  lemma {:induction false} EndText(s: State, tag: string)
    requires Inv(s)
    ensures Alike(HeldText(StepEnd(s, tag)), HeldText(s) + Flow(ControlOf(s), End(tag)))
  {
    TagsDiffer(tag, map[]);
    hide ClosesHeading, BreaksAtEnd, IsDense, HeldText, Alike, Inv, Break, Flush, CloseHeading, OpensHeading, Skips;
    AlikeToItself(HeldText(s));
    if s.skipped != [] {
      Unchanged(s, StepEnd(s, tag));
    } else if ClosesHeading(tag) && s.heading.Some? {
      HeadingClosed(s);
      ClosedHeading(s);
      Unchanged(CloseHeading(s), StepEnd(s, tag));
    } else if tag == "main" {
      MainClosed(s);
      FlushFrame(s);
      Unchanged(Flush(s), StepEnd(s, tag));
    } else {
      var t := Leave(s, tag);
      Unchanged(s, t);
      BreakText(t);
    }
  }

  lemma {:induction false} ClosedHeading(s: State)
    requires s.heading.Some?
    ensures CloseHeading(s).heading.None? && CloseHeading(s).inMain == s.inMain
  {
    hide AnchorFor, Compact;
  }

  lemma {:induction false} DataText(s: State, text: string)
    ensures HeldText(StepData(s, text)) == HeldText(s) + Flow(ControlOf(s), Data(text))
  {
    hide Shelf;
    if s.skipped == [] && s.inMain {
      if s.heading.Some? {
        ConcatPush(s.heading.value, text);
        var x, b := Shelf(s.sections) + Front(s.current), Concat(s.heading.value);
        assert x + (" " + (b + text)) == x + (" " + b) + text;
      } else {
        ConcatPush(s.current.parts, text);
        var x, h, p := Shelf(s.sections), s.current.heading, Concat(s.current.parts);
        assert x + (h + " " + (p + text)) + "" == x + (h + " " + p) + "" + text;
      }
    }
  }

  /** One event: what is held grows by what the event contributes, up to the width of gaps. */
  lemma {:induction false} StepText(s: State, e: Event)
    requires Inv(s) && LostBy(s, e) == ""
    ensures Alike(HeldText(Step(s, e)), HeldText(s) + Flow(ControlOf(s), e))
  {
    hide StepStart, StepEnd, StepData, HeldText, Alike, Inv, Flow, LostBy;
    match e {
      case Start(tag, attrs) => StartText(s, tag, attrs);
      case End(tag) => EndText(s, tag);
      case Data(text) =>
        DataText(s, text);
        AlikeToItself(HeldText(s) + Flow(ControlOf(s), e));
    }
  }

  lemma {:induction false} AlikeTransitive(x: string, y: string, z: string)
    requires Alike(x, y) && Alike(y, z)
    ensures Alike(x, z)
  {
    hide Words;
  }

  lemma {:induction false} RunText(s: State, events: seq<Event>)
    requires Inv(s) && Lost(s, events) == ""
    ensures Alike(HeldText(Run(s, events)), HeldText(s) + StreamFlow(ControlOf(s), events))
    decreases |events|
  {
    hide Step, HeldText, Alike, Inv, Flow, LostBy, Move;
    if events == [] {
      AlikeToItself(HeldText(s));
    } else {
      var e, rest, t, c := events[0], events[1..], Step(s, events[0]), ControlOf(s);
      assert LostBy(s, e) == "" && Lost(t, rest) == "";
      StepText(s, e);
      StepHolds(s, e);
      StepMoves(s, e);
      RunText(t, rest);
      var more := StreamFlow(ControlOf(t), rest);
      AlikeAppend(HeldText(t), HeldText(s) + Flow(c, e), more);
      AlikeTransitive(HeldText(Run(t, rest)), HeldText(t) + more, HeldText(s) + Flow(c, e) + more);
      assert HeldText(s) + Flow(c, e) + more == HeldText(s) + (Flow(c, e) + more);
    }
  }

  /**
   The published sections, headings and texts in turn, have exactly the words of the page, for every stream of events
   that publishes all its text: no heading with text is cut off by another heading, and nothing is pending at the end.
  */
  lemma {:induction false} WordsArePublished(ids: set<string>, events: seq<Event>)
    requires Uncut(Watch(OUTSIDE, "", ""), events) && NothingPending(events)
    ensures Words(Shelf(Run(Initial(ids), events).sections)) == Words(StreamFlow(OUTSIDE, events))
  {
    hide Run, StreamFlow, Lost, Uncut, Looks, Inv, SectionInk, Words, HeldText, Alike, Shelf, Front;
    var s, t := Initial(ids), Run(Initial(ids), events);
    StartsBlank(ids);
    RunWatched(s, events, Watch(OUTSIDE, "", ""));
    RunText(s, events);
    AlikeWords(HeldText(t), HeldText(s) + StreamFlow(OUTSIDE, events));
    PendingWords(t);
    BlankPending(t);
    NoInkInFront(t.current);
    InitialText(ids);
    GapSplits(HeldText(s), StreamFlow(OUTSIDE, events));
    assert Words(HeldText(t)) == [] + Words(StreamFlow(OUTSIDE, events)) == Words(StreamFlow(OUTSIDE, events));
    assert Words(HeldText(t)) == Words(Shelf(t.sections)) + [] + [] == Words(Shelf(t.sections));
  }

  lemma {:induction false} InitialText(ids: set<string>)
    ensures var s := Initial(ids);
      EndsInGap(HeldText(s)) && Words(HeldText(s)) == [] && ControlOf(s) == OUTSIDE
  {
    hide Words;
    EmptyFront();
    assert HeldText(Initial(ids)) == "" + " " + "" == " ";
    LastIsSpace("");
    assert "" + " " == " ";
  }

  // ------------------------------------------------------------ the excerpts

  /** What an event contributes to the excerpts: text outside headings, `pre` and `table`. */
  function ProseOf(c: Control, e: Event): string {
    match e
    case Data(text) => if c.inMain && c.skipped == [] && InProse(c) then text else ""
    case Start(tag, attrs) =>
      var d := Move(c, e);
      if c.skipped != [] || Skips(tag, attrs) || !d.inMain then ""
      else if OpensHeading(tag, attrs) || (BreaksAtStart(tag) && d.dense == 0) then " "
      else ""
    case End(tag) =>
      var d := Move(c, e);
      if c.skipped != [] then ""
      else if tag == "main" || (d.inMain && BreaksAtEnd(tag) && d.dense == 0) then " "
      else ""
  }

  function ProseFlow(c: Control, events: seq<Event>): string
    decreases |events|
  {
    if events == [] then "" else ProseOf(c, events[0]) + ProseFlow(Move(c, events[0]), events[1..])
  }

  function ProseShelf(sections: seq<Section>): string {
    if sections == [] then ""
    else ProseShelf(sections[..|sections| - 1]) + Concat(sections[|sections| - 1].prose) + " "
  }

  function HeldExcerpt(s: State): string {
    ProseShelf(s.sections) + Concat(s.current.prose)
  }

  lemma {:induction false} ProseShelfGap(sections: seq<Section>)
    ensures EndsInGap(ProseShelf(sections))
  {
  }

  lemma {:induction false} ExcerptWords(s: State)
    ensures Words(HeldExcerpt(s)) == Words(ProseShelf(s.sections)) + Words(Concat(s.current.prose))
  {
    hide Words, ProseShelf;
    ProseShelfGap(s.sections);
    GapSplits(ProseShelf(s.sections), Concat(s.current.prose));
  }

  lemma {:induction false} FlushExcerpt(s: State)
    requires Inv(s)
    ensures Alike(HeldExcerpt(Flush(s)), HeldExcerpt(s) + " ")
  {
    hide Words, ProseShelf, Ink, Alike, EndsInGap;
    FlushFrame(s);
    var t, p := Flush(s), Concat(s.current.prose);
    ExcerptWords(s);
    WordsOfBlank("");
    SpaceSplits(HeldExcerpt(s), "");
    assert HeldExcerpt(s) + " " + "" == HeldExcerpt(s) + " ";
    ProseShelfGap(t.sections);
    assert HeldExcerpt(t) == ProseShelf(t.sections) + "" == ProseShelf(t.sections);
    CompactKeepsInk(s.current.parts);
    if s.current.heading == "" && Compact(s.current.parts) == "" {
      assert SectionInk(s.current) == "" by { EmptyInk(); }
      NoProse(s);
    } else {
      ProsePush(s.sections, s.current);
    }
    LastIsSpace(HeldExcerpt(s));
    GapsAlike(HeldExcerpt(t), HeldExcerpt(s) + " ");
  }

  lemma {:induction false} NoProse(s: State)
    requires Inv(s) && SectionInk(s.current) == ""
    ensures Words(Concat(s.current.prose)) == []
  {
    hide Words, Squash, SectionInk;
    NoInkNoWords(Concat(s.current.prose));
  }

  lemma {:induction false} ProsePush(sections: seq<Section>, c: Section)
    ensures Words(ProseShelf(sections + [c])) == Words(ProseShelf(sections)) + Words(Concat(c.prose))
  {
    hide Words;
    assert (sections + [c])[..|sections|] == sections;
    var x, p := ProseShelf(sections), Concat(c.prose);
    ProseShelfGap(sections);
    GapSplits(x, p);
    SpaceSplits(x + p, "");
    WordsOfBlank("");
    assert x + p + " " + "" == x + p + " ";
  }

  lemma {:induction false} BreakExcerpt(s: State)
    ensures HeldExcerpt(Break(s)) == HeldExcerpt(s) + if s.dense == 0 then " " else ""
  {
    hide ProseShelf;
    ConcatPush(s.current.prose, " ");
    var x, p := ProseShelf(s.sections), Concat(s.current.prose);
    assert x + (p + " ") == x + p + " " && x + p + "" == x + p;
  }

  lemma {:induction false} ExcerptUnchanged(s: State, t: State)
    requires t.sections == s.sections && t.current.prose == s.current.prose
    ensures HeldExcerpt(t) == HeldExcerpt(s) && HeldExcerpt(s) + "" == HeldExcerpt(s)
  {
    hide ProseShelf;
  }

  lemma {:induction false} StartExcerpt(s: State, tag: string, attrs: Attributes)
    requires Inv(s)
    ensures Alike(HeldExcerpt(StepStart(s, tag, attrs)), HeldExcerpt(s) + ProseOf(ControlOf(s), Start(tag, attrs)))
  {
    hide IsVoid, Skips, IsTutorial, OpensHeading, BreaksAtStart, IsDense, StartInMain, HeldExcerpt, Alike, Inv;
    var s1 := Enter(SeeBody(s, tag, attrs), tag);
    AlikeToItself(HeldExcerpt(s));
    ExcerptUnchanged(s, s1);
    Unchanged(s, s1);
    if s.skipped != [] || Skips(tag, attrs) {
      ExcerptUnchanged(s, StepStart(s, tag, attrs));
    } else if s1.inMain {
      InMainExcerpt(s1, tag, attrs);
    }
  }

  lemma {:induction false} InMainExcerpt(s: State, tag: string, attrs: Attributes)
    requires Inv(s)
    ensures var dense := if IsDense(tag) then s.dense + 1 else s.dense;
      Alike(HeldExcerpt(StartInMain(s, tag, attrs)),
            HeldExcerpt(s) + if OpensHeading(tag, attrs) || (BreaksAtStart(tag) && dense == 0) then " " else "")
  {
    TagsDiffer(tag, attrs);
    hide OpensHeading, BreaksAtStart, IsDense, IdOf, HeldExcerpt, Alike, Inv, Flush, Break;
    AlikeToItself(HeldExcerpt(s));
    AlikeToItself(HeldExcerpt(s) + " ");
    var s1 := s.(dense := if IsDense(tag) then s.dense + 1 else s.dense,
                 ids := if IdOf(attrs) != "" then s.ids + {IdOf(attrs)} else s.ids);
    ExcerptUnchanged(s, s1);
    Unchanged(s, s1);
    if OpensHeading(tag, attrs) {
      FlushExcerpt(s1);
      ExcerptUnchanged(Flush(s1), Flush(s1).(heading := Some([]), headingId := IdOf(attrs)));
    } else if BreaksAtStart(tag) {
      BreakExcerpt(s1);
    }
  }

  lemma {:induction false} EndExcerpt(s: State, tag: string)
    requires Inv(s)
    ensures Alike(HeldExcerpt(StepEnd(s, tag)), HeldExcerpt(s) + ProseOf(ControlOf(s), End(tag)))
  {
    TagsDiffer(tag, map[]);
    hide ClosesHeading, BreaksAtEnd, IsDense, HeldExcerpt, Alike, Inv, Break, Flush, OpensHeading, Skips, AnchorFor;
    hide Compact;
    AlikeToItself(HeldExcerpt(s));
    AlikeToItself(HeldExcerpt(s) + " ");
    if s.skipped != [] {
      ExcerptUnchanged(s, StepEnd(s, tag));
    } else if ClosesHeading(tag) && s.heading.Some? {
      ExcerptUnchanged(s, StepEnd(s, tag));
    } else if tag == "main" {
      FlushExcerpt(s);
      FlushFrame(s);
      ExcerptUnchanged(Flush(s), StepEnd(s, tag));
    } else {
      var t := Leave(s, tag);
      ExcerptUnchanged(s, t);
      BreakExcerpt(t);
    }
  }

  lemma {:induction false} DataExcerpt(s: State, text: string)
    ensures HeldExcerpt(StepData(s, text)) == HeldExcerpt(s) + ProseOf(ControlOf(s), Data(text))
  {
    hide ProseShelf;
    ConcatPush(s.current.prose, text);
    var x, p := ProseShelf(s.sections), Concat(s.current.prose);
    assert x + (p + text) == x + p + text && x + p + "" == x + p;
  }

  lemma {:induction false} RunExcerpt(s: State, events: seq<Event>)
    requires Inv(s)
    ensures Alike(HeldExcerpt(Run(s, events)), HeldExcerpt(s) + ProseFlow(ControlOf(s), events))
    decreases |events|
  {
    hide Step, HeldExcerpt, Alike, Inv, ProseOf, Move, LostBy;
    if events == [] {
      AlikeToItself(HeldExcerpt(s));
    } else {
      var e, rest, t, c := events[0], events[1..], Step(s, events[0]), ControlOf(s);
      StepExcerpt(s, e);
      StepHolds(s, e);
      StepMoves(s, e);
      RunExcerpt(t, rest);
      var more := ProseFlow(ControlOf(t), rest);
      AlikeAppend(HeldExcerpt(t), HeldExcerpt(s) + ProseOf(c, e), more);
      AlikeTransitive(HeldExcerpt(Run(t, rest)), HeldExcerpt(t) + more, HeldExcerpt(s) + ProseOf(c, e) + more);
      assert HeldExcerpt(s) + ProseOf(c, e) + more == HeldExcerpt(s) + (ProseOf(c, e) + more);
    }
  }

  lemma {:induction false} StepExcerpt(s: State, e: Event)
    requires Inv(s)
    ensures Alike(HeldExcerpt(Step(s, e)), HeldExcerpt(s) + ProseOf(ControlOf(s), e))
  {
    hide StepStart, StepEnd, StepData, HeldExcerpt, Alike, Inv, ProseOf;
    match e {
      case Start(tag, attrs) => StartExcerpt(s, tag, attrs);
      case End(tag) => EndExcerpt(s, tag);
      case Data(text) =>
        DataExcerpt(s, text);
        AlikeToItself(HeldExcerpt(s) + ProseOf(ControlOf(s), e));
    }
  }

  /** The published excerpts have exactly the words of the prose of the page, blocks apart. */
  lemma {:induction false} ExcerptsArePublished(ids: set<string>, events: seq<Event>)
    requires NothingPending(events)
    ensures Words(ProseShelf(Run(Initial(ids), events).sections)) == Words(ProseFlow(OUTSIDE, events))
  {
    hide Run, ProseFlow, Looks, Inv, SectionInk, Words, HeldExcerpt, Alike, ProseShelf;
    var s, t := Initial(ids), Run(Initial(ids), events);
    StartsBlank(ids);
    RunWatched(s, events, Watch(OUTSIDE, "", ""));
    StreamConserves(s, events);
    RunExcerpt(s, events);
    InitialText(ids);
    AlikeWords(HeldExcerpt(t), HeldExcerpt(s) + ProseFlow(OUTSIDE, events));
    ExcerptWords(t);
    NoProse(t);
    InitialExcerpt(ids);
    assert "" + ProseFlow(OUTSIDE, events) == ProseFlow(OUTSIDE, events);
  }

  lemma {:induction false} InitialExcerpt(ids: set<string>)
    ensures HeldExcerpt(Initial(ids)) == ""
  {
  }

  // ------------------------------------------------------------- headings

  predicate HeadingsSpaced(s: State) {
    Spaced(s.current.heading) && forall c :: c in s.sections ==> Spaced(c.heading)
  }

  lemma {:induction false} FlushSpaces(s: State)
    requires HeadingsSpaced(s)
    ensures HeadingsSpaced(Flush(s))
  {
    hide IsSpace, Compact;
  }

  lemma {:induction false} SameHeadings(s: State, t: State)
    requires HeadingsSpaced(s) && t.sections == s.sections && t.current.heading == s.current.heading
    ensures HeadingsSpaced(t)
  {
    hide Spaced;
  }

  lemma {:induction false} InMainSpaces(s: State, tag: string, attrs: Attributes)
    requires HeadingsSpaced(s)
    ensures HeadingsSpaced(StartInMain(s, tag, attrs))
  {
    hide OpensHeading, BreaksAtStart, IsDense, IdOf, Flush, HeadingsSpaced;
    var s1 := s.(dense := if IsDense(tag) then s.dense + 1 else s.dense,
                 ids := if IdOf(attrs) != "" then s.ids + {IdOf(attrs)} else s.ids);
    SameHeadings(s, s1);
    FlushSpaces(s1);
    SameHeadings(if OpensHeading(tag, attrs) then Flush(s1) else s1, StartInMain(s, tag, attrs));
  }

  lemma {:induction false} StartSpaces(s: State, tag: string, attrs: Attributes)
    requires HeadingsSpaced(s)
    ensures HeadingsSpaced(StepStart(s, tag, attrs))
  {
    hide IsVoid, Skips, IsTutorial, StartInMain, HeadingsSpaced;
    var s1 := Enter(SeeBody(s, tag, attrs), tag);
    SameHeadings(s, s1);
    if s.skipped == [] && !Skips(tag, attrs) && s1.inMain {
      InMainSpaces(s1, tag, attrs);
    } else {
      SameHeadings(s, StepStart(s, tag, attrs));
    }
  }

  lemma {:induction false} CloseSpaces(s: State)
    requires HeadingsSpaced(s) && s.heading.Some?
    ensures HeadingsSpaced(CloseHeading(s))
  {
    hide AnchorFor, Compact, Spaced;
    CompactIsSpaced(s.heading.value);
  }

  lemma {:induction false} EndSpaces(s: State, tag: string)
    requires HeadingsSpaced(s)
    ensures HeadingsSpaced(StepEnd(s, tag))
  {
    hide ClosesHeading, BreaksAtEnd, IsDense, HeadingsSpaced, CloseHeading, Flush;
    if s.skipped != [] {
      SameHeadings(s, StepEnd(s, tag));
    } else {
      if ClosesHeading(tag) && s.heading.Some? {
        CloseSpaces(s);
      }
      var s1 := EndHeading(s, tag);
      FlushSpaces(s1);
      SameHeadings(if tag == "main" then Flush(s1) else s1, StepEnd(s, tag));
    }
  }

  lemma {:induction false} StepSpaces(s: State, e: Event)
    requires HeadingsSpaced(s)
    ensures HeadingsSpaced(Step(s, e))
  {
    hide StepStart, StepEnd, HeadingsSpaced;
    match e {
      case Start(tag, attrs) => StartSpaces(s, tag, attrs);
      case End(tag) => EndSpaces(s, tag);
      case Data(text) => SameHeadings(s, StepData(s, text));
    }
  }

  /** Every published heading is written with single spaces between its words. */
  lemma {:induction false} HeadingsAreSpaced(s: State, events: seq<Event>)
    requires HeadingsSpaced(s)
    ensures HeadingsSpaced(Run(s, events))
    decreases |events|
  {
    hide Step, HeadingsSpaced;
    if events != [] {
      StepSpaces(s, events[0]);
      HeadingsAreSpaced(Step(s, events[0]), events[1..]);
    }
  }
}
