/** Two pages whose text the documentation indexer does not publish. */
module DocsIndexPages {
  import opened Prelude
  import opened Text
  import opened DocsIndex
  import opened DocsIndexLaws

  /** `<main><h2>a<h3>b</h3></h2></main>` */
  const NESTED: seq<Event> :=
    [Start("main", map[]), Start("h2", map[]), Data("a"), Start("h3", map[]), Data("b"), End("h3"), End("h2"),
     End("main")]

  /** `<main><h2>a</main>` */
  const UNCLOSED: seq<Event> := [Start("main", map[]), Start("h2", map[]), Data("a"), End("main")]

  lemma {:induction false} TagsOfThePages()
    ensures forall tag :: tag in ["main", "h2", "h3"] ==>
      !Skips(tag, map[]) && !IsDense(tag) && !BreaksAtStart(tag) && !BreaksAtEnd(tag)
    ensures !OpensHeading("main", map[]) && !ClosesHeading("main")
    ensures forall tag :: tag in ["h2", "h3"] ==> OpensHeading(tag, map[]) && ClosesHeading(tag)
    ensures IdOf(map[]) == ""
  {
  }

  lemma {:induction false} OpenMain(s: State)
    requires s.skipped == []
    ensures Step(s, Start("main", map[])) == s.(inMain := true)
  {
    hide IsVoid, Skips, IsTutorial, OpensHeading, BreaksAtStart, BreaksAtEnd, IsDense, ClosesHeading, IdOf, Flush;
    hide Break;
    TagsOfThePages();
    assert "main" in ["main", "h2", "h3"];
  }

  lemma {:induction false} OpenHeading(s: State, tag: string)
    requires s.skipped == [] && s.inMain && tag in ["h2", "h3"] && s.current == EMPTY
    ensures Step(s, Start(tag, map[])) == s.(heading := Some([]), headingId := "")
  {
    hide IsVoid, Skips, IsTutorial, OpensHeading, BreaksAtStart, BreaksAtEnd, IsDense, ClosesHeading, IdOf, Flush;
    hide Break;
    TagsOfThePages();
    EmptyFlush(s);
    assert tag in ["main", "h2", "h3"] && tag != "main" && tag != "body" && tag != "title";
  }

  lemma {:induction false} EmptyFlush(s: State)
    requires s.current == EMPTY
    ensures Flush(s) == s
  {
    assert Concat([]) == "" && Words("") == [] && JoinBy(" ", []) == "";
  }

  lemma {:induction false} ReadHeading(s: State, text: string)
    requires s.skipped == [] && s.inMain && !s.inTitle && s.heading == Some([])
    ensures Step(s, Data(text)) == s.(heading := Some([text]))
  {
    assert [] + [text] == [text];
  }

  /** After the end tag of the heading, the current section has the text of the heading and nothing else. */
  lemma {:induction false} EndOfHeading(s: State, tag: string)
    requires s.skipped == [] && s.inMain && tag in ["h2", "h3"] && s.heading.Some? && s.current == EMPTY
    ensures var t := Step(s, End(tag));
      && t.skipped == [] && t.inMain && t.heading.None? && t.sections == s.sections
      && SectionInk(t.current) == Ink(s.heading.value)
  {
    hide Skips, OpensHeading, BreaksAtStart, BreaksAtEnd, IsDense, ClosesHeading, Flush, Break, AnchorFor, Compact;
    hide Ink, Squash;
    TagsOfThePages();
    assert tag in ["main", "h2", "h3"] && tag != "main" && tag != "title";
    CompactKeepsInk(s.heading.value);
    EmptyInk();
    assert Ink(s.heading.value) + "" == Ink(s.heading.value);
  }

  lemma {:induction false} StrayEnd(s: State, tag: string)
    requires s.skipped == [] && s.inMain && tag in ["h2", "h3"] && s.heading.None?
    ensures var t := Step(s, End(tag));
      t.skipped == [] && t.inMain && t.heading.None? && t.sections == s.sections && t.current == s.current
  {
    hide Skips, OpensHeading, BreaksAtStart, BreaksAtEnd, IsDense, ClosesHeading, Flush, Break;
    TagsOfThePages();
    assert tag in ["main", "h2", "h3"] && tag != "main" && tag != "title";
  }

  lemma {:induction false} CloseMain(s: State)
    requires s.skipped == [] && s.inMain
    ensures Step(s, End("main")).sections == Flush(s).sections
  {
    hide Skips, OpensHeading, BreaksAtStart, BreaksAtEnd, IsDense, ClosesHeading, Flush, Break;
    TagsOfThePages();
    assert "main" in ["main", "h2", "h3"];
    FlushFrame(s);
  }

  lemma {:induction false} FilesOneSection(s: State, ink: string)
    requires s.sections == [] && SectionInk(s.current) == ink
    ensures SectionsInk(Flush(s).sections) == ink
  {
    hide Compact, Ink, Squash;
    CompactKeepsInk(s.current.parts);
    SectionsPush(s.sections, s.current);
    EmptyInk();
  }

  lemma {:induction false} RunFirst(s: State, e: Event, rest: seq<Event>)
    ensures Run(s, [e] + rest) == Run(Step(s, e), rest)
  {
    hide Step;
    assert ([e] + rest)[1..] == rest;
  }

  lemma {:induction false} InkOfLetter(letter: char)
    requires !IsSpace(letter)
    ensures Ink([[letter]]) == [letter] && Squash([letter]) == [letter]
  {
    var parts := [[letter]];
    assert parts[1..] == [] && Concat([]) == "" && parts[0] == [letter];
    assert Concat(parts) == [letter];
    assert [letter][1..] == "" && Squash("") == "";
  }

  lemma {:induction false} TextFirst(c: Control, e: Event, rest: seq<Event>)
    ensures StreamText(c, [e] + rest) == TextOf(c, e) + StreamText(Move(c, e), rest)
  {
    hide Move, TextOf;
    assert ([e] + rest)[1..] == rest;
  }

  lemma {:induction false} PageMoves(c: Control, tag: string)
    requires c.skipped == [] && tag in ["h2", "h3"] && c.inMain
    ensures Move(c, Start("main", map[])) == c && Move(c, Start(tag, map[])) == c.(open := true)
    ensures Move(c, End(tag)) == c.(open := false)
    ensures Move(OUTSIDE, Start("main", map[])) == OUTSIDE.(inMain := true)
  {
    hide IsVoid, Skips, OpensHeading, IsDense, ClosesHeading;
    TagsOfThePages();
    assert tag in ["main", "h2", "h3"] && "main" in ["main", "h2", "h3"] && tag != "main";
  }

  lemma {:induction false} TextOfFour(c: Control, p: seq<Event>, rest: seq<Event>)
    requires |p| == 4
    ensures var c1 := Move(c, p[0]); var c2 := Move(c1, p[1]); var c3 := Move(c2, p[2]);
      StreamText(c, p + rest)
      == TextOf(c, p[0]) + TextOf(c1, p[1]) + TextOf(c2, p[2]) + TextOf(c3, p[3]) + StreamText(Move(c3, p[3]), rest)
  {
    hide Move, TextOf, StreamText;
    var c1 := Move(c, p[0]);
    var c2 := Move(c1, p[1]);
    var c3 := Move(c2, p[2]);
    assert p + rest == [p[0]] + ([p[1]] + ([p[2]] + ([p[3]] + rest)));
    TextFirst(c, p[0], [p[1]] + ([p[2]] + ([p[3]] + rest)));
    TextFirst(c1, p[1], [p[2]] + ([p[3]] + rest));
    TextFirst(c2, p[2], [p[3]] + rest);
    TextFirst(c3, p[3], rest);
  }

  lemma {:induction false} TagsHaveNoText(c: Control, e: Event)
    requires !e.Data?
    ensures TextOf(c, e) == ""
  {
  }

  lemma {:induction false} TextIsRead(c: Control, letter: char)
    requires c.inMain && c.skipped == [] && !IsSpace(letter)
    ensures TextOf(c, Data([letter])) == [letter] && Move(c, Data([letter])) == c
  {
    hide Squash;
    InkOfLetter(letter);
  }

  lemma {:induction false} TextOfNested()
    ensures StreamText(OUTSIDE, NESTED) == "ab"
  {
    var inside := OUTSIDE.(inMain := true);
    var heading := inside.(open := true);
    var end := Move(inside, End("main"));
    hide Move, StreamText, TextOf;
    PageMoves(inside, "h2");
    PageMoves(heading, "h3");
    PageMoves(heading, "h2");
    PageMoves(inside, "h3");
    TextIsRead(heading, 'a');
    TextIsRead(heading, 'b');
    var p, q := NESTED[..4], NESTED[4..];
    assert NESTED == p + q && q == q + [];
    TextOfFour(OUTSIDE, p, q);
    TextOfFour(heading, q, []);
    TagsHaveNoText(OUTSIDE, p[0]);
    TagsHaveNoText(inside, p[1]);
    TagsHaveNoText(heading, p[3]);
    TagsHaveNoText(heading, q[1]);
    TagsHaveNoText(inside, q[2]);
    TagsHaveNoText(inside, q[3]);
    NoTextLeft(end);
  }

  lemma {:induction false} TextStays(c: Control, text: string)
    ensures Move(c, Data(text)) == c
  {
  }

  lemma {:induction false} NoTextLeft(c: Control)
    ensures StreamText(c, []) == ""
  {
  }

  /** Reading `<main><h2>a<h3>b</h3></h2></main>`, the index publishes the `b` and loses the `a`. */
  lemma {:induction false} NestedHeadingLosesText()
    ensures StreamText(OUTSIDE, NESTED) == "ab"
    ensures SectionsInk(Run(Initial({}), NESTED).sections) == "b"
  {
    hide Step, Run, SectionsInk, SectionInk, Ink, Flush;
    TextOfNested();
    var s0 := Initial({});
    var s1 := Step(s0, NESTED[0]);
    var s2 := Step(s1, NESTED[1]);
    var s3 := Step(s2, NESTED[2]);
    var s4 := Step(s3, NESTED[3]);
    var s5 := Step(s4, NESTED[4]);
    var s6 := Step(s5, NESTED[5]);
    var s7 := Step(s6, NESTED[6]);
    OpenMain(s0);
    OpenHeading(s1, "h2");
    ReadHeading(s2, "a");
    OpenHeading(s3, "h3");
    ReadHeading(s4, "b");
    EndOfHeading(s5, "h3");
    InkOfLetter('b');
    StrayEnd(s6, "h2");
    CloseMain(s7);
    FilesOneSection(s7, "b");
    RunOfEight(s0, NESTED);
  }

  lemma {:induction false} RunOfEight(s: State, p: seq<Event>)
    requires |p| == 8
    ensures var t := Step(Step(Step(Step(s, p[0]), p[1]), p[2]), p[3]);
            Run(s, p) == Step(Step(Step(Step(t, p[4]), p[5]), p[6]), p[7])
  {
    hide Step;
    RunOfFour(s, p[..4], p[4..]);
    assert p == p[..4] + p[4..];
    var t := Step(Step(Step(Step(s, p[0]), p[1]), p[2]), p[3]);
    RunOfFour(t, p[4..], []);
    assert p[4..] == p[4..] + [];
    RunNothing(Step(Step(Step(Step(t, p[4]), p[5]), p[6]), p[7]));
  }

  lemma {:induction false} RunOfFour(s: State, p: seq<Event>, rest: seq<Event>)
    requires |p| == 4
    ensures Run(s, p + rest) == Run(Step(Step(Step(Step(s, p[0]), p[1]), p[2]), p[3]), rest)
  {
    hide Step, Run;
    assert p + rest == [p[0]] + ([p[1]] + ([p[2]] + ([p[3]] + rest)));
    RunFirst(s, p[0], [p[1]] + ([p[2]] + ([p[3]] + rest)));
    RunFirst(Step(s, p[0]), p[1], [p[2]] + ([p[3]] + rest));
    RunFirst(Step(Step(s, p[0]), p[1]), p[2], [p[3]] + rest);
    RunFirst(Step(Step(Step(s, p[0]), p[1]), p[2]), p[3], rest);
  }

  /** Reading `<main><h2>a</main>`, the index publishes nothing. */
  lemma {:induction false} UnclosedHeadingLosesText()
    ensures StreamText(OUTSIDE, UNCLOSED) == "a"
    ensures Run(Initial({}), UNCLOSED).sections == []
  {
    hide Step, Run, StreamText, Move, Flush;
    var s0 := Initial({});
    var s1 := Step(s0, UNCLOSED[0]);
    var s2 := Step(s1, UNCLOSED[1]);
    var s3 := Step(s2, UNCLOSED[2]);
    OpenMain(s0);
    OpenHeading(s1, "h2");
    ReadHeading(s2, "a");
    CloseMain(s3);
    EmptyFlush(s3);
    RunOfFour(s0, UNCLOSED, []);
    assert UNCLOSED + [] == UNCLOSED;
    assert Run(Step(s3, UNCLOSED[3]), []) == Step(s3, UNCLOSED[3]) by { RunNothing(Step(s3, UNCLOSED[3])); }
    var inside := OUTSIDE.(inMain := true);
    var heading := inside.(open := true);
    PageMoves(inside, "h2");
    TextStays(heading, "a");
    InkOfLetter('a');
    TextFirst(OUTSIDE, UNCLOSED[0], UNCLOSED[1..]);
    TextFirst(inside, UNCLOSED[1], UNCLOSED[2..]);
    TextFirst(heading, UNCLOSED[2], UNCLOSED[3..]);
    TextFirst(heading, UNCLOSED[3], []);
    NoTextLeft(Move(heading, UNCLOSED[3]));
    assert UNCLOSED == [UNCLOSED[0]] + UNCLOSED[1..] && UNCLOSED[1..] == [UNCLOSED[1]] + UNCLOSED[2..];
    assert UNCLOSED[2..] == [UNCLOSED[2]] + UNCLOSED[3..] && UNCLOSED[3..] == [UNCLOSED[3]] + [];
  }

  lemma {:induction false} RunNothing(s: State)
    ensures Run(s, []) == s
  {
  }
}
