/** What the index says of a page: slugs, titles, and one record per published section. */
module DocsIndexRecords {
  import opened Prelude
  import opened Text
  import opened TextLaws
  import opened DocsIndex
  import opened DocsIndexLaws
  import opened DocsIndexWords

  // ---------------------------------------------------------------- slugs

  /** The title in lower case, with every character that a slug does not keep replaced by a space. */
  function Blanked(title: string): string {
    seq(|title|, i requires 0 <= i < |title| => if IsSlugChar(Lower(title[i])) then Lower(title[i]) else ' ')
  }

  predicate StartsSlug(s: string) {
    s != "" && IsSlugChar(Lower(s[0]))
  }

  lemma {:induction false} SlugCharsAreNoSpaces(c: char)
    requires IsSlugChar(c)
    ensures !IsSpace(c) && c != '-'
  {
  }

  lemma {:induction false} WordAlone(c: char, u: string)
    requires !IsSpace(c) && (u == "" || IsSpace(u[0]))
    ensures Words([c] + u) == [[c]] + Words(u)
  {
    WordLengthIs([c], u);
    assert ([c] + u)[..1] == [c] && ([c] + u)[1..] == u;
  }

  lemma {:induction false} WordGrows(c: char, u: string)
    requires !IsSpace(c) && u != "" && !IsSpace(u[0])
    ensures Words(u) != [] && Words([c] + u) == [[c] + Words(u)[0]] + Words(u)[1..]
  {
    var n := WordLength(u);
    var w, rest := u[..n], u[n..];
    assert u == w + rest && [c] + u == ([c] + w) + rest;
    assert forall x :: x in w ==> !IsSpace(x);
    assert forall x :: x in [c] + w ==> !IsSpace(x);
    WordLengthIs([c] + w, rest);
    assert ([c] + u)[..n + 1] == [c] + w && ([c] + u)[n + 1..] == rest;
    assert Words(u) == [w] + Words(rest) && Words(u)[1..] == Words(rest);
  }

  lemma {:induction false} BlankedStep(s: string)
    requires s != ""
    ensures var c := if IsSlugChar(Lower(s[0])) then Lower(s[0]) else ' ';
      Blanked(s) == [c] + Blanked(s[1..])
  {
  }

  lemma {:induction false} BlankedStarts(t: string)
    ensures t == "" ==> Blanked(t) == ""
    ensures t != "" ==> Blanked(t) != "" && (IsSpace(Blanked(t)[0]) <==> !StartsSlug(t))
  {
    if StartsSlug(t) {
      SlugCharsAreNoSpaces(Lower(t[0]));
    }
  }

  lemma {:induction false} JoinGrows(c: char, words: seq<string>)
    requires words != []
    ensures JoinBy("-", [[c] + words[0]] + words[1..]) == [c] + JoinBy("-", words)
  {
    var grown := [[c] + words[0]] + words[1..];
    assert grown[1..] == words[1..];
    if |words| > 1 {
      assert [c] + words[0] + ("-" + JoinBy("-", words[1..])) == [c] + (words[0] + ("-" + JoinBy("-", words[1..])));
    } else {
      assert [c] + words[0] + "" == [c] + (words[0] + "");
    }
  }

  lemma {:induction false} JoinMore(c: char, words: seq<string>)
    ensures JoinBy("-", [[c]] + words) == [c] + if words == [] then "" else "-" + JoinBy("-", words)
  {
    assert ([[c]] + words)[1..] == words;
  }

  /** The runs joined by hyphens, with one more in front or behind where the title starts or ends with anything else. */
  lemma {:induction false} HyphenatedWords(s: string) returns (after: string)
    ensures after == "" || after == "-"
    ensures var words := Words(Blanked(s)); var front := if s == "" || StartsSlug(s) then "" else "-";
      if words == [] then Hyphenate(s, true) == "" && Hyphenate(s, false) == front
      else Hyphenate(s, true) == JoinBy("-", words) + after && Hyphenate(s, false) == front + JoinBy("-", words) + after
  {
    hide Words, Blanked, JoinBy, IsSlugChar, IsSpace, Lower;
    if s == "" {
      after := "";
      BlankedStarts(s);
      WordsOfBlank("");
    } else {
      var t := s[1..];
      var last := HyphenatedWords(t);
      BlankedStep(s);
      BlankedStarts(t);
      var words := Words(Blanked(t));
      if !StartsSlug(s) {
        after := last;
        OtherStep(s);
        var j := JoinBy("-", words);
        assert "-" + (j + after) == "-" + j + after;
      } else {
        if StartsSlug(t) {
          after := last;
          SomeRun(t);
          LetterInRun(s, last);
        } else {
          after := if words != [] then last else if t == "" then "" else "-";
          NoWordsInNothing();
          LetterEndsRun(s, after);
        }
      }
    }
  }

  /** What is written for a text that starts with a letter. */
  predicate Hyphened(s: string, after: string) {
    && Words(Blanked(s)) != []
    && Hyphenate(s, true) == JoinBy("-", Words(Blanked(s))) + after
    && Hyphenate(s, false) == JoinBy("-", Words(Blanked(s))) + after
  }

  lemma {:induction false} SomeRun(t: string)
    requires StartsSlug(t)
    ensures Words(Blanked(t)) != []
  {
    BlankedStarts(t);
  }

  lemma {:induction false} LetterInRun(s: string, last: string)
    requires StartsSlug(s) && StartsSlug(s[1..])
    requires Words(Blanked(s[1..])) != [] && Hyphenate(s[1..], false) == "" + JoinBy("-", Words(Blanked(s[1..]))) + last
    ensures Hyphened(s, last)
  {
    LetterStep(s);
    BlankedStarts(s[1..]);
    hide Words, Blanked, JoinBy, IsSpace, Lower, Hyphenate, StartsSlug;
    var c, words := Lower(s[0]), Words(Blanked(s[1..]));
    WordGrows(c, Blanked(s[1..]));
    JoinGrows(c, words);
    var j := JoinBy("-", words);
    assert [c] + ("" + j + last) == [c] + j + last;
  }

  lemma {:induction false} LetterEndsRun(s: string, after: string)
    requires StartsSlug(s) && !StartsSlug(s[1..])
    requires Words(Blanked(s[1..])) == [] ==> Hyphenate(s[1..], false) == after
    requires Words(Blanked(s[1..])) != [] ==>
      Hyphenate(s[1..], false) == "-" + JoinBy("-", Words(Blanked(s[1..]))) + after
    ensures Hyphened(s, after)
  {
    LetterStep(s);
    BlankedStarts(s[1..]);
    hide Words, Blanked, JoinBy, IsSpace, Lower, Hyphenate, StartsSlug;
    var c, words := Lower(s[0]), Words(Blanked(s[1..]));
    WordAlone(c, Blanked(s[1..]));
    JoinMore(c, words);
    var j := JoinBy("-", words);
    assert [c] + "" == [c] && [c] + ("-" + j + after) == [c] + ("-" + j) + after;
  }

  lemma {:induction false} LetterStep(s: string)
    requires StartsSlug(s)
    ensures var c := Lower(s[0]);
      && !IsSpace(c) && Blanked(s) == [c] + Blanked(s[1..])
      && Hyphenate(s, true) == Hyphenate(s, false) == [c] + Hyphenate(s[1..], false)
  {
    SlugCharsAreNoSpaces(Lower(s[0]));
    BlankedStep(s);
  }

  lemma {:induction false} NoWordsInNothing()
    ensures Words(Blanked("")) == []
  {
  }

  lemma {:induction false} OtherStep(s: string)
    requires s != "" && !StartsSlug(s)
    ensures Words(Blanked(s)) == Words(Blanked(s[1..]))
    ensures Hyphenate(s, true) == Hyphenate(s[1..], true) && Hyphenate(s, false) == "-" + Hyphenate(s[1..], true)
  {
    BlankedStep(s);
    assert IsSpace(' ');
    hide Words, Blanked;
    WordsSplit("", ' ', Blanked(s[1..]));
    WordsOfBlank("");
    assert "" + [' '] + Blanked(s[1..]) == [' '] + Blanked(s[1..]);
    assert [] + Words(Blanked(s[1..])) == Words(Blanked(s[1..]));
  }

  lemma {:induction false} RunsAreSlugs(s: string, w: string)
    requires w in Words(Blanked(s))
    ensures w != "" && forall c :: c in w ==> c != '-'
  {
    WordsAreWords(Blanked(s));
    WordsAreInside(Blanked(s), w);
    forall c | c in w ensures c != '-' {
      assert c in Blanked(s);
      var i :| 0 <= i < |s| && Blanked(s)[i] == c;
      if IsSlugChar(Lower(s[i])) {
        SlugCharsAreNoSpaces(c);
      }
    }
  }

  lemma {:induction false} WordsAreInside(s: string, w: string)
    requires w in Words(s)
    ensures forall c :: c in w ==> c in s
    decreases |s|
  {
    if s != "" && IsSpace(s[0]) {
      WordsAreInside(s[1..], w);
    } else if s != "" {
      var n := WordLength(s);
      if w != s[..n] {
        WordsAreInside(s[n..], w);
      }
    }
  }

  lemma {:induction false} JoinEnds(words: seq<string>)
    requires words != [] && forall w :: w in words ==> w != "" && forall c :: c in w ==> c != '-'
    ensures var s := JoinBy("-", words); s != "" && s[0] != '-' && s[|s| - 1] != '-'
  {
    var w, rest := words[0], words[1..];
    assert w in words && w[0] in w && w[|w| - 1] in w && forall x :: x in rest ==> x in words;
    if rest == [] {
      assert JoinBy("-", words) == w + "" == w;
    } else {
      JoinEnds(rest);
      assert JoinBy("-", words) == w + ("-" + JoinBy("-", rest));
    }
  }

  lemma {:induction false} Trimmed(front: string, s: string, after: string)
    requires (front == "" || front == "-") && (after == "" || after == "-")
    requires s != "" ==> s[0] != '-' && s[|s| - 1] != '-'
    requires s == "" ==> after == ""
    ensures TrimRight(TrimLeft(front + s + after)) == s
  {
    assert TrimLeft(front + s + after) == s + after by {
      if front == "-" {
        assert (front + s + after)[1..] == s + after;
      } else {
        assert front + s + after == s + after;
      }
    }
    if after == "-" {
      assert (s + after)[..|s + after| - 1] == s;
    } else {
      assert s + after == s;
    }
  }

  /** A slug is the runs of letters and digits of the title in lower case, joined by hyphens. */
  lemma {:induction false} SlugIsJoined(title: string)
    ensures var words := Words(Blanked(title));
      Slug(title) == if words == [] then "section" else JoinBy("-", words)
  {
    hide Words, Blanked, JoinBy, Hyphenate, TrimLeft, TrimRight;
    var words := Words(Blanked(title));
    var after := HyphenatedWords(title);
    var front := if title == "" || StartsSlug(title) then "" else "-";
    if words == [] {
      Trimmed(front, "", "");
      assert front + "" + "" == front;
    } else {
      forall w | w in words ensures w != "" && forall c :: c in w ==> c != '-' {
        RunsAreSlugs(title, w);
      }
      JoinEnds(words);
      Trimmed(front, JoinBy("-", words), after);
    }
  }

  // ---------------------------------------------------------------- titles

  /** The text inside `title` and outside skipped elements; `open` says that a `title` is open. */
  function TitleFlow(c: Control, open: bool, events: seq<Event>): string
    decreases |events|
  {
    if events == [] then ""
    else
      var e := events[0];
      var seen := c.skipped == [] && (e.Start? ==> !Skips(e.tag, e.attrs));
      match e
      case Data(text) => (if seen && open then text else "") + TitleFlow(c, open, events[1..])
      case Start(tag, _) => TitleFlow(Move(c, e), open || (seen && tag == "title"), events[1..])
      case End(tag) => TitleFlow(Move(c, e), open && !(seen && tag == "title"), events[1..])
  }

  lemma {:induction false} StartTitle(s: State, tag: string, attrs: Attributes)
    ensures var t := StepStart(s, tag, attrs);
      t.title == s.title && t.inTitle == (s.inTitle || (s.skipped == [] && !Skips(tag, attrs) && tag == "title"))
  {
    hide IsVoid, Skips, IsTutorial, OpensHeading, BreaksAtStart, IsDense, IdOf, Compact;
  }

  lemma {:induction false} EndTitle(s: State, tag: string)
    ensures var t := StepEnd(s, tag);
      t.title == s.title && t.inTitle == (s.inTitle && !(s.skipped == [] && tag == "title"))
  {
    hide ClosesHeading, BreaksAtEnd, IsDense, AnchorFor, Compact;
  }

  /** The title that is kept is the text inside `title`. */
  lemma {:induction false} TitleIsKept(s: State, events: seq<Event>)
    ensures Concat(Run(s, events).title) == Concat(s.title) + TitleFlow(ControlOf(s), s.inTitle, events)
    decreases |events|
  {
    hide StepStart, StepEnd, Move, Skips, Concat;
    if events == [] {
      assert Concat(s.title) + "" == Concat(s.title);
    } else {
      var e, rest, t := events[0], events[1..], Step(s, events[0]);
      StepMoves(s, e);
      TitleIsKept(t, rest);
      match e {
        case Start(tag, attrs) => StartTitle(s, tag, attrs);
        case End(tag) => EndTitle(s, tag);
        case Data(text) =>
          ConcatPush(s.title, text);
          var more := TitleFlow(ControlOf(t), t.inTitle, rest);
          assert Concat(s.title) + text + more == Concat(s.title) + (text + more);
          assert Concat(s.title) + more == Concat(s.title) + ("" + more);
      }
    }
  }

  // --------------------------------------------------------------- records

  datatype SearchRecord = SearchRecord(title: string, pageTitle: string, path: string, text: string, excerpt: string,
                                       kind: Option<string>)

  const PAGE := "index.html"

  /** `relative.removesuffix('index.html')` */
  function Folder(relative: string): string {
    if |relative| >= |PAGE| && relative[|relative| - |PAGE|..] == PAGE then relative[..|relative| - |PAGE|]
    else relative
  }

  function RecordOf(s: State, relative: string, c: Section): SearchRecord {
    var pageTitle := Compact(s.title);
    SearchRecord(if c.heading != "" then c.heading else pageTitle, pageTitle,
                 Folder(relative) + if c.anchor != "" then "#" + c.anchor else "", Compact(c.parts), Compact(c.prose),
                 if s.pageKind != "" then Some(s.pageKind) else None)
  }

  /** The records of one page, section by section. */
  method Records(document: Document, relative: string) returns (records: seq<SearchRecord>)
    ensures |records| == |document.sections|
    ensures forall k :: 0 <= k < |records| ==> records[k] == RecordOf(document.Model(), relative, document.sections[k])
  {
    hide Compact, Folder;
    var pageTitle := Compact(document.title);
    records := [];
    for k := 0 to |document.sections|
      invariant |records| == k
      invariant forall j :: 0 <= j < k ==> records[j] == RecordOf(document.Model(), relative, document.sections[j])
    {
      var c := document.sections[k];
      var path := Folder(relative);
      if c.anchor != "" {
        path := path + ("#" + c.anchor);
      } else {
        path := path + "";
      }
      records := records + [SearchRecord(if c.heading != "" then c.heading else pageTitle, pageTitle, path,
                                         Compact(c.parts), Compact(c.prose),
                                         if document.pageKind != "" then Some(document.pageKind) else None)];
    }
  }

  /** The words of headings and texts, record by record. */
  function SearchWords(s: State, relative: string, sections: seq<Section>): seq<string> {
    if sections == [] then []
    else
      var n := |sections| - 1;
      SearchWords(s, relative, sections[..n]) + Words(sections[n].heading)
      + Words(RecordOf(s, relative, sections[n]).text)
  }

  function ExcerptWordsOf(s: State, relative: string, sections: seq<Section>): seq<string> {
    if sections == [] then []
    else
      var n := |sections| - 1;
      ExcerptWordsOf(s, relative, sections[..n]) + Words(RecordOf(s, relative, sections[n]).excerpt)
  }

  lemma {:induction false} SearchWordsAreHeld(s: State, relative: string, sections: seq<Section>)
    ensures SearchWords(s, relative, sections) == Words(Shelf(sections))
    ensures ExcerptWordsOf(s, relative, sections) == Words(ProseShelf(sections))
  {
    hide Words, Compact, Shelf, ProseShelf;
    if sections == [] {
      EmptyShelves();
    } else {
      var n := |sections| - 1;
      var c := sections[n];
      SearchWordsAreHeld(s, relative, sections[..n]);
      assert sections == sections[..n] + [c];
      ShelfPush(sections[..n], c);
      ProsePush(sections[..n], c);
      FrontWords(c);
      CompactIsSpaced(c.parts);
      CompactIsSpaced(c.prose);
      assert Words(Shelf(sections[..n])) + (Words(c.heading) + Words(Concat(c.parts)))
          == Words(Shelf(sections[..n])) + Words(c.heading) + Words(Concat(c.parts));
    }
  }

  lemma {:induction false} EmptyShelves()
    ensures Words(Shelf([])) == [] && Words(ProseShelf([])) == []
  {
  }

  /**
   What can be searched of a page is its words: headings and texts of the records have exactly the words inside `main`
   and outside skipped elements, blocks and headings apart, and the excerpts exactly those of its prose.
  */
  lemma {:induction false} PageIsSearchable(ids: set<string>, events: seq<Event>, relative: string)
    requires Uncut(Watch(OUTSIDE, "", ""), events) && NothingPending(events)
    ensures var s := Run(Initial(ids), events);
      && SearchWords(s, relative, s.sections) == Words(StreamFlow(OUTSIDE, events))
      && ExcerptWordsOf(s, relative, s.sections) == Words(ProseFlow(OUTSIDE, events))
      && (forall c :: c in s.sections ==>
           Spaced(RecordOf(s, relative, c).title) && Spaced(RecordOf(s, relative, c).text)
           && Spaced(RecordOf(s, relative, c).excerpt))
      && Words(Compact(s.title)) == Words(TitleFlow(OUTSIDE, false, events))
  {
    hide Run, StreamFlow, ProseFlow, TitleFlow, Words, Compact, Spaced, Uncut, NothingPending, Shelf, ProseShelf;
    var s := Run(Initial(ids), events);
    WordsArePublished(ids, events);
    ExcerptsArePublished(ids, events);
    SearchWordsAreHeld(s, relative, s.sections);
    InitialHeadings(ids);
    HeadingsAreSpaced(Initial(ids), events);
    CompactIsSpaced(s.title);
    forall c | c in s.sections
      ensures Spaced(RecordOf(s, relative, c).title) && Spaced(RecordOf(s, relative, c).text)
        && Spaced(RecordOf(s, relative, c).excerpt)
    {
      CompactIsSpaced(c.parts);
      CompactIsSpaced(c.prose);
    }
    TitleIsKept(Initial(ids), events);
    assert "" + TitleFlow(OUTSIDE, false, events) == TitleFlow(OUTSIDE, false, events);
  }

  lemma {:induction false} InitialHeadings(ids: set<string>)
    ensures HeadingsSpaced(Initial(ids)) && ControlOf(Initial(ids)) == OUTSIDE && !Initial(ids).inTitle
    ensures Concat(Initial(ids).title) == ""
  {
  }
}
