/**
 The documentation indexer: a machine that reads the events of an HTML parser and cuts the text of `main` into
 sections with headings and anchors. The class keeps the state of the original; `State` and `Step` specify it.
*/
module DocsIndex {
  import opened Prelude
  import opened Text

  /** The value of an attribute may be missing. */
  type Attributes = map<string, Option<string>>

  datatype Event = Start(tag: string, attrs: Attributes) | End(tag: string) | Data(text: string)

  datatype Section = Section(heading: string, anchor: string, parts: seq<string>, prose: seq<string>)

  const EMPTY := Section("", "", [], [])

  datatype State = State(inMain: bool, pageKind: string, inTitle: bool, skipped: seq<string>, dense: nat,
                         title: seq<string>, sections: seq<Section>, current: Section, heading: Option<seq<string>>,
                         headingId: string, ids: set<string>)

  function Initial(ids: set<string>): State {
    State(false, "", false, [], 0, [], [], EMPTY, None, "", ids)
  }

  // ----------------------------------------------------------------- tags

  predicate IsVoid(tag: string) {
    tag in ["area", "base", "br", "col", "embed", "hr", "img", "input", "link", "meta", "param", "source", "track",
            "wbr"]
  }

  predicate Skips(tag: string, attrs: Attributes) {
    tag in ["script", "style", "noscript", "nav", "aside"] || "data-toc-skip" in attrs
  }

  predicate IsDense(tag: string) {
    tag == "pre" || tag == "table"
  }

  predicate BreaksAtStart(tag: string) {
    tag in ["p", "li", "div", "pre", "tr", "td", "br"]
  }

  predicate BreaksAtEnd(tag: string) {
    tag in ["p", "li", "div", "pre", "tr", "td"]
  }

  /** The end of such an element closes a heading. */
  predicate ClosesHeading(tag: string) {
    tag in ["h2", "h3", "h4", "summary"]
  }

  /** `attrs.get('id')`, empty when it is missing or has no value. */
  function IdOf(attrs: Attributes): string {
    if "id" in attrs && attrs["id"].Some? then attrs["id"].value else ""
  }

  predicate OpensHeading(tag: string, attrs: Attributes) {
    tag in ["h2", "h3", "h4"] || (tag == "summary" && IdOf(attrs) != "")
  }

  predicate IsTutorial(attrs: Attributes) {
    "data-page" in attrs && attrs["data-page"] in
      [Some("start"), Some("css"), Some("loss"), Some("decode"), Some("data"), Some("rust")]
  }

  // ----------------------------------------------------------------- text

  function Concat(parts: seq<string>): string {
    if parts == [] then "" else parts[0] + Concat(parts[1..])
  }

  /** `compact`: the words of the text, one space apart. */
  function Compact(parts: seq<string>): string {
    JoinBy(" ", Words(Concat(parts)))
  }

  function Lower(c: char): char {
    if 'A' <= c <= 'Z' then (c as int + 32) as char else c
  }

  predicate IsSlugChar(c: char) {
    'a' <= c <= 'z' || IsDigit(c)
  }

  /** Every run of other characters becomes one hyphen; `gap` says that the last character written is one. */
  function Hyphenate(s: string, gap: bool): string {
    if s == "" then ""
    else if IsSlugChar(Lower(s[0])) then [Lower(s[0])] + Hyphenate(s[1..], false)
    else (if gap then "" else "-") + Hyphenate(s[1..], true)
  }

  function TrimLeft(s: string): string {
    if s != "" && s[0] == '-' then TrimLeft(s[1..]) else s
  }

  function TrimRight(s: string): string {
    if s != "" && s[|s| - 1] == '-' then TrimRight(s[..|s| - 1]) else s
  }

  function Slug(title: string): string {
    var slug := TrimRight(TrimLeft(Hyphenate(title, false)));
    if slug == "" then "section" else slug
  }

  // -------------------------------------------------------------- anchors

  /** The anchors tried for a slug: the slug, then the slug with 2, 3, ... behind it. */
  function Candidate(slug: string, n: nat): string {
    if n < 2 then slug else slug + "-" + PrintNat(n)
  }

  /** The first candidate from the `n`-th on that is not taken. */
  function Search(slug: string, taken: set<string>, n: nat): string
    decreases |taken|
  {
    var c := Candidate(slug, n);
    if c in taken then
      assert |taken - {c}| < |taken|;
      Search(slug, taken - {c}, n + 1)
    else c
  }

  function FreshAnchor(slug: string, ids: set<string>): string {
    Search(slug, ids, 1)
  }

  lemma {:induction false} CandidatesDiffer(slug: string, m: nat, n: nat)
    requires 1 <= m < n
    ensures Candidate(slug, m) != Candidate(slug, n)
  {
    var a, b := Candidate(slug, m), Candidate(slug, n);
    if a == b {
      assert |b| > |slug|;
      assert a[|slug| + 1..] == PrintNat(m) && b[|slug| + 1..] == PrintNat(n);
      PrintNatInjective(m, n);
    }
  }

  // ----------------------------------------------------------------- steps

  function Flush(s: State): State {
    s.(sections := if s.current.heading != "" || Compact(s.current.parts) != "" then s.sections
      + [s.current] else s.sections,
       current := EMPTY)
  }

  function Break(s: State): State {
    s.(current := s.current.(parts := s.current.parts + [" "],
                             prose := if s.dense == 0 then s.current.prose + [" "] else s.current.prose))
  }

  function Enter(s: State, tag: string): State {
    s.(inMain := s.inMain || tag == "main", inTitle := s.inTitle || tag == "title")
  }

  /** A start tag inside `main`. */
  function StartInMain(s: State, tag: string, attrs: Attributes): State {
    var s1 := s.(dense := if IsDense(tag) then s.dense + 1 else s.dense,
                 ids := if IdOf(attrs) != "" then s.ids + {IdOf(attrs)} else s.ids);
    var s2 := if OpensHeading(tag, attrs) then Flush(s1).(heading := Some([]), headingId := IdOf(attrs)) else s1;
    if BreaksAtStart(tag) then Break(s2) else s2
  }

  function SeeBody(s: State, tag: string, attrs: Attributes): State {
    if tag == "body" then s.(pageKind := if IsTutorial(attrs) then "tutorial" else "") else s
  }

  function StepStart(s: State, tag: string, attrs: Attributes): State {
    var s0 := SeeBody(s, tag, attrs);
    if s0.skipped != [] || Skips(tag, attrs) then
      if IsVoid(tag) then s0 else s0.(skipped := s0.skipped + [tag])
    else
      var s1 := Enter(s0, tag);
      if s1.inMain then StartInMain(s1, tag, attrs) else s1
  }

  /** The anchor the heading that is being closed gets. */
  function AnchorFor(s: State): string
    requires s.heading.Some?
  {
    if s.headingId != "" then s.headingId else FreshAnchor(Slug(Compact(s.heading.value)), s.ids)
  }

  function CloseHeading(s: State): State
    requires s.heading.Some?
  {
    var anchor := AnchorFor(s);
    s.(ids := if s.headingId != "" then s.ids else s.ids + {anchor},
       current := s.current.(heading := Compact(s.heading.value), anchor := anchor),
       heading := None)
  }

  function EndHeading(s: State, tag: string): State {
    if ClosesHeading(tag) && s.heading.Some? then CloseHeading(s) else s
  }

  function Leave(s: State, tag: string): State {
    var s1 := if tag == "main" then Flush(s).(inMain := false) else s;
    s1.(inTitle := s1.inTitle && tag != "title",
        dense := if s1.inMain && IsDense(tag) && s1.dense > 0 then s1.dense - 1 else s1.dense)
  }

  function StepEnd(s: State, tag: string): State {
    if s.skipped != [] then
      if tag == s.skipped[|s.skipped| - 1] then s.(skipped := s.skipped[..|s.skipped| - 1]) else s
    else
      var s1 := Leave(EndHeading(s, tag), tag);
      if s1.inMain && BreaksAtEnd(tag) then Break(s1) else s1
  }

  function StepData(s: State, text: string): State {
    if s.skipped != [] then s
    else
      var s1 := if s.inTitle then s.(title := s.title + [text]) else s;
      if !s1.inMain then s1
      else if s1.heading.Some? then s1.(heading := Some(s1.heading.value + [text]))
      else s1.(current := s1.current.(parts := s1.current.parts + [text],
                                      prose := if s1.dense == 0 then s1.current.prose + [text] else s1.current.prose))
  }

  function Step(s: State, e: Event): State {
    match e
    case Start(tag, attrs) => StepStart(s, tag, attrs)
    case End(tag) => StepEnd(s, tag)
    case Data(text) => StepData(s, text)
  }

  function Run(s: State, events: seq<Event>): State
    decreases |events|
  {
    if events == [] then s else Run(Step(s, events[0]), events[1..])
  }

  // -------------------------------------------------------------- the class

  class Document {
    var inMain: bool
    var pageKind: string
    var inTitle: bool
    var skipped: seq<string>
    var dense: nat
    var title: seq<string>
    var sections: seq<Section>
    var current: Section
    var heading: Option<seq<string>>
    var headingId: string
    var ids: set<string>

    function Model(): State
      reads this
    {
      State(inMain, pageKind, inTitle, skipped, dense, title, sections, current, heading, headingId, ids)
    }

    constructor (ids: set<string>)
      ensures Model() == Initial(ids)
    {
      inMain := false;
      pageKind := "";
      inTitle := false;
      skipped := [];
      dense := 0;
      title := [];
      sections := [];
      current := EMPTY;
      heading := None;
      headingId := "";
      this.ids := ids;
    }

    method DoFlush()
      modifies this
      ensures Model() == Flush(old(Model()))
    {
      if current.heading != "" || Compact(current.parts) != "" {
        sections := sections + [current];
      }
      current := EMPTY;
    }

    method DoBreak()
      modifies this
      ensures Model() == Break(old(Model()))
    {
      current := current.(parts := current.parts + [" "]);
      if dense == 0 {
        current := current.(prose := current.prose + [" "]);
      }
    }

    method HandleStartTag(tag: string, attrs: Attributes)
      modifies this
      ensures Model() == StepStart(old(Model()), tag, attrs)
    {
      hide IsVoid, Skips, StartInMain, IsTutorial;
      if tag == "body" {
        pageKind := if IsTutorial(attrs) then "tutorial" else "";
      }
      if skipped != [] || Skips(tag, attrs) {
        if !IsVoid(tag) {
          skipped := skipped + [tag];
        }
        return;
      }
      assert Model() == SeeBody(old(Model()), tag, attrs);
      if tag == "main" {
        inMain := true;
      }
      if tag == "title" {
        inTitle := true;
      }
      assert Model() == Enter(SeeBody(old(Model()), tag, attrs), tag);
      if !inMain {
        return;
      }
      HandleStartInMain(tag, attrs);
    }

    method HandleStartInMain(tag: string, attrs: Attributes)
      modifies this
      ensures Model() == StartInMain(old(Model()), tag, attrs)
    {
      hide IsDense, OpensHeading, BreaksAtStart, IdOf, Flush, Break;
      if IsDense(tag) {
        dense := dense + 1;
      }
      var id := IdOf(attrs);
      if id != "" {
        ids := ids + {id};
      }
      if OpensHeading(tag, attrs) {
        DoFlush();
        heading := Some([]);
        headingId := id;
      }
      if BreaksAtStart(tag) {
        DoBreak();
      }
    }

    /** The suffix loop; it ends because the candidates are pairwise different and `ids` is finite. */
    method FindAnchor(slug: string) returns (anchor: string)
      ensures anchor == FreshAnchor(slug, ids) && anchor !in ids
    {
      hide Candidate;
      anchor := slug;
      var n: nat := 2;
      ghost var tried: set<string> := {};
      assert slug == Candidate(slug, 1) by { FirstCandidate(slug); }
      assert ids - tried == ids;
      while anchor in ids
        invariant 2 <= n && anchor == Candidate(slug, n - 1)
        invariant tried <= ids && forall c :: c in tried ==> exists m :: 1 <= m < n - 1 && c == Candidate(slug, m)
        invariant FreshAnchor(slug, ids) == Search(slug, ids - tried, n - 1)
        decreases |ids - tried|
      {
        Untried(slug, n, tried);
        assert ids - tried - {anchor} == ids - (tried + {anchor});
        assert ids - (tried + {anchor}) < ids - tried;
        ProperSubset(ids - (tried + {anchor}), ids - tried);
        tried := tried + {anchor};
        anchor := Candidate(slug, n);
        n := n + 1;
      }
    }

    method HandleEndTag(tag: string)
      modifies this
      ensures Model() == StepEnd(old(Model()), tag)
    {
      hide ClosesHeading, BreaksAtEnd, Break, IsDense, Flush, CloseHeading;
      if skipped != [] {
        if tag == skipped[|skipped| - 1] {
          skipped := skipped[..|skipped| - 1];
        }
        return;
      }
      if ClosesHeading(tag) && heading.Some? {
        DoCloseHeading();
      }
      assert Model() == EndHeading(old(Model()), tag);
      if tag == "main" {
        DoFlush();
        inMain := false;
      }
      if tag == "title" {
        inTitle := false;
      }
      if inMain && IsDense(tag) {
        dense := if dense > 0 then dense - 1 else 0;
      }
      assert Model() == Leave(EndHeading(old(Model()), tag), tag);
      if inMain && BreaksAtEnd(tag) {
        DoBreak();
      }
    }

    method DoCloseHeading()
      requires heading.Some?
      modifies this
      ensures Model() == CloseHeading(old(Model()))
    {
      hide FreshAnchor, Slug, Compact;
      var text := Compact(heading.value);
      var anchor := headingId;
      if anchor == "" {
        anchor := FindAnchor(Slug(text));
        ids := ids + {anchor};
      }
      current := current.(heading := text, anchor := anchor);
      heading := None;
    }

    method HandleData(text: string)
      modifies this
      ensures Model() == StepData(old(Model()), text)
    {
      if skipped != [] {
        return;
      }
      if inTitle {
        title := title + [text];
      }
      if inMain {
        if heading.Some? {
          heading := Some(heading.value + [text]);
        } else {
          current := current.(parts := current.parts + [text]);
          if dense == 0 {
            current := current.(prose := current.prose + [text]);
          }
        }
      }
    }

    method Feed(events: seq<Event>)
      modifies this
      ensures Model() == Run(old(Model()), events)
    {
      hide Step;
      var i := 0;
      while i < |events|
        invariant i <= |events|
        invariant Run(old(Model()), events) == Run(Model(), events[i..])
      {
        assert events[i..][0] == events[i] && events[i..][1..] == events[i + 1..];
        assert Step(Model(), events[i]) == match events[i]
          case Start(tag, attrs) => StepStart(Model(), tag, attrs)
          case End(tag) => StepEnd(Model(), tag)
          case Data(text) => StepData(Model(), text) by { StepIs(Model(), events[i]); }
        match events[i] {
          case Start(tag, attrs) => HandleStartTag(tag, attrs);
          case End(tag) => HandleEndTag(tag);
          case Data(text) => HandleData(text);
        }
        i := i + 1;
      }
    }
  }

  lemma {:induction false} StepIs(s: State, e: Event)
    ensures Step(s, e) == match e
      case Start(tag, attrs) => StepStart(s, tag, attrs)
      case End(tag) => StepEnd(s, tag)
      case Data(text) => StepData(s, text)
  {
  }

  lemma {:induction false} FirstCandidate(slug: string)
    ensures Candidate(slug, 1) == slug
  {
  }

  lemma {:induction false} Untried(slug: string, n: nat, tried: set<string>)
    requires 2 <= n && forall c :: c in tried ==> exists m :: 1 <= m < n - 1 && c == Candidate(slug, m)
    ensures Candidate(slug, n - 1) !in tried
  {
    hide Candidate;
    if Candidate(slug, n - 1) in tried {
      var m :| 1 <= m < n - 1 && Candidate(slug, n - 1) == Candidate(slug, m);
      CandidatesDiffer(slug, m, n - 1);
    }
  }

  lemma {:induction false} ProperSubset(a: set<string>, b: set<string>)
    requires a < b
    ensures |a| < |b|
  {
    assert |b| == |a| + |b - a|;
    assert b - a != {};
  }

  // ------------------------------------------------------- the two passes

  /** `IdCollector`: the ids of all start tags. */
  function ExplicitIds(events: seq<Event>): set<string> {
    set e | e in events && e.Start? && IdOf(e.attrs) != "" :: IdOf(e.attrs)
  }

  /** Collects the ids of the page first and reads it again with all of them taken. */
  method Index(events: seq<Event>) returns (document: Document)
    ensures fresh(document) && document.Model() == Run(Initial(ExplicitIds(events)), events)
  {
    var ids: set<string> := {};
    for i := 0 to |events|
      invariant ids == ExplicitIds(events[..i])
    {
      assert events[..i + 1] == events[..i] + [events[i]];
      if events[i].Start? && IdOf(events[i].attrs) != "" {
        ids := ids + {IdOf(events[i].attrs)};
      }
    }
    assert events[..|events|] == events;
    document := new Document(ids);
    document.Feed(events);
  }
}
