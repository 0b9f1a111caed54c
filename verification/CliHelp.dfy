/** The breadth-first walk over the help of a command line, and the scan that finds the subcommands of one help text. */
module CliHelp {
  import opened Prelude
  import opened Text

  // ------------------------------------------------- subcommands of a text

  predicate IsHeader(line: string) {
    line == "Commands:" || line == "Additional command groups:"
  }

  /** A line that ends a section: it is not blank and not indented. */
  predicate Ends(line: string) {
    line != "" && line[0] != ' ' && !IsHeader(line)
  }

  predicate IsLetter(c: char) {
    'a' <= c <= 'z' || 'A' <= c <= 'Z'
  }

  predicate IsNameChar(c: char) {
    IsLetter(c) || IsDigit(c) || c == '_' || c == '-'
  }

  function NameRun(s: string): (n: nat)
    ensures n <= |s|
  {
    if s != "" && IsNameChar(s[0]) then 1 + NameRun(s[1..]) else 0
  }

  /** The name on a line of the form: two spaces, a name that starts with a letter, white space or nothing. */
  function CommandName(line: string): Option<string> {
    if |line| > 2 && line[0] == ' ' && line[1] == ' ' && IsLetter(line[2]) then
      var n := NameRun(line[2..]);
      if n == |line| - 2 || IsSpace(line[2 + n]) then Some(line[2..2 + n]) else None
    else None
  }

  /** The scan, given whether a section is open and the names found so far. */
  function ScanFrom(lines: seq<string>, open: bool, names: seq<string>): seq<string>
    decreases |lines|
  {
    if lines == [] then names
    else if IsHeader(lines[0]) then ScanFrom(lines[1..], true, names)
    else
      var stays := open && !Ends(lines[0]);
      var name := CommandName(lines[0]);
      if stays && name.Some? && name.value != "help" && name.value !in names
      then ScanFrom(lines[1..], stays, names + [name.value])
      else ScanFrom(lines[1..], stays, names)
  }

  function Subcommands(lines: seq<string>): seq<string> {
    ScanFrom(lines, false, [])
  }

  /** `help_subcommands` */
  method HelpSubcommands(lines: seq<string>) returns (names: seq<string>)
    ensures names == Subcommands(lines)
  {
    names := [];
    var inCommands := false;
    for i := 0 to |lines|
      invariant Subcommands(lines) == ScanFrom(lines[i..], inCommands, names)
    {
      var line := lines[i];
      assert lines[i..][0] == line && lines[i..][1..] == lines[i + 1..];
      if IsHeader(line) {
        inCommands := true;
        continue;
      }
      if inCommands && line != "" && line[0] != ' ' {
        inCommands := false;
      }
      if inCommands {
        var name := CommandName(line);
        if name.Some? && name.value != "help" && name.value !in names {
          names := names + [name.value];
        }
      }
    }
    assert lines[|lines|..] == [];
  }

  /**
   Line `i` stands in a section: some header comes before it, and no line in between, nor itself, ends the section.
  */
  predicate InSection(lines: seq<string>, i: nat)
    requires i < |lines|
  {
    !IsHeader(lines[i]) && exists j :: 0 <= j < i && IsHeader(lines[j]) && forall k :: j < k <= i ==> !Ends(lines[k])
  }

  /** Line `i` lists the command. */
  predicate Lists(lines: seq<string>, i: nat, name: string)
    requires i < |lines|
  {
    InSection(lines, i) && CommandName(lines[i]) == Some(name) && name != "help"
  }

  /** A section is open in front of line `i`. */
  ghost predicate OpenBefore(lines: seq<string>, i: nat)
    requires i <= |lines|
  {
    exists j :: 0 <= j < i && IsHeader(lines[j]) && forall k :: j < k < i ==> !Ends(lines[k])
  }

  ghost predicate FoundBefore(lines: seq<string>, i: nat, names: seq<string>)
    requires i <= |lines|
  {
    Distinct(names) && forall n :: n in names <==> exists k :: 0 <= k < i && Lists(lines, k, n)
  }

  lemma {:induction false} FoundStep(lines: seq<string>, i: nat, names: seq<string>, n: string)
    requires i < |lines| && FoundBefore(lines, i, names)
    requires forall m :: Lists(lines, i, m) ==> m == n
    ensures FoundBefore(lines, i + 1, if Lists(lines, i, n) && n !in names then names + [n] else names)
  {
    hide Lists;
  }

  lemma {:induction false} ScanInvariant(lines: seq<string>, i: nat, open: bool, names: seq<string>)
    requires i <= |lines| && open == OpenBefore(lines, i) && FoundBefore(lines, i, names)
    ensures FoundBefore(lines, |lines|, ScanFrom(lines[i..], open, names))
    decreases |lines| - i
  {
    hide IsHeader, Ends, CommandName, FoundBefore, OpenBefore, InSection;
    if i < |lines| {
      var line := lines[i];
      assert lines[i..][1..] == lines[i + 1..];
      HeaderDoesNotEnd(line);
      OpenStep(lines, i);
      var name := CommandName(line);
      var n := if name.Some? then name.value else "help";
      FoundStep(lines, i, names, n);
      ScanInvariant(lines, i + 1, IsHeader(line) || (open && !Ends(line)),
                    if Lists(lines, i, n) && n !in names then names + [n] else names);
    }
  }

  lemma {:induction false} HeaderDoesNotEnd(line: string)
    ensures IsHeader(line) ==> !Ends(line)
  {
  }

  lemma {:induction false} OpenStep(lines: seq<string>, i: nat)
    requires i < |lines|
    ensures OpenBefore(lines, i + 1) <==> IsHeader(lines[i]) || (OpenBefore(lines, i) && !Ends(lines[i]))
    ensures InSection(lines, i) <==> !IsHeader(lines[i]) && OpenBefore(lines, i) && !Ends(lines[i])
  {
    hide IsHeader, Ends;
    HeaderDoesNotEnd(lines[i]);
    if OpenBefore(lines, i) && !Ends(lines[i]) {
      var j :| 0 <= j < i && IsHeader(lines[j]) && forall k :: j < k < i ==> !Ends(lines[k]);
      assert forall k :: j < k <= i ==> !Ends(lines[k]);
    }
    if OpenBefore(lines, i + 1) && !IsHeader(lines[i]) {
      var j :| 0 <= j < i + 1 && IsHeader(lines[j]) && forall k :: j < k < i + 1 ==> !Ends(lines[k]);
      assert j < i;
    }
  }

  /** The scan finds, once each, exactly the commands other than `help` that some section lists. */
  lemma {:induction false} SubcommandsAreListed(lines: seq<string>)
    ensures Distinct(Subcommands(lines))
    ensures forall n :: n in Subcommands(lines) <==> exists k :: 0 <= k < |lines| && Lists(lines, k, n)
  {
    hide Lists, IsHeader, Ends;
    ScanInvariant(lines, 0, false, []);
    assert lines[0..] == lines;
  }

  // ------------------------------------------------------- the command tree

  type Argv = seq<string>

  /** What running a command with `--help` gives: whether it exits with 0, and the stripped output by lines. */
  datatype Output = Output(exitsWell: bool, lines: seq<string>)

  type Executable = Argv -> Output

  datatype HelpError = HelpFailed(argv: Argv) | NotHelp(argv: Argv)

  datatype Entry = Entry(commandLine: string, argv: Argv, anchor: string, help: seq<string>)

  predicate HasUsage(lines: seq<string>) {
    exists line :: line in lines && Contains(line, "Usage:")
  }

  function Problem(run: Executable, argv: Argv): Option<HelpError> {
    var out := run(argv);
    if !out.exitsWell then Some(HelpFailed(argv))
    else if !HasUsage(out.lines) then Some(NotHelp(argv))
    else None
  }

  function EntryOf(name: string, run: Executable, argv: Argv): Entry {
    Entry(JoinBy(" ", [name] + argv), argv, "help-" + JoinBy("-", [name] + argv), run(argv).lines)
  }

  /** The children of a command, none if its help cannot be had. */
  function Children(run: Executable, argv: Argv): (cs: seq<Argv>) {
    if Problem(run, argv) != None then []
    else
      var names := Subcommands(run(argv).lines);
      seq(|names|, i requires 0 <= i < |names| => argv + [names[i]])
  }

  function Expand(run: Executable, argvs: seq<Argv>): seq<Argv> {
    if argvs == [] then [] else Children(run, argvs[0]) + Expand(run, argvs[1..])
  }

  /** The commands `d` words deep, in the order of the walk. */
  function Level(run: Executable, d: nat): seq<Argv> {
    if d == 0 then [[]] else Expand(run, Level(run, d - 1))
  }

  /** The commands less than `d` words deep, level by level. */
  function Levels(run: Executable, d: nat): seq<Argv> {
    if d == 0 then [] else Levels(run, d - 1) + Level(run, d - 1)
  }

  /** Every word is a subcommand that the help of the words before it lists. */
  ghost predicate IsCommand(run: Executable, argv: Argv) {
    forall i :: 0 <= i < |argv| ==> argv[..i + 1] in Children(run, argv[..i])
  }

  lemma {:induction false} ExpandAppend(run: Executable, a: seq<Argv>, b: seq<Argv>)
    ensures Expand(run, a + b) == Expand(run, a) + Expand(run, b)
  {
    hide Children;
    if a == [] {
      assert a + b == b;
    } else {
      assert (a + b)[1..] == a[1..] + b;
      ExpandAppend(run, a[1..], b);
    }
  }

  lemma {:induction false} ExpandMembers(run: Executable, argvs: seq<Argv>)
    ensures forall c :: c in Expand(run, argvs) <==> exists a :: a in argvs && c in Children(run, a)
  {
    hide Children;
    if argvs != [] {
      ExpandMembers(run, argvs[1..]);
      assert argvs == [argvs[0]] + argvs[1..];
    }
  }

  lemma {:induction false} ChildShape(run: Executable, argv: Argv)
    ensures forall c :: c in Children(run, argv) ==> |c| == |argv| + 1 && c[..|argv|] == argv
    ensures Distinct(Children(run, argv))
  {
    var names := Subcommands(run(argv).lines);
    SubcommandsAreListed(run(argv).lines);
    hide Subcommands, Problem, Lists;
    var cs := Children(run, argv);
    forall i, j | 0 <= i < j < |cs|
      ensures cs[i] != cs[j]
    {
      assert cs[i][|argv|] == names[i] && cs[j][|argv|] == names[j];
    }
  }

  lemma {:induction false} ExpandDistinct(run: Executable, argvs: seq<Argv>, n: nat)
    requires Distinct(argvs) && forall a :: a in argvs ==> |a| == n
    ensures Distinct(Expand(run, argvs)) && forall c :: c in Expand(run, argvs) ==> |c| == n + 1
  {
    hide Children, Distinct;
    if argvs == [] {
      NoneDistinct();
    } else {
      var head, tail := Children(run, argvs[0]), Expand(run, argvs[1..]);
      assert argvs[0] in argvs;
      ChildShape(run, argvs[0]);
      RestDistinct(argvs);
      ExpandDistinct(run, argvs[1..], n);
      ExpandMembers(run, argvs[1..]);
      forall x | x in head
        ensures x !in tail
      {
        if x in tail {
          var a :| a in argvs[1..] && x in Children(run, a);
          ChildShape(run, a);
        }
      }
      AppendDistinct(head, tail);
    }
  }

  lemma {:induction false} NoneDistinct()
    ensures Distinct<Argv>([]) && Deepening([])
  {
  }

  lemma {:induction false} RestDistinct(s: seq<Argv>)
    requires s != [] && Distinct(s)
    ensures Distinct(s[1..]) && s[0] !in s[1..]
  {
  }

  lemma {:induction false} AppendDistinct(s: seq<Argv>, t: seq<Argv>)
    requires Distinct(s) && Distinct(t) && forall x :: x in s ==> x !in t
    ensures Distinct(s + t)
  {
    forall i, j | 0 <= i < j < |s + t|
      ensures (s + t)[i] != (s + t)[j]
    {
      if i < |s| <= j {
        assert s[i] in s && t[j - |s|] in t;
      }
    }
  }

  lemma {:induction false} LevelShape(run: Executable, d: nat)
    ensures Distinct(Level(run, d)) && forall a :: a in Level(run, d) ==> |a| == d
  {
    hide Expand;
    if d > 0 {
      LevelShape(run, d - 1);
      ExpandDistinct(run, Level(run, d - 1), d - 1);
    }
  }

  /** A command belongs to the command in front of its last word. */
  lemma {:induction false} CommandAndParent(run: Executable, argv: Argv)
    requires argv != []
    ensures IsCommand(run, argv)
       <==> IsCommand(run, argv[..|argv| - 1]) && argv in Children(run, argv[..|argv| - 1])
  {
    hide Children;
    var n := |argv| - 1;
    var parent := argv[..n];
    assert argv[..n + 1] == argv;
    forall i | 0 <= i < n
      ensures parent[..i + 1] in Children(run, parent[..i]) <==> argv[..i + 1] in Children(run, argv[..i])
    {
      assert parent[..i + 1] == argv[..i + 1] && parent[..i] == argv[..i];
    }
  }

  lemma {:induction false} CommandPrefix(run: Executable, argv: Argv, n: nat)
    requires IsCommand(run, argv) && n <= |argv|
    ensures IsCommand(run, argv[..n])
  {
    hide Children;
    forall i | 0 <= i < n
      ensures argv[..n][..i + 1] in Children(run, argv[..n][..i])
    {
      assert argv[..n][..i + 1] == argv[..i + 1] && argv[..n][..i] == argv[..i];
    }
  }

  /** Level `d` holds exactly the commands of `d` words. */
  lemma {:induction false} LevelIsComplete(run: Executable, d: nat, argv: Argv)
    ensures argv in Level(run, d) <==> |argv| == d && IsCommand(run, argv)
  {
    hide Children, Expand, IsCommand, Distinct;
    LevelShape(run, d);
    if d == 0 {
      assert argv == [] ==> argv in Level(run, 0) && IsCommand(run, argv) by { RootIsCommand(run); }
    } else if |argv| == d {
      var parent := argv[..d - 1];
      LevelIsComplete(run, d - 1, parent);
      CommandAndParent(run, argv);
      ExpandMembers(run, Level(run, d - 1));
      if argv in Level(run, d) {
        LevelShape(run, d - 1);
        var a :| a in Level(run, d - 1) && argv in Children(run, a);
        ChildShape(run, a);
      }
    }
  }

  lemma {:induction false} RootIsCommand(run: Executable)
    ensures IsCommand(run, [])
  {
  }

  /** The walk starts at the root and then lists the children of everything it lists. */
  lemma {:induction false} LevelsExpand(run: Executable, d: nat)
    ensures Levels(run, d + 1) == [[]] + Expand(run, Levels(run, d))
  {
    hide Expand;
    if d == 0 {
      assert Levels(run, 1) == Levels(run, 0) + Level(run, 0);
      assert Expand(run, []) == [] by { ExpandNothing(run); }
    } else {
      LevelsExpand(run, d - 1);
      ExpandAppend(run, Levels(run, d - 1), Level(run, d - 1));
    }
  }

  lemma {:induction false} ExpandNothing(run: Executable)
    ensures Expand(run, []) == []
  {
  }

  predicate Deepening(s: seq<Argv>) {
    forall i, j :: 0 <= i < j < |s| ==> |s[i]| <= |s[j]|
  }

  lemma {:induction false} LevelsShape(run: Executable, d: nat)
    ensures Distinct(Levels(run, d)) && Deepening(Levels(run, d)) && forall a :: a in Levels(run, d) ==> |a| < d
  {
    hide Level, Distinct, Deepening;
    if d > 0 {
      LevelsShape(run, d - 1);
      LevelShape(run, d - 1);
      AppendDeeper(Levels(run, d - 1), Level(run, d - 1), d - 1);
    } else {
      NoneDistinct();
    }
  }

  lemma {:induction false} AppendDeeper(s: seq<Argv>, t: seq<Argv>, d: nat)
    requires Distinct(t) && forall a :: a in t ==> |a| == d
    requires s != [] ==> Distinct(s) && Deepening(s) && forall a :: a in s ==> |a| < d
    ensures Distinct(s + t) && Deepening(s + t) && forall a :: a in s + t ==> |a| <= d
  {
    forall i, j | 0 <= i < j < |s + t|
      ensures (s + t)[i] != (s + t)[j] && |(s + t)[i]| <= |(s + t)[j]|
    {
      if i < |s| {
        assert s[i] in s;
      } else {
        assert t[i - |s|] in t;
      }
      if j >= |s| {
        assert t[j - |s|] in t;
      }
    }
  }

  lemma {:induction false} LevelsMembers(run: Executable, d: nat, argv: Argv)
    ensures argv in Levels(run, d) <==> |argv| < d && IsCommand(run, argv)
  {
    hide Level, IsCommand;
    if d > 0 {
      LevelsMembers(run, d - 1, argv);
      LevelIsComplete(run, d - 1, argv);
    }
  }

  /** The tree is finite: no command has `height` words. */
  ghost predicate Height(run: Executable, height: nat) {
    Level(run, height) == []
  }

  lemma {:induction false} NothingDeeper(run: Executable, height: nat, argv: Argv)
    requires Height(run, height) && IsCommand(run, argv)
    ensures |argv| < height
  {
    hide Level, Children, IsCommand;
    if |argv| >= height {
      CommandPrefix(run, argv, height);
      LevelIsComplete(run, height, argv[..height]);
    }
  }

  // ---------------------------------------------------------------- the walk

  /** The error is that of the first command in the walk whose help cannot be had. */
  ghost predicate FirstProblem(run: Executable, all: seq<Argv>, e: HelpError) {
    exists i :: 0 <= i < |all| && Problem(run, all[i]) == Some(e) && forall j :: 0 <= j < i ==>
      Problem(run, all[j]) == None
  }

  /** `collect_help`: a queue of commands whose help is still to be read. */
  method CollectHelp(name: string, run: Executable, ghost height: nat) returns (r: Result<seq<Entry>, HelpError>)
    requires Height(run, height)
    ensures var all := Levels(run, height);
            match r
            case Ok(entries) =>
              && (forall a :: a in all ==> Problem(run, a) == None)
              && entries == seq(|all|, i requires 0 <= i < |all| => EntryOf(name, run, all[i]))
            case Err(e) => FirstProblem(run, all, e)
  {
    hide Levels, Level, Expand, Problem, EntryOf;
    ghost var all := Levels(run, height);
    WalkFacts(run, height);
    var entries: seq<Entry> := [];
    var pending: seq<Argv> := [[]];
    var seen: set<Argv> := {};
    ghost var k := 0;
    QueueStarts(run, all);
    while pending != []
      invariant 0 <= k <= |all| && |entries| == k
      invariant forall i :: 0 <= i < k ==> entries[i] == EntryOf(name, run, all[i])
      invariant forall i :: 0 <= i < k ==> Problem(run, all[i]) == None
      invariant forall a :: a in seen <==> a in all[..k]
      invariant IsQueue(run, all, k, pending)
      decreases |all| - k
    {
      QueueFirst(run, all, k, pending);
      var argv := pending[0];
      pending := pending[1..];
      if argv in seen {
        // Never taken: no command is queued twice.
        assert false;
      }
      seen := seen + {argv};
      var problem := Problem(run, argv);
      if problem.Some? {
        assert FirstProblem(run, all, problem.value);
        return Err(problem.value);
      }
      entries := entries + [EntryOf(name, run, argv)];
      var children := ChildrenOf(run, argv);
      QueueNext(run, all, k, [argv] + pending, children);
      assert all[..k + 1] == all[..k] + [argv];
      pending := pending + children;
      k := k + 1;
    }
    QueueEmpty(run, all, k);
    return Ok(entries);
  }

  method ChildrenOf(run: Executable, argv: Argv) returns (children: seq<Argv>)
    requires Problem(run, argv) == None
    ensures children == Children(run, argv)
  {
    var names := HelpSubcommands(run(argv).lines);
    children := seq(|names|, i requires 0 <= i < |names| => argv + [names[i]]);
  }

  /** What the order of the whole walk satisfies. */
  ghost predicate EmitsInOrder(run: Executable, all: seq<Argv>) {
    all == [[]] + Expand(run, all) && Distinct(all) && Deepening(all)
  }

  /** The queue holds what the first `k` commands led to and has not been taken yet. */
  ghost predicate IsQueue(run: Executable, all: seq<Argv>, k: nat, pending: seq<Argv>) {
    && EmitsInOrder(run, all) && k <= |all|
    && k <= 1 + |Expand(run, all[..k])|
    && pending == ([[]] + Expand(run, all[..k]))[k..]
  }

  lemma {:induction false} WalkFacts(run: Executable, height: nat)
    requires Height(run, height)
    ensures EmitsInOrder(run, Levels(run, height))
  {
    LevelsExpand(run, height);
    LevelsShape(run, height);
    assert Levels(run, height + 1) == Levels(run, height) + [];
  }

  lemma {:induction false} QueueStarts(run: Executable, all: seq<Argv>)
    requires EmitsInOrder(run, all)
    ensures IsQueue(run, all, 0, [[]])
  {
    hide Children;
    assert all[..0] == [];
    assert [[]] + Expand(run, []) == [[]];
  }

  /** What has been queued so far is a prefix of the walk. */
  lemma {:induction false} QueuedIsPrefix(run: Executable, all: seq<Argv>, k: nat)
    requires EmitsInOrder(run, all) && k <= |all|
    ensures [[]] + Expand(run, all[..k]) <= all
    ensures all == [[]] + Expand(run, all[..k]) + Expand(run, all[k..])
  {
    hide Expand;
    assert all == all[..k] + all[k..];
    ExpandAppend(run, all[..k], all[k..]);
  }

  lemma {:induction false} QueueFirst(run: Executable, all: seq<Argv>, k: nat, pending: seq<Argv>)
    requires IsQueue(run, all, k, pending) && pending != []
    ensures k < |all| && pending[0] == all[k] && all[k] !in all[..k]
  {
    hide Expand;
    QueuedIsPrefix(run, all, k);
  }

  lemma {:induction false} QueueNext(run: Executable, all: seq<Argv>, k: nat, pending: seq<Argv>, children: seq<Argv>)
    requires IsQueue(run, all, k, pending) && pending != [] && children == Children(run, pending[0])
    ensures IsQueue(run, all, k + 1, pending[1..] + children)
  {
    hide Expand, Children;
    QueueFirst(run, all, k, pending);
    assert all[..k + 1] == all[..k] + [all[k]];
    ExpandAppend(run, all[..k], [all[k]]);
    assert Expand(run, [all[k]]) == Children(run, all[k]) by { ExpandOne(run, all[k]); }
  }

  lemma {:induction false} ExpandOne(run: Executable, argv: Argv)
    ensures Expand(run, [argv]) == Children(run, argv)
  {
    hide Children;
    assert [argv][1..] == [];
  }

  /** The queue runs dry only at the end: otherwise a command would be queued by one that is not shallower. */
  lemma {:induction false} QueueEmpty(run: Executable, all: seq<Argv>, k: nat)
    requires IsQueue(run, all, k, [])
    ensures k == |all|
  {
    hide Expand, Children, Distinct, Deepening;
    QueuedIsPrefix(run, all, k);
    var queued := [[]] + Expand(run, all[..k]);
    assert |queued| == k + |queued[k..]| == k;
    if k < |all| {
      var later := Expand(run, all[k..]);
      assert all == queued + later;
      assert all[k] == later[0] && later[0] in later;
      ExpandMembers(run, all[k..]);
      var a :| a in all[k..] && later[0] in Children(run, a);
      ChildShape(run, a);
      LaterIsDeeper(all, k, a);
    }
  }

  lemma {:induction false} LaterIsDeeper(all: seq<Argv>, k: nat, a: Argv)
    requires Deepening(all) && k < |all| && a in all[k..]
    ensures |all[k]| <= |a|
  {
    var j :| 0 <= j < |all[k..]| && all[k..][j] == a;
    assert all[k + j] == a;
  }

  /**
   The walk lists every command of the tree once, nothing else, in non-decreasing depth, and each command after
   the command it belongs to.
  */
  lemma {:induction false} WalkIsComplete(run: Executable, height: nat)
    requires Height(run, height)
    ensures var all := Levels(run, height);
            && Distinct(all)
            && (forall argv :: argv in all <==> IsCommand(run, argv))
            && Deepening(all)
            && (forall i :: 0 <= i < |all| && all[i] != [] ==>
                  exists j :: 0 <= j < i && all[j] == all[i][..|all[i]| - 1])
  {
    hide Levels, Height, Children, IsCommand;
    var all := Levels(run, height);
    LevelsShape(run, height);
    forall argv
      ensures argv in all <==> IsCommand(run, argv)
    {
      LevelsMembers(run, height, argv);
      if IsCommand(run, argv) {
        NothingDeeper(run, height, argv);
      }
    }
    forall i | 0 <= i < |all| && all[i] != []
      ensures exists j :: 0 <= j < i && all[j] == all[i][..|all[i]| - 1]
    {
      var argv := all[i];
      assert argv in all;
      CommandPrefix(run, argv, |argv| - 1);
      var j :| 0 <= j < |all| && all[j] == argv[..|argv| - 1];
      assert j < i;
    }
  }
}
