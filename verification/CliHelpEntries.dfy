/** Which lines of a help text name a command, and what the entry of a command says of it. */
module CliHelpEntries {
  import opened Prelude
  import opened Text
  import opened TextLaws
  import opened CliHelp

  predicate IsName(name: string) {
    name != "" && IsLetter(name[0]) && forall c :: c in name ==> IsNameChar(c)
  }

  /** Two spaces, the name, and then nothing or white space. */
  predicate NamesCommand(line: string, name: string) {
    && IsName(name) && "  " + name <= line
    && (|line| > |name| + 2 ==> IsSpace(line[|name| + 2]))
  }

  lemma {:induction false} NameRunIs(name: string, rest: string)
    requires (forall c :: c in name ==> IsNameChar(c)) && (rest != "" ==> !IsNameChar(rest[0]))
    ensures NameRun(name + rest) == |name|
  {
    if name == "" {
      assert name + rest == rest;
    } else {
      assert name[0] in name && (name + rest)[1..] == name[1..] + rest;
      NameRunIs(name[1..], rest);
    }
  }

  lemma {:induction false} NameRunNames(s: string)
    ensures forall c :: c in s[..NameRun(s)] ==> IsNameChar(c)
  {
    if s != "" && IsNameChar(s[0]) {
      NameRunNames(s[1..]);
      assert s[..NameRun(s)] == [s[0]] + s[1..][..NameRun(s[1..])];
    }
  }

  /** A line names one command at most, and exactly when it has the form of an entry. */
  lemma {:induction false} CommandNameIff(line: string, name: string)
    ensures CommandName(line) == Some(name) <==> NamesCommand(line, name)
  {
    if NamesCommand(line, name) {
      var rest := line[|name| + 2..];
      assert line[2..] == name + rest;
      assert line[0] == ("  " + name)[0] && line[1] == ("  " + name)[1] && line[2] == ("  " + name)[2];
      NameRunIs(name, rest);
      assert line[2..2 + |name|] == name && IsLetter(line[2]);
      assert rest != "" ==> line[2 + |name|] == rest[0];
    }
    if CommandName(line) == Some(name) {
      var n := NameRun(line[2..]);
      NameRunNames(line[2..]);
      assert name == line[2..][..n] && n >= 1 && |name| == n && name[0] == line[2];
      assert line[..2] == "  " && line[..n + 2] == line[..2] + name;
      assert "  " + name <= line;
    }
  }

  /** The same text, with another character for every space. */
  predicate SpacedBy(text: string, separator: char, spaced: string) {
    |text| == |spaced| && forall i :: 0 <= i < |text| ==> text[i] == if spaced[i] == ' ' then separator else spaced[i]
  }

  lemma {:induction false} JoinedAlike(words: seq<string>, separator: char)
    requires forall w :: w in words ==> ' ' !in w
    ensures SpacedBy(JoinBy([separator], words), separator, JoinBy(" ", words))
  {
    if words != [] {
      assert words[0] in words && forall i :: 0 <= i < |words[0]| ==> words[0][i] in words[0];
      JoinedAlike(words[1..], separator);
    }
  }

  /**
   The entry of a command: its words are those of the command line, its anchor the same with hyphens, its help what the
   executable printed for it.
  */
  lemma {:induction false} EntrySays(name: string, run: Executable, argv: Argv)
    requires IsWord(name) && forall w :: w in argv ==> IsWord(w)
    ensures var e := EntryOf(name, run, argv);
      && Words(e.commandLine) == [name] + argv && e.argv == argv && e.help == run(argv).lines
      && "help-" <= e.anchor && SpacedBy(e.anchor[5..], '-', e.commandLine)
  {
    var words := [name] + argv;
    forall w | w in words ensures IsWord(w) && ' ' !in w {
      assert w == name || w in argv;
    }
    WordsOfJoin(words);
    JoinedAlike(words, '-');
    assert EntryOf(name, run, argv).anchor[5..] == JoinBy("-", words);
  }
}
