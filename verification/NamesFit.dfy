/** Which names of members fit the grammar of a listing: all but, possibly, those of retained files. */
module NamesFit {
  import opened Prelude
  import opened Evidence
  import opened Checksums
  import opened Publication

  /** Two dots in a row. */
  predicate DotsAt(s: string, i: int) {
    0 <= i < |s| - 1 && s[i] == '.' && s[i + 1] == '.'
  }

  lemma {:induction false} PartsWithoutDots(path: string, part: string)
    requires forall i :: !DotsAt(part + path, i)
    ensures ".." !in Parts(path, part)
    decreases |path|
  {
    if path == "" {
      assert part + path == part;
      assert !DotsAt(part, 0);
    } else {
      var rest := path[1..];
      if path[0] == '/' {
        forall i ensures !DotsAt("" + rest, i) {
          assert !DotsAt(part + path, i + |part| + 1);
        }
        PartsWithoutDots(rest, "");
        assert part != ".." by {
          assert !DotsAt(part + path, 0);
        }
      } else {
        assert part + [path[0]] + rest == part + path;
        PartsWithoutDots(rest, part + [path[0]]);
      }
    }
  }

  /** What can be read off a piece of a name without taking it apart into directories. */
  predicate Plain(s: string) {
    s != "" && (forall c :: c in s ==> IsNameChar(c)) && forall i :: 0 <= i < |s| ==> !DotsAt(s, i)
  }

  lemma {:induction false} PlainJoin(a: string, b: string)
    requires Plain(a) && Plain(b) && a[|a| - 1] != '.'
    ensures Plain(a + b)
  {
    hide IsNameChar;
    forall i | 0 <= i < |a + b| ensures !DotsAt(a + b, i) {
      assert i < |a| ==> !DotsAt(a, i);
      assert i >= |a| ==> !DotsAt(b, i - |a|);
    }
  }

  lemma {:induction false} PlainIsGood(s: string)
    requires Plain(s) && IsAlnum(s[0]) && s[|s| - 1] != '/'
    ensures GoodName(s)
  {
    hide Parts;
    assert "" + s == s;
    PartsWithoutDots(s, "");
  }

  lemma {:induction false} FilesFit(directory: string, file: string)
    requires Plain(directory) && Plain(file) && IsAlnum(directory[0])
    requires directory[|directory| - 1] != '.' && file[|file| - 1] != '/'
    ensures GoodName(directory + file)
  {
    hide GoodName, IsAlnum;
    PlainJoin(directory, file);
    var name := directory + file;
    assert name[0] == directory[0] && name[|name| - 1] == file[|file| - 1];
    PlainIsGood(name);
  }

  predicate Stands(s: string) {
    Plain(s) && IsAlnum(s[0]) && s[|s| - 1] != '/'
  }

  lemma {:induction false} RecordStands()
    ensures Stands(PathOf(PublicationMember))
  {
  }

  lemma {:induction false} SummaryStands()
    ensures Stands(PathOf(SummaryMember))
  {
  }

  lemma {:induction false} GateStands()
    ensures Stands(PathOf(GateMember))
  {
  }

  lemma {:induction false} MatrixStands()
    ensures Stands(PathOf(MatrixMember))
  {
  }

  lemma {:induction false} ScopeStands()
    ensures Stands(PathOf(ScopeMember))
  {
  }

  lemma {:induction false} PolicyStands()
    ensures Stands(PathOf(PolicyMember))
  {
  }

  lemma {:induction false} EvidenceDirectory()
    ensures Plain("evidence/")
  {
  }

  lemma {:induction false} EvidenceIsPlain(name: EvidenceName)
    ensures Plain(FileOf(name)) && FileOf(name)[|FileOf(name)| - 1] == 'n'
  {
  }

  lemma {:induction false} EvidencePathFits(name: EvidenceName)
    ensures GoodName(PathOf(EvidenceMember(name)))
  {
    hide GoodName, Plain, FileOf;
    EvidenceDirectory();
    EvidenceIsPlain(name);
    FilesFit("evidence/", FileOf(name));
  }

  lemma {:induction false} LinuxIsPlain()
    ensures Plain(TARGETS[0]) && TARGETS[0][|TARGETS[0]| - 1] == 'u'
  {
  }

  lemma {:induction false} MacIsPlain()
    ensures Plain(TARGETS[1]) && TARGETS[1][|TARGETS[1]| - 1] == 'n'
  {
  }

  lemma {:induction false} AroundTarget()
    ensures Plain("evidence/installed-") && Plain(".json")
  {
  }

  lemma {:induction false} ReportPathFits(target: string)
    requires target in TARGETS
    ensures GoodName(PathOf(ReportMember(target)))
  {
    hide GoodName, Plain;
    ReportPath(target);
    LinuxIsPlain();
    MacIsPlain();
    AroundTarget();
    var start := "evidence/installed-" + target;
    assert start[|start| - 1] == target[|target| - 1] != '.' by { assert target == TARGETS[0] || target == TARGETS[1]; }
    PlainJoin("evidence/installed-", target);
    FilesFit(start, ".json");
  }

  lemma {:induction false} ReportPath(target: string)
    ensures PathOf(ReportMember(target)) == "evidence/installed-" + target + ".json"
  {
    ReportHead(target);
  }

  /** Only the name of a retained file can be one that the listing does not accept. */
  lemma {:induction false} MemberFits(m: Member)
    requires !m.SumsMember? && !m.RetainedMember? && (m.ReportMember? ==> m.target in TARGETS)
    ensures GoodName(PathOf(m))
  {
    hide GoodName, PathOf, Plain;
    match m {
      case EvidenceMember(name) => EvidencePathFits(name);
      case ReportMember(target) => ReportPathFits(target);
      case PublicationMember => RecordStands();
      case SummaryMember => SummaryStands();
      case GateMember => GateStands();
      case MatrixMember => MatrixStands();
      case ScopeMember => ScopeStands();
      case PolicyMember => PolicyStands();
    }
    if Stands(PathOf(m)) {
      PlainIsGood(PathOf(m));
    }
  }

  predicate RetainedNamesFit(retained: map<string, string>) {
    forall file :: file in retained ==> GoodName(PathOf(RetainedMember(file)))
  }

  ghost predicate NamesGood(c: Codec, i: BuildInputs, d: BuildDocs) {
    forall m :: ContentOf(c, i, d, m).Some? ==> GoodName(PathOf(m))
  }

  /** The member names of a bundle fit the grammar exactly when those of the retained files do. */
  lemma {:induction false} NamesGoodIff(c: Codec, i: BuildInputs, d: BuildDocs)
    ensures NamesGood(c, i, d) <==> RetainedNamesFit(i.retained)
  {
    hide GoodName, PathOf, RecordOf, ReportText, FileOf;
    forall m | ContentOf(c, i, d, m).Some? && !m.RetainedMember? ensures GoodName(PathOf(m)) {
      MemberFits(m);
    }
    forall file ensures ContentOf(c, i, d, RetainedMember(file)).Some? <==> file in i.retained {
    }
  }
}
