/** Paths by their parts, and what two installed reports share when their portable parts are equal. */
module PortableLaws {
  import opened Prelude
  import opened Evidence

  // ----------------------------------------------------------------- paths

  /** The parts of a path are those in front of a slash and those behind it. */
  lemma {:induction false} PartsSplit(a: string, b: string, part: string)
    ensures Parts(a + "/" + b, part) == Parts(a, part) + Parts(b, "")
    decreases |a|
  {
    var path := a + "/" + b;
    if a == "" {
      assert path == "/" + b && path[1..] == b;
    } else {
      assert path[0] == a[0] && path[1..] == a[1..] + "/" + b;
      if a[0] == '/' {
        PartsSplit(a[1..], b, "");
        assert KeepPart(part) + (Parts(a[1..], "") + Parts(b, ""))
            == (KeepPart(part) + Parts(a[1..], "")) + Parts(b, "");
      } else {
        PartsSplit(a[1..], b, part + [a[0]]);
      }
    }
  }

  /** The name at the end of a path, whatever directories are in front of it. */
  lemma {:induction false} BaseNameOf(directory: string, name: string)
    requires name != "" && PlainName(name)
    ensures BaseName(name) == name && BaseName(directory + "/" + name) == name
    ensures BaseName(directory + "/" + name + "/") == name && BaseName(directory + "/" + name + "/.") == name
  {
    PlainParts(name, "");
    assert "" + name == name && KeepPart(name) == [name];
    PartsSplit(directory, name, "");
    PartsSplit(directory + "/" + name, "", "");
    PartsSplit(directory + "/" + name, ".", "");
    assert directory + "/" + name + "/" + "" == directory + "/" + name + "/";
    assert directory + "/" + name + "/" + "." == directory + "/" + name + "/.";
    assert Parts(".", "") == [] by {
      PlainParts(".", "");
      assert "" + "." == ".";
    }
  }

  // --------------------------------------------------------------- reports

  /** The name of the archive file, from its path or, in a published report, as recorded. */
  function ArchiveFile(r: Installed): string {
    BaseName(if r.archive.path == "" then r.archive.filename else r.archive.path)
  }

  /** Everything but the places on the machine of the test, and which of them are blanked out. */
  predicate AgreeApartFromPlaces(r: Installed, q: Installed) {
    && r.schema == q.schema && r.target == q.target && r.sourceRevision == q.sourceRevision && r.ilp == q.ilp
    && r.matrix.sha256 == q.matrix.sha256 && r.matrix.schema == q.matrix.schema
    && r.binary.sha256 == q.binary.sha256 && r.binary.version == q.binary.version
    && r.binary.advertised == q.binary.advertised
    && ArchiveFile(r) == ArchiveFile(q) && r.archive.sha256 == q.archive.sha256
    && r.controls == q.controls && r.semantics == q.semantics && r.status == q.status && r.problems == q.problems
  }

  /** Two reports have the same portable part exactly when they agree on all but places. */
  lemma {:induction false} PortableIff(r: Installed, q: Installed)
    ensures Portable(r) == Portable(q) <==> AgreeApartFromPlaces(r, q)
  {
    hide BaseName;
    var p, o := Portable(r), Portable(q);
    if AgreeApartFromPlaces(r, q) {
      assert p.matrix == o.matrix && p.binary == o.binary && p.archive == o.archive;
    }
  }

  /** The published report agrees with the recorded one, and names no place. */
  lemma {:induction false} SanitizedSays(r: Installed)
    ensures AgreeApartFromPlaces(r, Sanitized(r))
    ensures var s := Sanitized(r);
      s.binDir == None && s.matrix.path == None && s.binary.path == None && s.archive.path == ""
      && '/' !in s.archive.filename
  {
    SanitizedIsPortable(r);
    PortableIff(r, Sanitized(r));
    var path := if r.archive.path != "" then r.archive.path else r.archive.filename;
    PartsArePlain(path, "");
    var parts := Parts(path, "");
    if parts != [] {
      assert parts[|parts| - 1] in parts;
    }
  }
}
