/** The migration graph and the database preflight (scripts/check-db-target.py), over the
    revision and down_revision already read from each file. */
module Migrations {
  import opened Wrappers

  datatype File = File(revision: Option<string>, down: Option<string>)

  function Revisions(files: seq<File>): set<string> {
    set f | f in files && f.revision.Some? :: f.revision.value
  }

  function Downs(files: seq<File>): set<string> {
    set f | f in files && f.down.Some? :: f.down.value
  }

  function Heads(files: seq<File>): set<string> {
    Revisions(files) - Downs(files)
  }

  /** Without a versions directory nothing is known. */
  method KnownRevisions(files: Option<seq<File>>) returns (revisions: set<string>, head: Option<string>)
    ensures revisions == Revisions(files.GetOr([]))
    ensures head.Some? <==> |Heads(files.GetOr([]))| == 1
    ensures head.Some? ==> Heads(files.GetOr([])) == {head.value}
  {
    revisions, head := {}, None;
    if files.None? { return; }
    var all := files.value;
    var downs: set<string> := {};
    for i := 0 to |all|
      invariant revisions == Revisions(all[..i]) && downs == Downs(all[..i])
    {
      OneMoreFile(all, i);
      if all[i].revision.Some? { revisions := revisions + {all[i].revision.value}; }
      if all[i].down.Some? { downs := downs + {all[i].down.value}; }
    }
    assert all[..|all|] == all;
    var heads := revisions - downs;
    if |heads| == 1 {
      var only :| only in heads;
      SingletonIs(heads, only);
      head := Some(only);
    }
  }

  lemma OneMoreFile(files: seq<File>, i: nat)
    requires i < |files|
    ensures Revisions(files[..i + 1]) == Revisions(files[..i]) + (if files[i].revision.Some? then {files[i].revision.value} else {})
    ensures Downs(files[..i + 1]) == Downs(files[..i]) + (if files[i].down.Some? then {files[i].down.value} else {})
  {
    assert files[..i + 1] == files[..i] + [files[i]];
    assert files[i] in files[..i + 1];
  }

  lemma SingletonIs(s: set<string>, x: string)
    requires |s| == 1 && x in s
    ensures s == {x}
  {
    assert |s - {x}| == 0;
    assert s == (s - {x}) + {x};
  }

  // ------------------------------------------------------------------ the graph

  /** A migration file that goes down from `child` to `parent`. */
  ghost predicate Edge(files: seq<File>, child: string, parent: string) {
    File(Some(child), Some(parent)) in files
  }

  ghost predicate Path(files: seq<File>, p: seq<string>) {
    p != [] && forall i :: 0 <= i < |p| - 1 ==> Edge(files, p[i], p[i + 1])
  }

  ghost predicate Acyclic(files: seq<File>) {
    forall p: seq<string> :: Path(files, p) && |p| >= 2 ==> p[0] != p[|p| - 1]
  }

  /** The revisions no migration goes down to: what the heads are among files that name
      themselves. */
  function Tops(files: seq<File>): set<string> {
    Revisions(files) - set f | f in files && f.revision.Some? && f.down.Some? :: f.down.value
  }

  /** The down revisions of files without a revision of their own. The script reads the two
      fields apart, so it counts these too. */
  function Strays(files: seq<File>): set<string> {
    set f | f in files && f.revision.None? && f.down.Some? :: f.down.value
  }

  lemma HeadsAreUnstrayedTops(files: seq<File>)
    ensures Heads(files) == Tops(files) - Strays(files)
  {
    forall r
      ensures r in Downs(files) <==> r in Strays(files) || exists f :: f in files && f.revision.Some? && f.down == Some(r)
    {
      if r in Downs(files) { var f :| f in files && f.down == Some(r); }
    }
  }

  predicate NoRepeats(p: seq<string>) {
    forall i, j :: 0 <= i < j < |p| ==> p[i] != p[j]
  }

  lemma {:induction false} NoRepeatsFit(p: seq<string>, s: set<string>)
    requires NoRepeats(p) && forall i :: 0 <= i < |p| ==> p[i] in s
    ensures |p| <= |s|
  {
    if p != [] {
      NoRepeatsFit(p[1..], s - {p[0]});
    }
  }

  /** Climbing from a revision against the down links ends at a top. */
  lemma {:induction false} ClimbToTop(files: seq<File>, p: seq<string>) returns (up: seq<string>)
    requires Acyclic(files)
    requires Path(files, p) && NoRepeats(p) && forall i :: 0 <= i < |p| ==> p[i] in Revisions(files)
    ensures Path(files, up) && up[0] in Tops(files) && up[|up| - 1] == p[|p| - 1]
    decreases |Revisions(files)| - |p|
  {
    if p[0] in Tops(files) {
      up := p;
    } else {
      var f :| f in files && f.revision.Some? && f.down == Some(p[0]);
      var longer := [f.revision.value] + p;
      assert Edge(files, longer[0], longer[1]);
      forall j | 0 < j < |longer|
        ensures longer[j] != longer[0]
      {
        assert Path(files, longer[..j + 1]);
      }
      NoRepeatsFit(longer, Revisions(files));
      up := ClimbToTop(files, longer);
    }
  }

  ghost predicate Below(files: seq<File>, head: string, r: string) {
    exists p :: Path(files, p) && p[0] == head && p[|p| - 1] == r
  }

  /** Any finite acyclic migration graph has a top above each revision. */
  lemma EveryRevisionHasATop(files: seq<File>, r: string) returns (top: string)
    requires Acyclic(files) && r in Revisions(files)
    ensures top in Tops(files) && Below(files, top, r)
  {
    var up := ClimbToTop(files, [r]);
    top := up[0];
  }

  /** So an acyclic graph with a revision has a head if and only if the files without a
      revision of their own do not name all of its tops. */
  lemma HeadExistsIff(files: seq<File>)
    requires Acyclic(files) && Revisions(files) != {}
    ensures Tops(files) != {}
    ensures Heads(files) != {} <==> !(Tops(files) <= Strays(files))
  {
    var r :| r in Revisions(files);
    var top := EveryRevisionHasATop(files, r);
    HeadsAreUnstrayedTops(files);
    assert forall x :: x in Tops(files) && x !in Strays(files) ==> x in Heads(files);
  }

  lemma NoneAboveATop(files: seq<File>, r: string, top: string)
    requires top in Tops(files) && Below(files, r, top)
    ensures r == top
  {
    var p :| Path(files, p) && p[0] == r && p[|p| - 1] == top;
    assert |p| >= 2 ==> Edge(files, p[|p| - 2], p[|p| - 2 + 1]);
    assert forall child :: !Edge(files, child, top);
  }

  /** A single head is above every known revision if and only if no top is strayed, and
      then nothing but itself is above it. */
  lemma SingleHeadReachesAllIff(files: seq<File>, head: string)
    requires Acyclic(files) && Heads(files) == {head}
    ensures (forall r :: r in Revisions(files) ==> Below(files, head, r)) <==> Tops(files) !! Strays(files)
    ensures forall r :: Below(files, r, head) ==> r == head
  {
    hide Below;
    HeadsAreUnstrayedTops(files);
    assert head in Heads(files);
    forall r | Below(files, r, head) ensures r == head { NoneAboveATop(files, r, head); }
    if Tops(files) !! Strays(files) {
      forall r | r in Revisions(files)
        ensures Below(files, head, r)
      {
        var top := EveryRevisionHasATop(files, r);
        assert top in Heads(files);
      }
    } else {
      var top :| top in Tops(files) && top in Strays(files);
      if Below(files, head, top) { NoneAboveATop(files, head, top); }
    }
  }

  /** A file without a revision of its own can take every head away. */
  lemma StrayDownHidesTheHead(r: string)
    ensures var files := [File(Some(r), None), File(None, Some(r))];
            Revisions(files) == {r} && Acyclic(files) && Heads(files) == {}
  {
    var files := [File(Some(r), None), File(None, Some(r))];
    assert files[0] in files && files[1] in files;
    forall p: seq<string> | |p| >= 2
      ensures !Path(files, p)
    {
      assert Path(files, p) ==> Edge(files, p[0], p[0 + 1]);
    }
  }

  // ------------------------------------------------------------------ the preflight

  const REQUIRED_TABLES: seq<string> := [
    "contracts", "processing_jobs", "clause_master_categories", "document_profiles", "alembic_version"
  ]

  datatype Problem =
    | NoVectorExtension | NoSchema | MissingTables(missing: seq<string>) | NoRevision | UnknownRevision(revision: string)

  datatype Warning = NotAtHead(revision: string, head: string)

  datatype Facts = Facts(hasVector: bool, schemaExists: bool, tables: set<string>, revision: Option<string>)

  function Missing(names: seq<string>, tables: set<string>): (m: seq<string>)
    ensures forall name :: name in m <==> name in names && name !in tables
    ensures m == [] <==> forall name :: name in names ==> name in tables
  {
    if names == [] then []
    else
      assert names == [names[0]] + names[1..];
      (if names[0] in tables then [] else [names[0]]) + Missing(names[1..], tables)
  }

  method FindMissing(names: seq<string>, tables: set<string>) returns (missing: seq<string>)
    ensures missing == Missing(names, tables)
  {
    hide Missing;
    assert names[0..] == names;
    missing := [];
    for i := 0 to |names|
      invariant missing + Missing(names[i..], tables) == Missing(names, tables)
    {
      MissingFrom(names, tables, i);
      if names[i] !in tables { missing := missing + [names[i]]; }
    }
    NoneMissing(names, tables);
  }

  lemma MissingFrom(names: seq<string>, tables: set<string>, i: nat)
    requires i < |names|
    ensures Missing(names[i..], tables) == (if names[i] in tables then [] else [names[i]]) + Missing(names[i + 1..], tables)
  {
    assert names[i..][0] == names[i] && names[i..][1..] == names[i + 1..];
  }

  lemma NoneMissing(names: seq<string>, tables: set<string>)
    ensures Missing(names[|names|..], tables) == []
  {
  }

  /** A migrated schema with the extension and a stored revision. */
  predicate Usable(facts: Facts) {
    && facts.hasVector && facts.schemaExists && facts.revision.Some?
    && forall name :: name in REQUIRED_TABLES ==> name in facts.tables
  }

  predicate Tabled(facts: Facts) {
    facts.schemaExists && forall name :: name in REQUIRED_TABLES ==> name in facts.tables
  }

  /** All that is said of a usable schema, in terms of the two sets the files give. */
  ghost predicate UsableVerdict(files: seq<File>, r: string, problems: seq<Problem>, warnings: seq<Warning>) {
    if Revisions(files) != {} && r !in Revisions(files) then problems == [UnknownRevision(r)] && warnings == []
    else
      && problems == []
      && if |Heads(files)| == 1 && r !in Heads(files) then exists h :: Heads(files) == {h} && warnings == [NotAtHead(r, h)]
         else warnings == []
  }

  method Evaluate(facts: Facts, files: Option<seq<File>>) returns (problems: seq<Problem>, warnings: seq<Warning>)
    ensures var known, heads := Revisions(files.GetOr([])), Heads(files.GetOr([]));
            && (NoVectorExtension in problems <==> !facts.hasVector)
            && (NoSchema in problems <==> !facts.schemaExists)
            && (forall m :: MissingTables(m) in problems <==>
                 facts.schemaExists && m == Missing(REQUIRED_TABLES, facts.tables) && m != [])
            && (NoRevision in problems <==> Tabled(facts) && facts.revision.None?)
            && (forall r :: UnknownRevision(r) in problems <==>
                 Tabled(facts) && facts.revision == Some(r) && known != {} && r !in known)
            && (forall r, h :: NotAtHead(r, h) in warnings <==>
                 Tabled(facts) && facts.revision == Some(r) && heads == {h} && r in known && r != h)
    ensures Usable(facts) ==> UsableVerdict(files.GetOr([]), facts.revision.value, problems, warnings)
  {
    hide REQUIRED_TABLES, Revisions, Downs;
    assert forall h: string :: |{h}| == 1;
    problems, warnings := [], [];
    if !facts.hasVector { problems := problems + [NoVectorExtension]; }
    if !facts.schemaExists { return problems + [NoSchema], warnings; }
    var missing := FindMissing(REQUIRED_TABLES, facts.tables);
    if missing != [] { return problems + [MissingTables(missing)], warnings; }
    var revisions, head := KnownRevisions(files);
    if facts.revision.None? {
      problems := problems + [NoRevision];
    } else if revisions != {} && facts.revision.value !in revisions {
      problems := problems + [UnknownRevision(facts.revision.value)];
    } else if head.Some? && facts.revision.value != head.value {
      warnings := warnings + [NotAtHead(facts.revision.value, head.value)];
    }
  }

  /** What the script should say of a usable schema: nothing at the head, a warning on a
      strict ancestor of the head, a problem on a revision it does not define, never more. */
  ghost predicate SaidAbout(files: seq<File>, head: string, revision: string, problems: seq<Problem>, warnings: seq<Warning>) {
    var known := revision in Revisions(files);
    && (revision == head <==> problems == [] && warnings == [])
    && (known && revision != head && Below(files, head, revision) <==> problems == [] && warnings == [NotAtHead(revision, head)])
    && (!known <==> problems == [UnknownRevision(revision)] && warnings == [])
  }

  /** With a single head it does so for every stored revision if and only if no top of the
      graph is strayed; otherwise it warns of a head that the revision does not lead to. */
  lemma VerdictMeansIff(files: seq<File>, head: string)
    requires Acyclic(files) && Heads(files) == {head}
    ensures (forall r, problems, warnings :: UsableVerdict(files, r, problems, warnings) ==> SaidAbout(files, head, r, problems, warnings))
            <==> Tops(files) !! Strays(files)
  {
    hide Below;
    SingleHeadReachesAllIff(files, head);
    if !(Tops(files) !! Strays(files)) {
      var r :| r in Revisions(files) && !Below(files, head, r);
      assert r != head by { SelfBelow(files, head); }
      assert UsableVerdict(files, r, [], [NotAtHead(r, head)]);
      assert !SaidAbout(files, head, r, [], [NotAtHead(r, head)]);
    }
  }

  lemma SelfBelow(files: seq<File>, r: string)
    ensures Below(files, r, r)
  {
    assert Path(files, [r]);
  }
}
