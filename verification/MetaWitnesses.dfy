/** Small inputs on which the metadata cache answers wrongly. */
module MetaWitnesses {
  import opened Options
  import opened Paths
  import opened MetaModel
  import opened Renaming
  import opened MetaRuns

  lemma ShortPath(p: string)
    requires |p| == 2 && p[0] == '/' && p[1] != '/'
    ensures Proper(p, 20) && DirOf(p) == "/" && NameOf(p) == p[1..] && Child("/", p[1..]) == p
    ensures SplitPath(p, 20, 20) == Parts("/", p[1..]) && JoinPath("/", p[1..], 20) == Path(p)
  {
    LastSlashIs(p, 0);
    PathParts(p, 20);
    assert p[..1] == "/";
  }

  /** The root with two files, and nothing cached. */
  function TwoFiles(): World
  {
    World(Names({"/"}, {"/a", "/b"}), true, EmptyCache(10, 20))
  }

  lemma TwoFilesFine()
    ensures Fine(TwoFiles(), 0) && NamesIn(All(TwoFiles().ns), "/") == {"a", "b"}
  {
    hide DirOf, NameOf, Proper;
    ShortPath("/a");
    ShortPath("/b");
    var names := NamesIn(All(TwoFiles().ns), "/");
    assert NameOf("/a") == "a" && NameOf("/b") == "b";
    assert "a" in names && "b" in names;
  }

  /** A reading that broke off after the first name: the second file is denied. */
  lemma HalfRead()
    ensures var w := ReadDir(TwoFiles(), "/", ["a"], 1);
      Fine(TwoFiles(), 1) && !Fine(w, 1) && GetAttr(w, "/b", 2).1 == Absent && "/b" in w.ns.files
  {
    hide DirOf, NameOf, Proper, JoinPath, SplitPath, NamesIn;
    TwoFilesFine();
    TimePasses(TwoFiles(), 0, 1);
    ReadDirExact(TwoFiles(), "/", ["a"], 1);
    ShortPath("/a");
    ShortPath("/b");
    assert "b" in NamesIn(All(TwoFiles().ns), "/");
    FillOneName(RemoveDir(TwoFiles().meta, "/"), TwoFiles().ns, 1);
  }

  lemma FillOneName(m: Meta, ns: Names, now: int)
    requires m.maxLen == 20
    ensures Fill(m, ns, "/", ["a"], now) ==
      AddEntry(PutStat2(m, "/", "a", Child("/", "a") in ns.dirs, now), "/", "a", now)
  {
    hide PutStat2, AddEntry, Child;
    FillNone(AddEntry(PutStat2(m, "/", "a", Child("/", "a") in ns.dirs, now), "/", "a", now), ns, "/", now);
    assert ["a"][1..] == [];
  }

  /** The root with one file. */
  function OneFile(): World
  {
    World(Names({"/"}, {"/a"}), true, EmptyCache(10, 20))
  }

  function OneListing(lastDirCheck: int): Meta
  {
    Meta(map["/a" := Stat(false, 1)], map["/" := Listing(["a"], 1)], 0, lastDirCheck, 10, 20)
  }

  lemma OneFileSane()
    ensures Sane(OneFile().ns, 20) && NamesIn(All(OneFile().ns), "/") == {"a"}
  {
    hide DirOf, NameOf, Proper;
    ShortPath("/a");
    assert NameOf("/a") == "a";
    assert "a" in NamesIn(All(OneFile().ns), "/");
  }

  /** The root is read, opened nine seconds later, and then a file is made in it. */
  function OldListingRun(): seq<Timed>
  {
    [At(1, ReadingDir("/", ["a"])), At(10, OpeningDir("/")), At(12, Creating("/b"))]
  }

  lemma ReadingStep()
    ensures Allowed(OneFile(), ReadingDir("/", ["a"]), 1)
    ensures Step(OneFile(), ReadingDir("/", ["a"]), 1) == OneFile().(meta := OneListing(0))
  {
    hide DirOf, NameOf, Proper, SplitPath, JoinPath, NamesIn, Fill;
    OneFileSane();
    ShortPath("/a");
    var m := RemoveDir(OneFile().meta, "/");
    assert m == OneFile().meta;
    FillOneName(m, OneFile().ns, 1);
    assert [] + ["a"] == ["a"];
    assert PutStat2(m, "/", "a", false, 1) == m.(stats := map["/a" := Stat(false, 1)]);
    assert AddEntry(PutStat2(m, "/", "a", false, 1), "/", "a", 1) == OneListing(0);
  }

  lemma OpeningStep()
    ensures Allowed(OneFile(), OpeningDir("/"), 10)
    ensures Step(OneFile().(meta := OneListing(0)), OpeningDir("/"), 10) == OneFile().(meta := OneListing(10))
  {
    var m := OneListing(0);
    assert (map d | d in m.dirs && FreshDir(m, d, 10) :: m.dirs[d]) == m.dirs;
    assert ClearDir(m, 10, false) == OneListing(10);
  }

  lemma CreatingStep()
    ensures Step(OneFile().(meta := OneListing(10)), Creating("/b"), 12)
         == World(Names({"/"}, {"/a", "/b"}), true, OneListing(10))
  {
    hide DirOf, NameOf, Proper, SplitPath;
    ShortPath("/b");
    assert RemoveStat(OneListing(10), "/b") == OneListing(10);
  }

  /** One second later the new file is denied: the listing is twelve seconds old, too old to be patched,
      and the next search for old listings is not due yet. So is the root, which that listing does not name. */
  lemma NewFileDenied()
    ensures Sane(OneFile().ns, 20) && Legal(OneFile(), 0, OldListingRun())
    ensures var w := After(OneFile(), OldListingRun());
      && w.up && "/b" in w.ns.files && GetAttr(w, "/b", 13).1 == Absent
      && "/" in w.ns.dirs && GetAttr(w, "/", 13).1 == Absent
  {
    hide DirOf, NameOf, Proper, SplitPath, Step, Allowed;
    OneFileSane();
    ReadingStep();
    OpeningStep();
    CreatingStep();
    ShortPath("/b");
    SplitOfRoot(20);
    var run := OldListingRun();
    var w1, w2 := OneFile().(meta := OneListing(0)), OneFile().(meta := OneListing(10));
    EventsAllowed(w1, w2);
    LegalCons(OneFile(), 0, run);
    LegalCons(w1, 1, run[1..]);
    LegalCons(w2, 10, run[1..][1..]);
    assert run[1..][1..][1..] == [];
  }

  lemma EventsAllowed(w1: World, w2: World)
    ensures Allowed(w1, OpeningDir("/"), 10) && Allowed(w2, Creating("/b"), 12)
  {
  }

  lemma LegalCons(w: World, now: int, run: seq<Timed>)
    requires run != []
    ensures Legal(w, now, run) <==>
      run[0].now >= now && Allowed(w, run[0].event, run[0].now)
      && Legal(Step(w, run[0].event, run[0].now), run[0].now, run[1..])
    ensures After(w, run) == After(Step(w, run[0].event, run[0].now), run[1..])
    ensures Legal(w, now, []) && After(w, []) == w
  {
  }

  /** A directory with one file, whose stat is cached. */
  function OneBelow(): World
  {
    World(Names({"/", "/a"}, {"/a/f"}), true, EmptyCache(10, 20).(stats := map["/a/f" := Stat(false, 0)]))
  }

  lemma FilePath()
    ensures Proper("/a/f", 20) && DirOf("/a/f") == "/a"
  {
    var p := "/a/f";
    assert p[3..] == "f";
    LastSlashIs(p, 2);
    assert p[..2] == "/a";
  }

  lemma OneBelowFine()
    ensures Fine(OneBelow(), 0) && MayRename(OneBelow(), "/a", "/b") && Below("/a", "/a/f")
  {
    hide DirOf, NameOf, Proper, LastSlash;
    ShortPath("/a");
    ShortPath("/b");
    FilePath();
    var p := "/a/f";
    assert p[..2] == "/a";
  }

  /** After the directory was renamed, a file is still found under its old path. */
  lemma OldPathFound()
    ensures Fine(OneBelow(), 0)
    ensures var (w, st) := Move(OneBelow(), "/a", "/b", 0);
      && st == 0 && !Fine(w, 0) && "/a/f" !in All(w.ns) && GetAttr(w, "/a/f", 1).1 == Found(false)
  {
    hide DirOf, NameOf, Proper, MayRename, MovedNames, RenameMeta;
    OneBelowFine();
    ShortPath("/b");
    assert Vacate(OneBelow(), "/b", 0) == (OneBelow(), 0);
    RenameExact(OneBelow(), "/a", "/b", 0);
    RenameKeeps(OneBelow().meta, "/a", "/b", 0, "");
    StatAfter(OneBelow(), "/a", "/b", "/a/f");
  }
}
