/** What the metadata cache is for: an answer the server gave is given again, without it, for the timeout. */
module MetaHits {
  import opened Options
  import opened Paths
  import opened MetaModel
  import opened Renaming
  import opened MetaRuns

  // ---------- attributes ----------

  /** The event does not touch the path, nor a directory above it, and does not empty the cache. */
  predicate Spares(e: Event, p: string)
  {
    match e
    case Creating(q) => q != p
    case Unlinking(q) => q != p
    case MakingDir(q) => q != p
    case DroppingDir(q) => q != p
    case RenamingTo(from, to) => from != p && to != p && !Below(from, p)
    case Resetting => false
    case _ => true
  }

  /** The path exists, and its stat has been cached since `t`. */
  ghost predicate Known(w: World, p: string, isDir: bool, t: int)
  {
    StatKnown(w.meta, p, isDir, t) && p in All(w.ns) && (p in w.ns.dirs <==> isDir)
  }

  predicate StatKnown(m: Meta, p: string, isDir: bool, t: int)
  {
    p in m.stats && m.stats[p].timestamp >= t && m.stats[p].isDir == isDir
  }

  lemma ClearKnown(m: Meta, p: string, isDir: bool, t: int, now: int, force: bool)
    requires StatKnown(m, p, isDir, t) && now <= t + m.timeout
    ensures StatKnown(ClearStat(m, now, force), p, isDir, t) && FreshStat(ClearStat(m, now, force), p, now)
    ensures ClearDir(m, now, force).stats == m.stats
  {
  }

  lemma {:induction false} FillKnown(m: Meta, ns: Names, d: string, names: seq<string>, p: string, isDir: bool, t: int,
                                     now: int)
    requires StatKnown(m, p, isDir, t) && t <= now && (p in ns.dirs <==> isDir)
    requires Sane(ns, m.maxLen) && forall n :: n in names ==> n in NamesIn(All(ns), d)
    ensures StatKnown(Fill(m, ns, d, names, now), p, isDir, t)
    decreases |names|
  {
    hide NamesIn, JoinPath, Child, Sane;
    if names != [] {
      var n := names[0];
      assert n in names;
      NameIsPath(ns, d, n, m.maxLen);
      var m1 := AddEntry(PutStat2(m, d, n, Child(d, n) in ns.dirs, now), d, n, now);
      FillKnown(m1, ns, d, names[1..], p, isDir, t, now);
    }
  }

  lemma GetAttrKnown(w: World, q: string, p: string, isDir: bool, t: int, now: int)
    requires Known(w, p, isDir, t) && t <= now <= t + w.meta.timeout
    ensures Known(GetAttr(w, q, now).0, p, isDir, t) && GetAttr(w, p, now).1 == Found(isDir)
  {
    hide Exists;
    ClearKnown(w.meta, p, isDir, t, now, false);
    ClearKnown(ClearStat(w.meta, now, false), p, isDir, t, now, false);
  }

  lemma MoveKnown(w: World, from: string, to: string, p: string, isDir: bool, t: int, now: int)
    requires Fine(w, now) && Known(w, p, isDir, t) && t <= now <= t + w.meta.timeout
    requires Spares(RenamingTo(from, to), p)
    ensures Known(Move(w, from, to, now).0, p, isDir, t)
  {
    hide GetAttr, RenameMeta, Below, MovedNames, Proper, DirOf, Agree, StatsTrue, RemoveEntry;
    GetAttrKnown(w, to, p, isDir, t, now);
    var (w1, st) := Vacate(w, to, now);
    Asked(w, to, now);
    Unlinked(GetAttr(w, to, now).0, to);
    StatsOf(GetAttr(w, to, now).0, to);
    assert Known(w1, p, isDir, t);
    if st >= 0 {
      RenameKeeps(w1.meta, from, to, now, "");
      VacateFine(w, to, now);
      if MayRename(w1, from, to) {
        StatAfter(w1, from, to, p);
        FileKept(w1, from, to, p);
      }
    }
  }

  lemma StatsOf(w: World, p: string)
    ensures Unlink(w, p).0.meta.stats - {p} == w.meta.stats - {p}
    ensures forall q :: q in w.meta.stats && q != p ==>
      q in Unlink(w, p).0.meta.stats && Unlink(w, p).0.meta.stats[q] == w.meta.stats[q]
  {
    hide SplitPath, RemoveFirst;
  }

  lemma FileKept(w: World, from: string, to: string, p: string)
    requires p in All(w.ns) && p != from && !Below(from, p)
    ensures p in All(MovedNames(w.ns, from, to))
  {
    hide Below;
    assert Moved(from, to, p) == p;
  }

  lemma StepKnown(w: World, e: Event, p: string, isDir: bool, t: int, now: int)
    requires Fine(w, now) && Allowed(w, e, now) && Known(w, p, isDir, t) && t <= now <= t + w.meta.timeout
    requires Spares(e, p)
    ensures Known(Step(w, e, now), p, isDir, t)
  {
    hide GetAttr, Move, MayAdd, NamesIn, SplitPath, Fill, Agree, StatsTrue, ClearStat, ClearDir, SafeMove, FreshDir,
         Sane;
    var m := w.meta;
    match e
    case RenamingTo(from, to) => MoveKnown(w, from, to, p, isDir, t, now);
    case ReadingDir(d, names) => FillKnown(RemoveDir(m, d), w.ns, d, names, p, isDir, t, now);
    case CachingDir(d, names) =>
      ClearKnown(m, p, isDir, t, now, false);
      ClearKeepsLen(m, now, false);
      FillKnown(ClearDir(m, now, false), w.ns, d, names, p, isDir, t, now);
    case OpeningDir(d) => ClearKnown(m, p, isDir, t, now, false);
    case GettingAttr(q) => GetAttrKnown(w, q, p, isDir, t, now);
    case ClearingDir(force) => ClearKnown(m, p, isDir, t, now, force);
    case ClearingStat(force) => ClearKnown(m, p, isDir, t, now, force);
    case _ =>
  }

  lemma ClearKeepsLen(m: Meta, now: int, force: bool)
    ensures ClearDir(m, now, force).maxLen == m.maxLen
  {
  }

  lemma {:induction false} RunKnown(w: World, run: seq<Timed>, p: string, isDir: bool, t: int, start: int, now: int)
    requires Fine(w, start) && Known(w, p, isDir, t) && Legal(w, start, run) && w.meta.timeout >= 0
    requires t <= start && Last(start, run) <= now <= t + w.meta.timeout
    requires forall i :: 0 <= i < |run| ==> Spares(run[i].event, p)
    ensures Known(After(w, run), p, isDir, t) && After(w, run).meta.timeout == w.meta.timeout
    decreases |run|
  {
    hide Fine, Allowed, Step, Known, Spares;
    if run != [] {
      var e, at := run[0].event, run[0].now;
      LastLater(w, start, run);
      TimePasses(w, start, at);
      StepKnown(w, e, p, isDir, t, at);
      StepFine(w, e, at);
      StepKeepsSettings(w, e, at);
      RunKnown(Step(w, e, at), run[1..], p, isDir, t, at, now);
    }
  }

  /** Under its clock, a run's last event is not before its first. */
  lemma {:induction false} LastLater(w: World, start: int, run: seq<Timed>)
    requires Legal(w, start, run)
    ensures start <= Last(start, run) && (run != [] ==> run[0].now <= Last(start, run))
    ensures run != [] ==> Last(run[0].now, run[1..]) == Last(start, run)
    decreases |run|
  {
    hide Allowed, Step;
    if run != [] { LastLater(Step(w, run[0].event, run[0].now), run[0].now, run[1..]); }
  }

  /** Whatever is done to other paths meanwhile, and whether or not the server can still be reached: an
      answer that the server gave stands for the timeout. */
  lemma AnswerLasts(w: World, p: string, isDir: bool, t: int, run: seq<Timed>, now: int)
    requires Fine(w, t) && w.meta.timeout >= 0
    requires Consulted(w.meta, p, t).1.None? && GetAttr(w, p, t).1 == Found(isDir)
    requires Legal(GetAttr(w, p, t).0, t, run) && Last(t, run) <= now <= t + w.meta.timeout
    requires forall i :: 0 <= i < |run| ==> Spares(run[i].event, p)
    ensures GetAttr(After(GetAttr(w, p, t).0, run), p, now).1 == Found(isDir)
  {
    hide Fine, Known, Spares, Legal, After, Last;
    var w1 := GetAttr(w, p, t).0;
    GetAttrFine(w, p, t);
    Asked(w, p, t);
    AnswerKnown(w, p, isDir, t);
    LastLater(w1, t, run);
    RunKnown(w1, run, p, isDir, t, t, now);
    GetAttrKnown(After(w1, run), p, p, isDir, t, now);
  }

  lemma AnswerKnown(w: World, p: string, isDir: bool, t: int)
    requires Consulted(w.meta, p, t).1.None? && GetAttr(w, p, t).1 == Found(isDir)
    ensures Known(GetAttr(w, p, t).0, p, isDir, t)
  {
    hide Exists;
  }

  // ---------- listings ----------

  /** The names a reading brought are known with their kinds. */
  lemma {:induction false} FillBrings(m: Meta, ns: Names, d: string, names: seq<string>, n: string, now: int)
    requires n in names && Sane(ns, m.maxLen) && forall x :: x in names ==> x in NamesIn(All(ns), d)
    ensures var p := Child(d, n); StatKnown(Fill(m, ns, d, names, now), p, p in ns.dirs, now) && p in All(ns)
    decreases |names|
  {
    hide NamesIn, JoinPath, Child, Sane;
    var x := names[0];
    assert x in names;
    NameIsPath(ns, d, x, m.maxLen);
    var m1 := AddEntry(PutStat2(m, d, x, Child(d, x) in ns.dirs, now), d, x, now);
    if x == n {
      FillKnown(m1, ns, d, names[1..], Child(d, n), Child(d, n) in ns.dirs, now, now);
    } else {
      FillBrings(m1, ns, d, names[1..], n, now);
    }
  }

  /** So that a name listed at `t` needs no question to the server for the timeout. */
  lemma ListedLasts(w: World, d: string, names: seq<string>, n: string, t: int, run: seq<Timed>, now: int)
    requires Fine(w, t) && w.meta.timeout >= 0
    requires d in w.ns.dirs && Enumerates(names, NamesIn(All(w.ns), d)) && n in names
    requires Legal(ReadDir(w, d, names, t), t, run) && Last(t, run) <= now <= t + w.meta.timeout
    requires forall i :: 0 <= i < |run| ==> Spares(run[i].event, Child(d, n))
    ensures var p := Child(d, n);
      GetAttr(After(ReadDir(w, d, names, t), run), p, now).1 == Truth(w.ns, p) == Found(p in w.ns.dirs)
  {
    hide Known, Spares, Legal, After, Last, Agree, StatsTrue, Sane, NamesIn, Child, Fill;
    var p, w1 := Child(d, n), ReadDir(w, d, names, t);
    ReadDirExact(w, d, names, t);
    FillBrings(RemoveDir(w.meta, d), w.ns, d, names, n, t);
    assert Known(w1, p, p in w.ns.dirs, t) by { KnownIs(w1, p, p in w.ns.dirs, t); }
    FillSettings(RemoveDir(w.meta, d), w.ns, d, names, t);
    LastLater(w1, t, run);
    RunKnown(w1, run, p, p in w.ns.dirs, t, t, now);
    GetAttrKnown(After(w1, run), p, p, p in w.ns.dirs, t, now);
  }

  lemma KnownIs(w: World, p: string, isDir: bool, t: int)
    requires StatKnown(w.meta, p, isDir, t) && p in All(w.ns) && (p in w.ns.dirs <==> isDir)
    ensures Known(w, p, isDir, t)
  {
  }

  lemma FillSettings(m: Meta, ns: Names, d: string, names: seq<string>, now: int)
    ensures Fill(m, ns, d, names, now).timeout == m.timeout
  {
    FillKeeps(m, ns, d, names, now);
  }

  /** The event does not remake, remove or rename the directory, nor find it empty, nor empty the cache. */
  predicate SparesDir(e: Event, d: string)
  {
    match e
    case MakingDir(q) => q != d
    case DroppingDir(q) => q != d
    case RenamingTo(from, to) => from != d && to != d
    case ReadingDir(q, names) => q != d || names != []
    case Resetting => false
    case _ => true
  }

  predicate DirKnown(m: Meta, d: string, t: int) { d in m.dirs && m.dirs[d].timestamp >= t }

  lemma PiecesDir(m: Meta, d: string, t: int, p: string, now: int)
    requires DirKnown(m, d, t)
    ensures DirKnown(RemoveStat(m, p), d, t) && DirKnown(RemoveEntry(m, p), d, t)
    ensures DirKnown(AddIfFresh(m, p, now), d, t)
    ensures p != d ==> DirKnown(RemoveDir(m, p), d, t)
  {
    hide SplitPath, RemoveFirst;
  }

  lemma ClearDirKnown(m: Meta, d: string, t: int, now: int, force: bool)
    requires DirKnown(m, d, t) && now <= t + m.timeout
    ensures DirKnown(ClearDir(m, now, force), d, t) && FreshDir(ClearDir(m, now, force), d, now)
    ensures ClearStat(m, now, force).dirs == m.dirs && ClearStat(m, now, force).timeout == m.timeout
  {
  }

  lemma FillDirKnown(m: Meta, ns: Names, q: string, names: seq<string>, d: string, t: int, now: int)
    requires t <= now && (DirKnown(m, d, t) || (q == d && names != [] && d !in m.dirs))
    ensures DirKnown(Fill(m, ns, q, names, now), d, t)
  {
    if names == [] { FillNone(m, ns, q, now); } else { FillDirs(m, ns, q, names, now); }
  }

  lemma GetAttrDirKnown(w: World, q: string, d: string, t: int, now: int)
    requires DirKnown(w.meta, d, t) && now <= t + w.meta.timeout
    ensures DirKnown(GetAttr(w, q, now).0.meta, d, t)
  {
    hide Exists, ClearDir, ClearStat;
    ClearDirKnown(w.meta, d, t, now, false);
    ClearDirKnown(ClearStat(w.meta, now, false), d, t, now, false);
  }

  lemma MoveDirKnown(w: World, from: string, to: string, d: string, t: int, now: int)
    requires DirKnown(w.meta, d, t) && now <= t + w.meta.timeout && from != d && to != d
    ensures DirKnown(Move(w, from, to, now).0.meta, d, t)
  {
    hide GetAttr, RenameMeta, MayRename, RemoveEntry;
    GetAttrDirKnown(w, to, d, t, now);
    var w1 := GetAttr(w, to, now).0;
    PiecesDir(w1.meta, d, t, to, now);
    PiecesDir(RemoveStat(w1.meta, to), d, t, to, now);
    RenameKeeps(Vacate(w, to, now).0.meta, from, to, now, d);
  }

  lemma StepDirKnown(w: World, e: Event, d: string, t: int, now: int)
    requires DirKnown(w.meta, d, t) && t <= now <= t + w.meta.timeout && SparesDir(e, d)
    ensures DirKnown(Step(w, e, now).meta, d, t)
  {
    hide GetAttr, Move, MayAdd, NamesIn, SplitPath, Fill, ClearStat, ClearDir, RemoveEntry, AddIfFresh, RemoveStat,
         RemoveDir, DirKnown;
    var m := w.meta;
    match e
    case Creating(p) =>
      PiecesDir(m, d, t, p, now);
      PiecesDir(RemoveStat(m, p), d, t, p, now);
    case Unlinking(p) =>
      PiecesDir(m, d, t, p, now);
      PiecesDir(RemoveStat(m, p), d, t, p, now);
    case MakingDir(p) => TwoPieces(m, d, t, p, now);
    case DroppingDir(p) => TwoPieces(m, d, t, p, now);
    case RenamingTo(from, to) => MoveDirKnown(w, from, to, d, t, now);
    case ReadingDir(q, names) =>
      DropOther(m, d, t, q, now);
      FillDirKnown(RemoveDir(m, q), w.ns, q, names, d, t, now);
    case CachingDir(q, names) =>
      ClearDirKnown(m, d, t, now, false);
      FillDirKnown(ClearDir(m, now, false), w.ns, q, names, d, t, now);
    case OpeningDir(q) => ClearDirKnown(m, d, t, now, false);
    case GettingAttr(q) => GetAttrDirKnown(w, q, d, t, now);
    case ClearingDir(force) => ClearDirKnown(m, d, t, now, force);
    case ClearingStat(force) =>
      ClearDirKnown(m, d, t, now, force);
      SameDirKnown(m, ClearStat(m, now, force), d, t);
    case _ =>
  }

  lemma SameDirKnown(m: Meta, m1: Meta, d: string, t: int)
    requires DirKnown(m, d, t) && m1.dirs == m.dirs
    ensures DirKnown(m1, d, t)
  {
  }

  lemma TwoPieces(m: Meta, d: string, t: int, p: string, now: int)
    requires DirKnown(m, d, t) && p != d
    ensures var m1 := RemoveDir(RemoveStat(m, p), p);
      DirKnown(AddIfFresh(m1, p, now), d, t) && DirKnown(RemoveEntry(m1, p), d, t)
  {
    hide DirKnown, RemoveEntry, AddIfFresh, RemoveStat, RemoveDir;
    PiecesDir(m, d, t, p, now);
    PiecesDir(RemoveStat(m, p), d, t, p, now);
    PiecesDir(RemoveDir(RemoveStat(m, p), p), d, t, p, now);
  }

  lemma DropOther(m: Meta, d: string, t: int, q: string, now: int)
    requires DirKnown(m, d, t)
    ensures if q == d then d !in RemoveDir(m, q).dirs else DirKnown(RemoveDir(m, q), d, t)
  {
  }

  lemma {:induction false} RunDirKnown(w: World, run: seq<Timed>, d: string, t: int, start: int, now: int)
    requires DirKnown(w.meta, d, t) && Legal(w, start, run)
    requires t <= start && Last(start, run) <= now <= t + w.meta.timeout
    requires forall i :: 0 <= i < |run| ==> SparesDir(run[i].event, d)
    ensures DirKnown(After(w, run).meta, d, t) && After(w, run).meta.timeout == w.meta.timeout
    decreases |run|
  {
    hide Allowed, Step, DirKnown, SparesDir;
    if run != [] {
      var e, at := run[0].event, run[0].now;
      LastLater(w, start, run);
      StepDirKnown(w, e, d, t, at);
      StepKeepsSettings(w, e, at);
      RunDirKnown(Step(w, e, at), run[1..], d, t, at, now);
    }
  }

  /** A directory that was read and was not empty is listed from the cache for the timeout, as the patches
      of the operations in between have left it, which is as the server has it. */
  lemma ListingLasts(w: World, d: string, names: seq<string>, t: int, run: seq<Timed>, now: int)
    requires Fine(w, t) && w.meta.timeout >= 0
    requires d in w.ns.dirs && Enumerates(names, NamesIn(All(w.ns), d)) && names != []
    requires Legal(ReadDir(w, d, names, t), t, run) && Last(t, run) <= now <= t + w.meta.timeout
    requires forall i :: 0 <= i < |run| ==> SparesDir(run[i].event, d)
    ensures var w2 := After(ReadDir(w, d, names, t), run); var listing := OpenDir(w2, d, now).1;
      listing.Some? && d in w2.ns.dirs && multiset(listing.value) == multiset(NamesIn(All(w2.ns), d))
  {
    hide SparesDir, Legal, After, Last, Fill, Fine, NamesIn, ClearDir, DirKnown;
    var w1 := ReadDir(w, d, names, t);
    assert DirKnown(w1.meta, d, t) by {
      NotThere(w.meta, d);
      FillDirKnown(RemoveDir(w.meta, d), w.ns, d, names, d, t, t);
    }
    ReadFine(w, d, names, t);
    FillSettings(RemoveDir(w.meta, d), w.ns, d, names, t);
    LastLater(w1, t, run);
    RunDirKnown(w1, run, d, t, t, now);
    var w2 := After(w1, run);
    FineAfter(w1, run, t);
    TimePasses(w2, Last(t, run), now);
    ClearDirKnown(w2.meta, d, t, now, false);
    OpenDirTrue(w2, d, now);
  }

  lemma NotThere(m: Meta, d: string)
    ensures d !in RemoveDir(m, d).dirs && RemoveDir(m, d).timeout == m.timeout
  {
  }

  lemma ReadFine(w: World, d: string, names: seq<string>, t: int)
    requires Fine(w, t) && w.meta.timeout >= 0 && d in w.ns.dirs && Enumerates(names, NamesIn(All(w.ns), d))
    ensures Fine(ReadDir(w, d, names, t), t)
  {
    hide Fine, NamesIn;
    ReadDirExact(w, d, names, t);
  }

  lemma {:induction false} FineAfter(w: World, run: seq<Timed>, now: int)
    requires Fine(w, now) && w.meta.timeout >= 0 && Legal(w, now, run)
    ensures Fine(After(w, run), Last(now, run))
    decreases |run|
  {
    hide Fine, Allowed, Step;
    if run != [] {
      var e, at := run[0].event, run[0].now;
      TimePasses(w, now, at);
      StepFine(w, e, at);
      StepKeepsSettings(w, e, at);
      LastLater(w, now, run);
      FineAfter(Step(w, e, at), run[1..], at);
    }
  }

  /** Filling the cache makes a listing unless an old one is in its way or there is nothing to list. */
  lemma CacheDirExact(w: World, d: string, names: seq<string>, now: int)
    requires w.meta.timeout >= 0
    ensures var m := ClearDir(w.meta, now, false);
      OpenDir(CacheDir(w, d, names, now), d, now).1.Some? <==> FreshDir(m, d, now) || (d !in m.dirs && names != [])
  {
    hide Fill;
    var m := ClearDir(w.meta, now, false);
    if names == [] { FillNone(m, w.ns, d, now); } else { FillDirs(m, w.ns, d, names, now); }
  }

  // ---------- clearing, and new directories ----------

  /** A search for old entries is due only half a timeout after the last one. */
  lemma ClearOnce(m: Meta, t: int, force: bool, now: int)
    requires force || t - m.lastDirCheck > m.timeout / 2
    requires now - t <= m.timeout / 2
    ensures var m1 := ClearDir(m, t, force); ClearDir(m1, now, false) == m1
  {
  }

  lemma ClearStatOnce(m: Meta, t: int, force: bool, now: int)
    requires force || t - m.lastStatCheck > m.timeout / 2
    requires now - t <= m.timeout / 2
    ensures var m1 := ClearStat(m, t, force); ClearStat(m1, now, false) == m1
  {
  }

  /** In a directory just made, or just moved to its place, nothing that exists is denied. */
  lemma NewDirTrue(w: World, d: string, t: int, q: string, now: int)
    requires Fine(w, t) && t <= now && Proper(q, w.meta.maxLen) && DirOf(q) == d && w.up
    ensures var (w1, st) := MakeDir(w, d, t); st == 0 ==> GetAttr(w1, q, now).1 == Truth(w1.ns, q)
  {
    hide Normal, DirOf, Agree, StatsTrue, Sane, AddIfFresh;
    var (w1, st) := MakeDir(w, d, t);
    if st == 0 {
      MakeDirFine(w, d, t);
      TimePasses(w1, t, now);
      PatchAges(RemoveDir(RemoveStat(w.meta, d), d), d, t);
      GetAttrExact(w1, q, now);
      ClearedDirs(w1.meta, now);
    }
  }

  lemma MovedDirTrue(w: World, from: string, d: string, t: int, q: string, now: int)
    requires Fine(w, t) && t <= now && Proper(q, w.meta.maxLen) && DirOf(q) == d && w.up && SafeMove(w, from, d, t)
    ensures var (w1, st) := Move(w, from, d, t); st == 0 ==> GetAttr(w1, q, now).1 == Truth(w1.ns, q)
  {
    hide Normal, DirOf, Agree, StatsTrue, Sane, Vacate, RenameMeta, MayRename, MovedNames, Below, SafeMove;
    var (w1, st) := Move(w, from, d, t);
    if st == 0 {
      MoveExact(w, from, d, t);
      MoveKeepsSettings(w, from, d, t);
      Vacated(w, from, d, t);
      TimePasses(w1, t, now);
      RenameKeeps(Vacate(w, d, t).0.meta, from, d, t, d);
      GetAttrExact(w1, q, now);
      ClearedDirs(w1.meta, now);
    }
  }

  lemma ClearedDirs(m: Meta, now: int)
    ensures ClearDir(ClearStat(m, now, false), now, false).dirs.Keys <= m.dirs.Keys
  {
  }
}
