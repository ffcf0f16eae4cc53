/** Whole runs of the metadata cache beside the server's names, and how old a cached answer can get. */
module MetaRuns {
  import opened Options
  import opened Paths
  import opened MetaModel
  import opened Renaming

  datatype Event =
    | Creating(p: string) | Unlinking(p: string) | MakingDir(p: string) | DroppingDir(p: string)
    | RenamingTo(from: string, to: string)
    | ReadingDir(d: string, names: seq<string>) | CachingDir(d: string, names: seq<string>)
    | OpeningDir(d: string) | GettingAttr(p: string)
    | ClearingDir(force: bool) | ClearingStat(force: bool) | Resetting | Reaching(up: bool)

  ghost function Step(w: World, e: Event, now: int): World
  {
    match e
    case Creating(p) => Create(w, p, now).0
    case Unlinking(p) => Unlink(w, p).0
    case MakingDir(p) => MakeDir(w, p, now).0
    case DroppingDir(p) => DropDir(w, p).0
    case RenamingTo(from, to) => Move(w, from, to, now).0
    case ReadingDir(d, names) => ReadDir(w, d, names, now)
    case CachingDir(d, names) => CacheDir(w, d, names, now)
    case OpeningDir(d) => OpenDir(w, d, now).0
    case GettingAttr(p) => GetAttr(w, p, now).0
    case ClearingDir(force) => w.(meta := ClearDir(w.meta, now, force))
    case ClearingStat(force) => w.(meta := ClearStat(w.meta, now, force))
    case Resetting => w.(meta := w.meta.(stats := map[], dirs := map[]))
    case Reaching(up) => w.(up := up)
  }

  /** Directories are read to their end, and are renamed only with nothing below them cached. */
  ghost predicate Allowed(w: World, e: Event, now: int)
  {
    && ((e.ReadingDir? || e.CachingDir?) ==> e.d in w.ns.dirs && Enumerates(e.names, NamesIn(All(w.ns), e.d)))
    && (e.RenamingTo? ==> SafeMove(w, e.from, e.to, now))
  }

  lemma StepFine(w: World, e: Event, now: int)
    requires Fine(w, now) && Allowed(w, e, now) && w.meta.timeout >= 0
    ensures Fine(Step(w, e, now), now)
  {
    hide Fine, Create, Unlink, MakeDir, DropDir, Move, ReadDir, CacheDir, OpenDir, GetAttr, ClearDir, ClearStat,
         NamesIn, SafeMove;
    match e
    case Creating(p) => CreateFine(w, p, now);
    case Unlinking(p) => UnlinkFine(w, p, now);
    case MakingDir(p) => MakeDirFine(w, p, now);
    case DroppingDir(p) => DropDirFine(w, p, now);
    case RenamingTo(from, to) => MoveExact(w, from, to, now);
    case ReadingDir(d, names) => ReadDirExact(w, d, names, now);
    case CachingDir(d, names) => CacheDirFine(w, d, names, now);
    case OpeningDir(d) => OpenDirTrue(w, d, now);
    case GettingAttr(p) => GetAttrFine(w, p, now);
    case ClearingDir(force) => ClearsFine(w, now, force);
    case ClearingStat(force) => ClearsFine(w, now, force);
    case Resetting => ResetFine(w, now);
    case Reaching(up) => ReachingFine(w, up, now);
  }

  lemma StepNamed(w: World, e: Event, now: int)
    requires Fine(w, now) && Named(w.meta) && Allowed(w, e, now)
    ensures Named(Step(w, e, now).meta)
  {
    hide Normal, DirOf, NameOf, SplitPath, JoinPath, Fill, AddIfFresh, RemoveEntry, NamesIn, SafeMove, Move, Agree,
         StatsTrue;
    var m := w.meta;
    match e
    case Creating(p) => if MayAdd(w, p) { AddNamed(RemoveStat(m, p), p, now); }
    case Unlinking(p) => RemoveNamed(RemoveStat(m, p), p);
    case MakingDir(p) => if MayAdd(w, p) { AddNamed(RemoveDir(RemoveStat(m, p), p), p, now); }
    case DroppingDir(p) => RemoveNamed(RemoveDir(RemoveStat(m, p), p), p);
    case RenamingTo(from, to) => MoveNamed(w, from, to, now);
    case ReadingDir(d, names) =>
      NamesValid(w.ns, d, m.maxLen);
      FillNamed(RemoveDir(m, d), w.ns, d, names, now);
    case CachingDir(d, names) =>
      NamesValid(w.ns, d, m.maxLen);
      FillNamed(ClearDir(m, now, false), w.ns, d, names, now);
    case OpeningDir(d) =>
    case GettingAttr(p) =>
    case ClearingDir(force) =>
    case ClearingStat(force) =>
    case Resetting =>
    case Reaching(up) =>
  }

  lemma VacateNamed(w: World, to: string, now: int)
    requires Named(w.meta)
    ensures var w1 := Vacate(w, to, now).0; Named(w1.meta) && w1.meta.maxLen == w.meta.maxLen
  {
    hide RemoveEntry, Exists;
    var w1 := GetAttr(w, to, now).0;
    RemoveNamed(RemoveStat(w1.meta, to), to);
    RemoveKeeps(RemoveStat(w1.meta, to), to);
  }

  lemma RemoveKeeps(m: Meta, p: string)
    ensures RemoveEntry(m, p).maxLen == m.maxLen && RemoveEntry(m, p).timeout == m.timeout
  {
  }

  lemma MoveNamed(w: World, from: string, to: string, now: int)
    requires Fine(w, now) && Named(w.meta)
    ensures Named(Move(w, from, to, now).0.meta)
  {
    hide Vacate, Named, RenameMeta, Normal, DirOf, Moved, Agree, StatsTrue;
    var (w1, st) := Vacate(w, to, now);
    VacateNamed(w, to, now);
    Vacated(w, from, to, now);
    if st >= 0 && Proper(to, w.meta.maxLen) { RenameNamed(w1.meta, from, to, now); }
  }

  lemma RenameNamed(m: Meta, from: string, to: string, now: int)
    requires Named(m) && Proper(to, m.maxLen)
    ensures Named(RenameMeta(m, from, to, now))
  {
    hide Normal, SplitPath, AddIfFresh, RemoveEntry;
    var m1 := RemoveDir(RemoveDir(RemoveStat(RemoveStat(m, from), to), from), to);
    RemoveNamed(m1, from);
    PatchAges(m1, from, now);
    AddNamed(RemoveEntry(m1, from), to, now);
  }

  lemma ResetFine(w: World, now: int)
    requires Fine(w, now)
    ensures Fine(w.(meta := w.meta.(stats := map[], dirs := map[])), now)
  {
  }

  lemma ReachingFine(w: World, up: bool, now: int)
    requires Fine(w, now)
    ensures Fine(w.(up := up), now)
  {
  }

  // ---------- ages ----------

  /** No entry was older than the timeout when the cache was last searched for old entries. */
  ghost predicate Swept(m: Meta, now: int)
  {
    && m.timeout >= 0 && m.lastDirCheck <= now && m.lastStatCheck <= now
    && (forall d :: d in m.dirs ==> m.lastDirCheck - m.dirs[d].timestamp <= m.timeout)
    && (forall p :: p in m.stats ==> m.lastStatCheck - m.stats[p].timestamp <= m.timeout)
  }

  /** Entries are dropped, kept with their age, or made at `now`. */
  ghost predicate Aged(m: Meta, m1: Meta, now: int)
  {
    && m1.timeout == m.timeout && m1.lastDirCheck == m.lastDirCheck && m1.lastStatCheck == m.lastStatCheck
    && (forall d :: d in m1.dirs ==>
          m1.dirs[d].timestamp == now || (d in m.dirs && m1.dirs[d].timestamp == m.dirs[d].timestamp))
    && (forall p :: p in m1.stats ==> m1.stats[p].timestamp == now || (p in m.stats && m1.stats[p] == m.stats[p]))
  }

  lemma AgedSwept(m: Meta, m1: Meta, now: int)
    requires Swept(m, now) && Aged(m, m1, now)
    ensures Swept(m1, now)
  {
  }

  lemma AgedTwice(m: Meta, m1: Meta, m2: Meta, now: int)
    requires Aged(m, m1, now) && Aged(m1, m2, now)
    ensures Aged(m, m2, now)
  {
  }

  lemma PiecesAged(m: Meta, p: string, now: int)
    ensures Aged(m, m, now) && Aged(m, RemoveStat(m, p), now) && Aged(m, RemoveDir(m, p), now)
    ensures Aged(m, RemoveEntry(m, p), now) && Aged(m, AddIfFresh(m, p, now), now)
  {
    hide SplitPath;
  }

  lemma {:induction false} FillAged(m: Meta, ns: Names, d: string, names: seq<string>, now: int)
    ensures Aged(m, Fill(m, ns, d, names, now), now)
    decreases |names|
  {
    hide JoinPath, Child;
    if names != [] {
      var m1 := AddEntry(PutStat2(m, d, names[0], Child(d, names[0]) in ns.dirs, now), d, names[0], now);
      FillAged(m1, ns, d, names[1..], now);
    }
  }

  lemma ClearsSwept(m: Meta, now: int, force: bool)
    requires Swept(m, now)
    ensures Swept(ClearDir(m, now, force), now) && Swept(ClearStat(m, now, force), now)
  {
  }

  /** After the cache was asked to drop old listings, no listing is older than one and a half timeouts,
      and none that was within the timeout is gone. */
  lemma DirAgeBound(m: Meta, now: int, force: bool, d: string)
    requires Swept(m, now)
    ensures var m1 := ClearDir(m, now, force);
      && (d in m1.dirs ==>
            d in m.dirs && m1.dirs[d] == m.dirs[d] && now - m1.dirs[d].timestamp <= m.timeout + m.timeout / 2)
      && (FreshDir(m, d, now) ==> d in m1.dirs)
      && (force ==> (d in m1.dirs <==> FreshDir(m, d, now)))
  {
  }

  lemma StatAgeBound(m: Meta, now: int, force: bool, p: string)
    requires Swept(m, now)
    ensures var m1 := ClearStat(m, now, force);
      && (p in m1.stats ==>
            p in m.stats && m1.stats[p] == m.stats[p] && now - m1.stats[p].timestamp <= m.timeout + m.timeout / 2)
      && (FreshStat(m, p, now) ==> p in m1.stats)
      && (force ==> (p in m1.stats <==> FreshStat(m, p, now)))
  {
  }

  lemma StepSwept(w: World, e: Event, now: int)
    requires Swept(w.meta, now)
    ensures Swept(Step(w, e, now).meta, now)
  {
    hide Swept, Aged, RemoveStat, RemoveDir, RemoveEntry, AddIfFresh, Fill, Move, MayAdd, ClearDir, ClearStat, NamesIn;
    var m := w.meta;
    match e
    case Creating(p) => TailSwept(m, p, now);
    case Unlinking(p) => TailSwept(m, p, now);
    case MakingDir(p) => TailSwept(m, p, now);
    case DroppingDir(p) => TailSwept(m, p, now);
    case RenamingTo(from, to) => MoveSwept(w, from, to, now);
    case ReadingDir(d, names) =>
      PiecesAged(m, d, now);
      FillAged(RemoveDir(m, d), w.ns, d, names, now);
      AgedTwice(m, RemoveDir(m, d), Fill(RemoveDir(m, d), w.ns, d, names, now), now);
      AgedSwept(m, Fill(RemoveDir(m, d), w.ns, d, names, now), now);
    case CachingDir(d, names) =>
      var m1 := ClearDir(m, now, false);
      ClearsSwept(m, now, false);
      FillAged(m1, w.ns, d, names, now);
      AgedSwept(m1, Fill(m1, w.ns, d, names, now), now);
    case OpeningDir(d) => ClearsSwept(m, now, false);
    case GettingAttr(p) => GetAttrSwept(w, p, now);
    case ClearingDir(force) => ClearsSwept(m, now, force);
    case ClearingStat(force) => ClearsSwept(m, now, force);
    case Resetting => ResetSwept(m, now);
    case Reaching(up) =>
  }

  lemma ResetSwept(m: Meta, now: int)
    requires Swept(m, now)
    ensures Swept(m.(stats := map[], dirs := map[]), now)
  {
  }

  lemma TailSwept(m: Meta, p: string, now: int)
    requires Swept(m, now)
    ensures Swept(AddIfFresh(RemoveStat(m, p), p, now), now) && Swept(RemoveEntry(RemoveStat(m, p), p), now)
    ensures Swept(AddIfFresh(RemoveDir(RemoveStat(m, p), p), p, now), now)
    ensures Swept(RemoveEntry(RemoveDir(RemoveStat(m, p), p), p), now)
  {
    hide Swept, Aged, RemoveStat, RemoveDir, RemoveEntry, AddIfFresh;
    var m1 := RemoveStat(m, p);
    var m2 := RemoveDir(m1, p);
    PiecesAged(m, p, now);
    PiecesAged(m1, p, now);
    PiecesAged(m2, p, now);
    AgedSwept(m, m1, now);
    AgedSwept(m1, m2, now);
    AgedSwept(m1, AddIfFresh(m1, p, now), now);
    AgedSwept(m1, RemoveEntry(m1, p), now);
    AgedSwept(m2, AddIfFresh(m2, p, now), now);
    AgedSwept(m2, RemoveEntry(m2, p), now);
  }

  lemma RenameSwept(m: Meta, from: string, to: string, now: int)
    requires Swept(m, now)
    ensures Swept(RenameMeta(m, from, to, now), now)
  {
    hide Swept, Aged, RemoveStat, RemoveDir, RemoveEntry, AddIfFresh;
    var m1 := RemoveStat(m, from);
    var m2 := RemoveStat(m1, to);
    var m3 := RemoveDir(m2, from);
    var m4 := RemoveDir(m3, to);
    var m5 := RemoveEntry(m4, from);
    PiecesAged(m, from, now);
    PiecesAged(m1, to, now);
    PiecesAged(m2, from, now);
    PiecesAged(m3, to, now);
    PiecesAged(m4, from, now);
    PiecesAged(m5, to, now);
    AgedSwept(m, m1, now);
    AgedSwept(m1, m2, now);
    AgedSwept(m2, m3, now);
    AgedSwept(m3, m4, now);
    AgedSwept(m4, m5, now);
    AgedSwept(m5, AddIfFresh(m5, to, now), now);
  }

  lemma MoveSwept(w: World, from: string, to: string, now: int)
    requires Swept(w.meta, now)
    ensures Swept(Move(w, from, to, now).0.meta, now)
  {
    hide Swept, GetAttr, RenameMeta, RemoveStat, RemoveEntry, MayRename;
    GetAttrSwept(w, to, now);
    TailSwept(GetAttr(w, to, now).0.meta, to, now);
    RenameSwept(Vacate(w, to, now).0.meta, from, to, now);
  }

  lemma GetAttrSwept(w: World, p: string, now: int)
    requires Swept(w.meta, now)
    ensures Swept(GetAttr(w, p, now).0.meta, now)
  {
    hide ClearDir, ClearStat, Exists, Swept;
    var m1 := ClearStat(w.meta, now, false);
    var m2 := ClearDir(m1, now, false);
    ClearsSwept(w.meta, now, false);
    ClearsSwept(m1, now, false);
    PutAged(m2, p, p in w.ns.dirs, now);
    AgedSwept(m2, PutStat(m2, p, p in w.ns.dirs, now), now);
  }

  lemma PutAged(m: Meta, p: string, isDir: bool, now: int)
    ensures Aged(m, PutStat(m, p, isDir, now), now)
  {
  }

  // ---------- runs ----------

  datatype Timed = At(now: int, event: Event)

  /** A run under a clock that does not go back, of events that are allowed where they happen. */
  ghost predicate Legal(w: World, now: int, run: seq<Timed>)
    decreases |run|
  {
    run == [] ||
    (run[0].now >= now && Allowed(w, run[0].event, run[0].now)
     && Legal(Step(w, run[0].event, run[0].now), run[0].now, run[1..]))
  }

  ghost function After(w: World, run: seq<Timed>): World
    decreases |run|
  {
    if run == [] then w else After(Step(w, run[0].event, run[0].now), run[1..])
  }

  function Last(now: int, run: seq<Timed>): int
  {
    if run == [] then now else run[|run| - 1].now
  }

  lemma {:induction false} RunFine(w: World, now: int, run: seq<Timed>)
    requires Fine(w, now) && Swept(w.meta, now) && Named(w.meta) && Legal(w, now, run)
    ensures var w1 := After(w, run);
      Fine(w1, Last(now, run)) && Swept(w1.meta, Last(now, run)) && Named(w1.meta)
    decreases |run|
  {
    hide Fine, Swept, Named, Allowed, Step;
    if run != [] {
      var at := run[0].now;
      TimePasses(w, now, at);
      LaterSwept(w.meta, now, at);
      StepFine(w, run[0].event, at);
      StepNamed(w, run[0].event, at);
      StepSwept(w, run[0].event, at);
      RunFine(Step(w, run[0].event, at), at, run[1..]);
    }
  }

  lemma LaterSwept(m: Meta, now: int, later: int)
    requires Swept(m, now) && now <= later
    ensures Swept(m, later) && m.timeout >= 0
  {
  }

  function EmptyCache(timeout: int, max: nat): Meta { Meta(map[], map[], 0, 0, timeout, max) }

  /** The directory in whose listing the path would be denied. */
  function DeniedIn(p: string): string { if p == "/" then "/" else DirOf(p) }

  /** After any run from an empty cache, at any later time: what a fresh listing says of a name is so,
      and getting attributes, the root's included, is wrong only by denying an existing file. It denies a
      file only from a listing between one and one and a half timeouts old; it finds the root if and
      only if the root's stat is cached or its listing is not. */
  lemma RunAnswers(ns: Names, timeout: int, max: nat, start: int, run: seq<Timed>, p: string, now: int)
    requires Sane(ns, max) && timeout >= 0 && 0 <= start && max > 1 && (p == "/" || Proper(p, max))
    requires Legal(World(ns, true, EmptyCache(timeout, max)), start, run) && Last(start, run) <= now
    ensures var w := After(World(ns, true, EmptyCache(timeout, max)), run);
      var a := GetAttr(w, p, now).1; var m1 := ClearStat(w.meta, now, false);
      && w.meta.maxLen == max && w.meta.timeout == timeout
      && (p != "/" && FreshDir(w.meta, DirOf(p), now) ==> (Exists(w.meta, p) == Missing <==> p !in All(w.ns)))
      && (w.up && a != Truth(w.ns, p) ==>
            a == Absent && DeniedIn(p) in w.meta.dirs && Age(w.meta, DeniedIn(p), now) <= timeout + timeout / 2)
      && (w.up && a != Truth(w.ns, p) && p != "/" ==> timeout < Age(w.meta, DirOf(p), now))
      && (w.up && p == "/" ==>
            (a == Truth(w.ns, p) <==> FreshStat(m1, "/", now) || "/" !in ClearDir(m1, now, false).dirs))
  {
    hide Legal, After, Last, DirOf, NameOf, Normal, Exists, Swept, ClearDir, ClearStat, Fine, Named;
    var w0 := World(ns, true, EmptyCache(timeout, max));
    EmptyFine(w0, start);
    RunFine(w0, start, run);
    var w := After(w0, run);
    KeepsSettings(w0, run);
    TimePasses(w, Last(start, run), now);
    LaterSwept(w.meta, Last(start, run), now);
    AnswersNow(w, p, now);
  }

  function Age(m: Meta, d: string, now: int): int
    requires d in m.dirs
  {
    now - m.dirs[d].timestamp
  }

  lemma AnswersNow(w: World, p: string, now: int)
    requires Fine(w, now) && Swept(w.meta, now) && Named(w.meta) && w.meta.maxLen > 1
    requires p == "/" || Proper(p, w.meta.maxLen)
    ensures var a := GetAttr(w, p, now).1; var m1 := ClearStat(w.meta, now, false);
      var limit := w.meta.timeout + w.meta.timeout / 2;
      && (p != "/" && FreshDir(w.meta, DirOf(p), now) ==> (Exists(w.meta, p) == Missing <==> p !in All(w.ns)))
      && (w.up && a != Truth(w.ns, p) ==>
            a == Absent && DeniedIn(p) in w.meta.dirs && Age(w.meta, DeniedIn(p), now) <= limit)
      && (w.up && a != Truth(w.ns, p) && p != "/" ==> w.meta.timeout < Age(w.meta, DirOf(p), now))
      && (w.up && p == "/" ==>
            (a == Truth(w.ns, p) <==> FreshStat(m1, "/", now) || "/" !in ClearDir(m1, now, false).dirs))
  {
    hide DirOf, NameOf, Normal, Exists, Swept, ClearDir, ClearStat, Named, Agree, StatsTrue;
    var m1 := ClearStat(w.meta, now, false);
    ClearsSwept(w.meta, now, false);
    ClearStatKeepsDirs(w.meta, now, false);
    ClearStatKeepsDirs(m1, now, false);
    DirAgeBound(m1, now, false, DeniedIn(p));
    if p == "/" {
      RootTrue(w);
      if w.up { RootExact(w, now); }
    } else {
      FreshAnswer(w, p, now);
      if w.up { GetAttrExact(w, p, now); }
    }
  }

  lemma RootTrue(w: World)
    requires Sane(w.ns, w.meta.maxLen)
    ensures Truth(w.ns, "/") == Found(true)
  {
  }

  lemma ClearStatKeepsDirs(m: Meta, now: int, force: bool)
    ensures ClearStat(m, now, force).dirs == m.dirs && ClearStat(m, now, force).timeout == m.timeout
    ensures ClearDir(m, now, force).timeout == m.timeout
  {
  }

  lemma EmptyFine(w: World, now: int)
    requires w.meta.stats == map[] && w.meta.dirs == map[] && Sane(w.ns, w.meta.maxLen)
    requires w.meta.timeout >= 0 && w.meta.lastDirCheck <= now && w.meta.lastStatCheck <= now
    ensures Fine(w, now) && Swept(w.meta, now) && Named(w.meta)
  {
  }

  lemma FreshAnswer(w: World, p: string, now: int)
    requires Fine(w, now) && Proper(p, w.meta.maxLen)
    ensures FreshDir(w.meta, DirOf(p), now) ==> (Exists(w.meta, p) == Missing <==> p !in All(w.ns))
  {
    hide DirOf, NameOf, Normal, NamesIn;
    PathParts(p, w.meta.maxLen);
    Listed(All(w.ns), p, w.meta.maxLen);
    if DirOf(p) in w.meta.dirs { assert AgreesAt(w.meta, w.ns, DirOf(p), now); }
  }

  lemma {:induction false} KeepsSettings(w: World, run: seq<Timed>)
    ensures After(w, run).meta.maxLen == w.meta.maxLen && After(w, run).meta.timeout == w.meta.timeout
    decreases |run|
  {
    hide Step;
    if run != [] {
      StepKeepsSettings(w, run[0].event, run[0].now);
      KeepsSettings(Step(w, run[0].event, run[0].now), run[1..]);
    }
  }

  lemma StepKeepsSettings(w: World, e: Event, now: int)
    ensures Step(w, e, now).meta.maxLen == w.meta.maxLen && Step(w, e, now).meta.timeout == w.meta.timeout
  {
    hide MayRename, MayAdd, NamesIn, SplitPath, JoinPath, Exists, Fill, Move;
    if e.RenamingTo? { MoveKeepsSettings(w, e.from, e.to, now); }
    if e.ReadingDir? { FillKeeps(RemoveDir(w.meta, e.d), w.ns, e.d, e.names, now); }
    if e.CachingDir? { FillKeeps(ClearDir(w.meta, now, false), w.ns, e.d, e.names, now); }
  }

  lemma MoveKeepsSettings(w: World, from: string, to: string, now: int)
    ensures var m1 := Move(w, from, to, now).0.meta; m1.maxLen == w.meta.maxLen && m1.timeout == w.meta.timeout
  {
    hide MayRename, RenameMeta, GetAttr, RemoveEntry;
    var w1 := Vacate(w, to, now).0;
    Asked(w, to, now);
    RemoveKeeps(RemoveStat(GetAttr(w, to, now).0.meta, to), to);
    RenameKeeps(w1.meta, from, to, now, "");
  }

  lemma FillKeeps(m: Meta, ns: Names, d: string, names: seq<string>, now: int)
    ensures var m1 := Fill(m, ns, d, names, now); m1.maxLen == m.maxLen && m1.timeout == m.timeout
  {
    if names == [] { FillNone(m, ns, d, now); } else { FillDirs(m, ns, d, names, now); }
  }
}
