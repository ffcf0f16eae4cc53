/** The metadata cache and the server's names, on values: cached listings are patched by every operation
    on the names instead of being read again. */
module MetaModel {
  import opened Options
  import opened Paths

  const ENOENT := 2
  const ENOTEMPTY := 39

  datatype Listing = Listing(entries: seq<string>, timestamp: int)

  datatype Stat = Stat(isDir: bool, timestamp: int)

  datatype Meta = Meta(stats: map<string, Stat>, dirs: map<string, Listing>,
                       lastStatCheck: int, lastDirCheck: int, timeout: int, maxLen: nat)

  // ---------- the cache ----------

  predicate FreshDir(m: Meta, d: string, now: int)
  {
    d in m.dirs && now - m.dirs[d].timestamp <= m.timeout
  }

  predicate FreshStat(m: Meta, p: string, now: int)
  {
    p in m.stats && now - m.stats[p].timestamp <= m.timeout
  }

  function PutStat(m: Meta, p: string, isDir: bool, now: int): Meta
  {
    m.(stats := m.stats[p := Stat(isDir, now)])
  }

  /** iFuseMetadataCachePutStat2. */
  function PutStat2(m: Meta, d: string, name: string, isDir: bool, now: int): Meta
  {
    match JoinPath(d, name, m.maxLen)
    case Path(p) => PutStat(m, p, isDir, now)
    case _ => m
  }

  function RemoveStat(m: Meta, p: string): Meta { m.(stats := m.stats - {p}) }

  /** _cacheDirEntry: appends to the listing, or begins one. */
  function AddEntry(m: Meta, d: string, name: string, now: int): Meta
  {
    var l := if d in m.dirs then m.dirs[d] else Listing([], now);
    m.(dirs := m.dirs[d := l.(entries := l.entries + [name])])
  }

  /** iFuseMetadataCacheAddDirEntryIfFresh2. */
  function AddIfFresh(m: Meta, p: string, now: int): Meta
  {
    match SplitPath(p, m.maxLen, m.maxLen)
    case Parts(d, name) => if FreshDir(m, d, now) then AddEntry(m, d, name, now) else m
    case SplitTooLong => m
  }

  function RemoveDir(m: Meta, d: string): Meta { m.(dirs := m.dirs - {d}) }

  function RemoveFirst(entries: seq<string>, name: string): seq<string>
  {
    if entries == [] then []
    else if entries[0] == name then entries[1..]
    else [entries[0]] + RemoveFirst(entries[1..], name)
  }

  /** iFuseMetadataCacheRemoveDirEntry2: whether the listing is fresh does not matter. */
  function RemoveEntry(m: Meta, p: string): Meta
  {
    match SplitPath(p, m.maxLen, m.maxLen)
    case Parts(d, name) =>
      if d in m.dirs then
        m.(dirs := m.dirs[d := m.dirs[d].(entries := RemoveFirst(m.dirs[d].entries, name))])
      else m
    case SplitTooLong => m
  }

  datatype Existence = Present | Missing | NoAnswer

  /** iFuseMetadataCacheCheckExistanceOfDirEntry: the listing's age does not matter. */
  function Exists(m: Meta, p: string): Existence
  {
    match SplitPath(p, m.maxLen, m.maxLen)
    case Parts(d, name) =>
      if d !in m.dirs then NoAnswer else if name in m.dirs[d].entries then Present else Missing
    case SplitTooLong => NoAnswer
  }

  /** iFuseMetadataCacheClearExpiredDir. */
  function ClearDir(m: Meta, now: int, force: bool): Meta
  {
    if !force && now - m.lastDirCheck <= m.timeout / 2 then m
    else m.(dirs := map d | d in m.dirs && FreshDir(m, d, now) :: m.dirs[d], lastDirCheck := now)
  }

  /** iFuseMetadataCacheClearExpiredStat. */
  function ClearStat(m: Meta, now: int, force: bool): Meta
  {
    if !force && now - m.lastStatCheck <= m.timeout / 2 then m
    else m.(stats := map p | p in m.stats && FreshStat(m, p, now) :: m.stats[p], lastStatCheck := now)
  }

  // ---------- the server's names ----------

  datatype Names = Names(dirs: set<string>, files: set<string>)

  function All(ns: Names): set<string> { ns.dirs + ns.files }

  function DirOf(p: string): string
  {
    if p == "" then "" else p[..if LastSlash(p) > 1 then LastSlash(p) else 1]
  }

  function NameOf(p: string): string { p[LastSlash(p) + 1..] }

  ghost predicate Proper(p: string, max: nat) { Normal(p) && p != "/" && |p| < max }

  /** The root is a directory, every other name is in one, and nothing is both file and directory. */
  ghost predicate Sane(ns: Names, max: nat)
  {
    && "/" in ns.dirs && ns.dirs !! ns.files
    && forall p :: p in All(ns) ==> p == "/" || (Proper(p, max) && DirOf(p) in ns.dirs)
  }

  ghost predicate AllProper(paths: set<string>, max: nat)
  {
    forall p :: p in paths ==> p == "/" || Proper(p, max)
  }

  /** The names in directory `d`. */
  ghost function NamesIn(paths: set<string>, d: string): set<string>
  {
    set p | p in paths && p != "/" && DirOf(p) == d :: NameOf(p)
  }

  predicate NoRepeats(s: seq<string>)
  {
    forall i, j :: 0 <= i < j < |s| ==> s[i] != s[j]
  }

  ghost predicate Enumerates(s: seq<string>, names: set<string>)
  {
    NoRepeats(s) && forall n :: n in s <==> n in names
  }

  lemma {:induction false} EnumeratesIsMultiset(s: seq<string>, names: set<string>)
    requires Enumerates(s, names)
    ensures multiset(s) == multiset(names)
  {
    if s == [] {
      assert names == {};
    } else {
      assert s == [s[0]] + s[1..];
      EnumeratesIsMultiset(s[1..], names - {s[0]});
      assert multiset(names) == multiset(names - {s[0]}) + multiset{s[0]};
    }
  }

  lemma PathParts(p: string, max: nat)
    requires Proper(p, max)
    ensures SplitPath(p, max, max) == Parts(DirOf(p), NameOf(p))
    ensures Normal(DirOf(p)) && ValidName(NameOf(p)) && p == Child(DirOf(p), NameOf(p))
    ensures JoinPath(DirOf(p), NameOf(p), max) == Path(p)
  {
    hide Normal, LastSlash;
    JoinOfSplit(p, max);
    SlashFound(p);
  }

  lemma ChildParts(d: string, name: string)
    requires Normal(d) && ValidName(name)
    ensures var p := Child(d, name); p != "/" && DirOf(p) == d && NameOf(p) == name
  {
    hide Normal, LastSlash, Child;
    var p := Child(d, name);
    SplitOfJoin(d, name, |p| + 1);
    ChildNormal(d, name);
  }

  lemma NamesAdd(paths: set<string>, p: string, d: string)
    requires p != "/"
    ensures NamesIn(paths + {p}, d) == NamesIn(paths, d) + if DirOf(p) == d then {NameOf(p)} else {}
  {
    hide DirOf, NameOf;
  }

  lemma NamesRemove(paths: set<string>, p: string, d: string, max: nat)
    requires Proper(p, max) && AllProper(paths, max)
    ensures NamesIn(paths - {p}, d) == NamesIn(paths, d) - if DirOf(p) == d then {NameOf(p)} else {}
  {
    hide DirOf, NameOf, Normal;
    PathParts(p, max);
    forall q | q in paths && q != p && q != "/" ensures DirOf(q) != DirOf(p) || NameOf(q) != NameOf(p) {
      PathParts(q, max);
    }
  }

  lemma NamesSame(a: set<string>, b: set<string>, d: string)
    requires forall p :: p in a && p != "/" && DirOf(p) == d ==> p in b
    requires forall p :: p in b && p != "/" && DirOf(p) == d ==> p in a
    ensures NamesIn(a, d) == NamesIn(b, d)
  {
    hide DirOf, NameOf;
  }

  /** A name is listed in its directory if and only if the path exists. */
  lemma Listed(paths: set<string>, p: string, max: nat)
    requires AllProper(paths, max) && Proper(p, max)
    ensures NameOf(p) in NamesIn(paths, DirOf(p)) <==> p in paths
  {
    hide DirOf, NameOf, Normal;
    PathParts(p, max);
    forall q | q in paths && q != "/" && DirOf(q) == DirOf(p) && NameOf(q) == NameOf(p) ensures q == p {
      PathParts(q, max);
    }
  }

  /** A stat and an entry stored under directory and name are found under the full path, and an entry
      found there is removed under it. */
  lemma KeysAgree(m: Meta, d: string, name: string, isDir: bool, now: int)
    requires Normal(d) && ValidName(name) && |Child(d, name)| < m.maxLen
    ensures var p := Child(d, name);
      var m1 := AddEntry(PutStat2(m, d, name, isDir, now), d, name, now);
      && p in m1.stats && m1.stats[p] == Stat(isDir, now)
      && Exists(m1, p) == Present
      && (d !in m.dirs ==> Exists(RemoveEntry(m1, p), p) == Missing)
  {
    hide Normal, Child;
    SplitOfJoin(d, name, m.maxLen);
    var m1 := AddEntry(PutStat2(m, d, name, isDir, now), d, name, now);
    assert name in m1.dirs[d].entries by { assert m1.dirs[d].entries[|m1.dirs[d].entries| - 1] == name; }
    if d !in m.dirs {
      assert m1.dirs[d].entries == [] + [name] == [name];
    }
  }

  // ---------- the operations of the file system ----------

  datatype World = World(ns: Names, up: bool, meta: Meta)

  /** The server takes a new name in an existing directory only. */
  ghost predicate MayAdd(w: World, p: string)
  {
    w.up && Proper(p, w.meta.maxLen) && p !in All(w.ns) && DirOf(p) in w.ns.dirs
  }

  /** iFuseFsCreate. */
  ghost function Create(w: World, p: string, now: int): (World, int)
  {
    if !MayAdd(w, p) then (w, -ENOENT)
    else (World(w.ns.(files := w.ns.files + {p}), w.up, AddIfFresh(RemoveStat(w.meta, p), p, now)), 0)
  }

  /** iFuseFsUnlink. */
  ghost function Unlink(w: World, p: string): (World, int)
  {
    if !w.up || p !in w.ns.files then (w, -ENOENT)
    else (World(w.ns.(files := w.ns.files - {p}), w.up, RemoveEntry(RemoveStat(w.meta, p), p)), 0)
  }

  /** iFuseFsMakeDir. */
  ghost function MakeDir(w: World, p: string, now: int): (World, int)
  {
    if !MayAdd(w, p) then (w, -ENOENT)
    else
      (World(w.ns.(dirs := w.ns.dirs + {p}), w.up, AddIfFresh(RemoveDir(RemoveStat(w.meta, p), p), p, now)), 0)
  }

  /** iFuseFsRemoveDir. */
  ghost function DropDir(w: World, p: string): (World, int)
  {
    if !w.up || p !in w.ns.dirs || p == "/" then (w, -ENOENT)
    else if NamesIn(All(w.ns), p) != {} then (w, -ENOTEMPTY)
    else
      (World(w.ns.(dirs := w.ns.dirs - {p}), w.up, RemoveEntry(RemoveDir(RemoveStat(w.meta, p), p), p)), 0)
  }

  /** `q` is in the directory `p` or in one below it. */
  predicate Below(p: string, q: string)
  {
    |p| < |q| && q[..|p|] == p && q[|p|] == '/'
  }

  /** Where `q` is after `from` became `to`. */
  function Moved(from: string, to: string, q: string): string
  {
    if q == from then to else if Below(from, q) then to + q[|from|..] else q
  }

  ghost function MovedNames(ns: Names, from: string, to: string): Names
  {
    Names(set q | q in ns.dirs :: Moved(from, to, q), set q | q in ns.files :: Moved(from, to, q))
  }

  ghost predicate MayRename(w: World, from: string, to: string)
  {
    && from in All(w.ns) && from != "/" && !Below(from, to) && MayAdd(w, to)
    && forall q :: q in All(w.ns) ==> |Moved(from, to, q)| < w.meta.maxLen
  }

  /** What iFuseFsRename leaves of the cache. */
  function RenameMeta(m: Meta, from: string, to: string, now: int): Meta
  {
    var m1 := RemoveStat(RemoveStat(m, from), to);
    var m2 := RemoveDir(RemoveDir(m1, from), to);
    AddIfFresh(RemoveEntry(m2, from), to, now)
  }

  /** iFuseFsRename. */
  ghost function Rename(w: World, from: string, to: string, now: int): (World, int)
  {
    if !MayRename(w, from, to) then (w, -ENOENT)
    else (World(MovedNames(w.ns, from, to), w.up, RenameMeta(w.meta, from, to, now)), 0)
  }

  /** The loop of iFuseFsReadDir over what the server answers. */
  function Fill(m: Meta, ns: Names, d: string, names: seq<string>, now: int): Meta
    decreases |names|
  {
    if names == [] then m
    else
      var m1 := PutStat2(m, d, names[0], Child(d, names[0]) in ns.dirs, now);
      Fill(AddEntry(m1, d, names[0], now), ns, d, names[1..], now)
  }

  /** iFuseFsReadDir on a handle the server opened. */
  function ReadDir(w: World, d: string, names: seq<string>, now: int): World
  {
    w.(meta := Fill(RemoveDir(w.meta, d), w.ns, d, names, now))
  }

  /** iFuseFsCacheDir: the old listing, if it is there but not fresh, stays and grows. */
  function CacheDir(w: World, d: string, names: seq<string>, now: int): World
  {
    var m := ClearDir(w.meta, now, false);
    w.(meta := if FreshDir(m, d, now) then m else Fill(m, w.ns, d, names, now))
  }

  /** iFuseFsOpenDir: a fresh listing answers for the server. */
  function OpenDir(w: World, d: string, now: int): (World, Option<seq<string>>)
  {
    var m := ClearDir(w.meta, now, false);
    (w.(meta := m), if FreshDir(m, d, now) then Some(m.dirs[d].entries) else None)
  }

  datatype Answer = Found(isDir: bool) | Absent

  /** The cache is asked for the stat, then for the listing of the directory, and only then the server. */
  function Consulted(m: Meta, p: string, now: int): (Meta, Option<Answer>)
  {
    var m1 := ClearStat(m, now, false);
    if FreshStat(m1, p, now) then (m1, Some(Found(m1.stats[p].isDir)))
    else
      var m2 := ClearDir(m1, now, false);
      (m2, if Exists(m2, p) == Missing then Some(Absent) else None)
  }

  /** iFuseFsGetAttr, as far as the existence and the kind of the file go. */
  function GetAttr(w: World, p: string, now: int): (World, Answer)
  {
    var (m, cached) := Consulted(w.meta, p, now);
    if cached.Some? then (w.(meta := m), cached.value)
    else if w.up && p in All(w.ns) then (w.(meta := PutStat(m, p, p in w.ns.dirs, now)), Found(p in w.ns.dirs))
    else (w.(meta := m), Absent)
  }

  ghost function Truth(ns: Names, p: string): Answer
  {
    if p in ns.dirs then Found(true) else if p in ns.files then Found(false) else Absent
  }

  // ---------- agreement ----------

  /** A fresh listing of `d` names exactly what the server has there, each name once. */
  ghost predicate AgreesAt(m: Meta, ns: Names, d: string, now: int)
  {
    FreshDir(m, d, now) ==> d in ns.dirs && Enumerates(m.dirs[d].entries, NamesIn(All(ns), d))
  }

  ghost predicate Agree(m: Meta, ns: Names, now: int) { forall d :: d in m.dirs ==> AgreesAt(m, ns, d, now) }

  /** Cached stats are of existing files, and of the right kind. */
  ghost predicate StatsTrue(m: Meta, ns: Names)
  {
    forall p :: p in m.stats ==> p in All(ns) && (m.stats[p].isDir <==> p in ns.dirs)
  }

  ghost predicate Fine(w: World, now: int)
  {
    Sane(w.ns, w.meta.maxLen) && Agree(w.meta, w.ns, now) && StatsTrue(w.meta, w.ns)
  }

  lemma TimePasses(w: World, now: int, later: int)
    requires Fine(w, now) && now <= later
    ensures Fine(w, later)
  {
    forall d | d in w.meta.dirs ensures AgreesAt(w.meta, w.ns, d, later) { assert AgreesAt(w.meta, w.ns, d, now); }
  }

  lemma EnumeratesAdd(s: seq<string>, names: set<string>, n: string)
    requires Enumerates(s, names) && n !in names
    ensures Enumerates(s + [n], names + {n})
  {
  }

  lemma {:induction false} RemoveFirstAt(s: seq<string>, n: string)
    requires NoRepeats(s)
    ensures var r := RemoveFirst(s, n); NoRepeats(r) && forall x :: x in r <==> x in s && x != n
  {
    if s != [] {
      RemoveFirstAt(s[1..], n);
      assert s == [s[0]] + s[1..];
      assert s[0] !in s[1..];
    }
  }

  /** A name joins its directory: the listing of that directory, if fresh, takes it up. */
  lemma AddAgrees(m: Meta, ns: Names, ns1: Names, p: string, now: int)
    requires Agree(m, ns, now) && Proper(p, m.maxLen) && p !in All(ns) && AllProper(All(ns), m.maxLen)
    requires All(ns1) == All(ns) + {p} && ns.dirs <= ns1.dirs
    ensures Agree(AddIfFresh(m, p, now), ns1, now)
  {
    hide DirOf, NameOf, NamesIn, Enumerates, Normal;
    PathParts(p, m.maxLen);
    var m1 := AddIfFresh(m, p, now);
    forall d | d in m1.dirs ensures AgreesAt(m1, ns1, d, now) {
      NamesAdd(All(ns), p, d);
      Listed(All(ns), p, m.maxLen);
      if d in m.dirs { assert AgreesAt(m, ns, d, now); }
      if FreshDir(m, d, now) && d == DirOf(p) {
        EnumeratesAdd(m.dirs[d].entries, NamesIn(All(ns), d), NameOf(p));
      } else {
        assert NamesIn(All(ns), d) + {} == NamesIn(All(ns), d);
      }
    }
  }

  /** A name leaves its directory. */
  lemma RemoveAgrees(m: Meta, ns: Names, ns1: Names, p: string, now: int)
    requires Agree(m, ns, now) && Proper(p, m.maxLen) && AllProper(All(ns), m.maxLen)
    requires All(ns1) == All(ns) - {p} && ns.dirs - {p} <= ns1.dirs && !FreshDir(m, p, now)
    ensures Agree(RemoveEntry(m, p), ns1, now)
  {
    hide DirOf, NameOf, NamesIn, Normal;
    PathParts(p, m.maxLen);
    var m1 := RemoveEntry(m, p);
    forall d | d in m1.dirs ensures AgreesAt(m1, ns1, d, now) {
      NamesRemove(All(ns), p, d, m.maxLen);
      assert AgreesAt(m, ns, d, now);
      if FreshDir(m, d, now) && d == DirOf(p) {
        RemoveFirstAt(m.dirs[d].entries, NameOf(p));
      } else {
        assert NamesIn(All(ns), d) - {} == NamesIn(All(ns), d);
      }
    }
  }

  // ---------- every operation keeps the agreement ----------

  lemma CreateFine(w: World, p: string, now: int)
    requires Fine(w, now)
    ensures Fine(Create(w, p, now).0, now)
  {
    hide DirOf, NameOf, Proper, AgreesAt, SplitPath;
    if MayAdd(w, p) {
      AddAgrees(RemoveStat(w.meta, p), w.ns, w.ns.(files := w.ns.files + {p}), p, now) by {
        SameDirs(w.meta, RemoveStat(w.meta, p), w.ns, now);
      }
    }
  }

  lemma SameDirs(m: Meta, m1: Meta, ns: Names, now: int)
    requires Agree(m, ns, now) && m1.timeout == m.timeout
    requires forall d :: d in m1.dirs ==> d in m.dirs && m1.dirs[d] == m.dirs[d]
    ensures Agree(m1, ns, now)
  {
    forall d | d in m1.dirs ensures AgreesAt(m1, ns, d, now) { assert AgreesAt(m, ns, d, now); }
  }

  lemma MakeDirFine(w: World, p: string, now: int)
    requires Fine(w, now)
    ensures Fine(MakeDir(w, p, now).0, now)
  {
    hide DirOf, NameOf, Proper, AgreesAt, SplitPath;
    if MayAdd(w, p) {
      var m1 := RemoveDir(RemoveStat(w.meta, p), p);
      SameDirs(w.meta, m1, w.ns, now);
      AddAgrees(m1, w.ns, w.ns.(dirs := w.ns.dirs + {p}), p, now);
    }
  }

  lemma UnlinkFine(w: World, p: string, now: int)
    requires Fine(w, now)
    ensures Fine(Unlink(w, p).0, now)
  {
    hide DirOf, NameOf, Proper, SplitPath;
    if w.up && p in w.ns.files {
      var m1 := RemoveStat(w.meta, p);
      SameDirs(w.meta, m1, w.ns, now);
      assert !FreshDir(m1, p, now) by { if p in m1.dirs { assert AgreesAt(m1, w.ns, p, now); } }
      RemoveAgrees(m1, w.ns, w.ns.(files := w.ns.files - {p}), p, now);
    }
  }

  lemma DropDirFine(w: World, p: string, now: int)
    requires Fine(w, now)
    ensures Fine(DropDir(w, p).0, now)
  {
    hide DirOf, NameOf, Proper, AgreesAt, SplitPath;
    var (w1, st) := DropDir(w, p);
    if st == 0 {
      var m1 := RemoveDir(RemoveStat(w.meta, p), p);
      SameDirs(w.meta, m1, w.ns, now);
      RemoveAgrees(m1, w.ns, w1.ns, p, now);
      forall q | q in All(w.ns) && q != "/" && DirOf(q) == p ensures NameOf(q) in NamesIn(All(w.ns), p) {
      }
    }
  }

  function Was(m: Meta, d: string, now: int): Listing
  {
    if d in m.dirs then m.dirs[d] else Listing([], now)
  }

  lemma FillOne(m: Meta, ns: Names, d: string, name: string, now: int)
    ensures var m1 := AddEntry(PutStat2(m, d, name, Child(d, name) in ns.dirs, now), d, name, now);
      && m1.timeout == m.timeout && m1.maxLen == m.maxLen
      && m1.dirs == m.dirs[d := Listing(Was(m, d, now).entries + [name], Was(m, d, now).timestamp)]
  {
    hide JoinPath, Child;
  }

  lemma {:induction false} FillDirs(m: Meta, ns: Names, d: string, names: seq<string>, now: int)
    requires names != []
    ensures var m1 := Fill(m, ns, d, names, now);
      && m1.timeout == m.timeout && m1.maxLen == m.maxLen
      && m1.dirs == m.dirs[d := Listing(Was(m, d, now).entries + names, Was(m, d, now).timestamp)]
    decreases |names|
  {
    hide PutStat2, AddEntry, Child;
    var m1 := AddEntry(PutStat2(m, d, names[0], Child(d, names[0]) in ns.dirs, now), d, names[0], now);
    FillOne(m, ns, d, names[0], now);
    var es := Was(m, d, now).entries;
    assert es + names == es + [names[0]] + names[1..];
    if |names| > 1 {
      FillDirs(m1, ns, d, names[1..], now);
    } else {
      assert names[1..] == [] && Fill(m, ns, d, names, now) == Fill(m1, ns, d, [], now) == m1;
      assert es + names == es + [names[0]];
    }
  }

  lemma NameIsPath(ns: Names, d: string, n: string, max: nat)
    requires Sane(ns, max) && n in NamesIn(All(ns), d)
    ensures Child(d, n) in All(ns) && JoinPath(d, n, max) == Path(Child(d, n))
  {
    hide Normal, DirOf, NameOf, JoinPath, Child;
    var p :| p in All(ns) && p != "/" && DirOf(p) == d && NameOf(p) == n;
    PathParts(p, max);
  }

  lemma {:induction false} FillStats(m: Meta, ns: Names, d: string, names: seq<string>, now: int)
    requires StatsTrue(m, ns) && Sane(ns, m.maxLen)
    requires forall n :: n in names ==> n in NamesIn(All(ns), d)
    ensures StatsTrue(Fill(m, ns, d, names, now), ns)
    decreases |names|
  {
    hide NamesIn, JoinPath, Child, Sane;
    if names != [] {
      var n := names[0];
      assert n in names;
      NameIsPath(ns, d, n, m.maxLen);
      FillStats(AddEntry(PutStat2(m, d, n, Child(d, n) in ns.dirs, now), d, n, now), ns, d, names[1..], now);
    }
  }

  /** A full reading caches the server's listing; one that broke off is cached all the same, and then the
      listing is wrong unless nothing was read. */
  lemma ReadDirExact(w: World, d: string, names: seq<string>, now: int)
    requires Fine(w, now) && d in w.ns.dirs && w.meta.timeout >= 0
    requires NoRepeats(names) && forall n :: n in names ==> n in NamesIn(All(w.ns), d)
    ensures Fine(ReadDir(w, d, names, now), now) <==>
      names == [] || forall n :: n in NamesIn(All(w.ns), d) ==> n in names
  {
    hide NamesIn, Sane, StatsTrue, Fill;
    var m0, w1 := RemoveDir(w.meta, d), ReadDir(w, d, names, now);
    var m1 := w1.meta;
    assert StatsTrue(m0, w.ns) by { SameStats(w.meta, m0, w.ns); }
    FillStats(m0, w.ns, d, names, now);
    SameDirs(w.meta, m0, w.ns, now);
    if names == [] {
      assert m1 == m0 by { FillNone(m0, w.ns, d, now); }
    } else {
      FillDirs(m0, w.ns, d, names, now);
      assert [] + names == names;
      assert m1.dirs == m0.dirs[d := Listing(names, now)];
      forall e | e in m1.dirs && e != d ensures AgreesAt(m1, w.ns, e, now) { assert AgreesAt(w.meta, w.ns, e, now); }
      assert Agree(m1, w.ns, now) <==> AgreesAt(m1, w.ns, d, now);
    }
  }

  lemma FillNone(m: Meta, ns: Names, d: string, now: int)
    ensures Fill(m, ns, d, [], now) == m
  {
  }

  lemma SameStats(m: Meta, m1: Meta, ns: Names)
    requires StatsTrue(m, ns) && forall p :: p in m1.stats ==> p in m.stats && m1.stats[p] == m.stats[p]
    ensures StatsTrue(m1, ns)
  {
  }

  lemma ClearsFine(w: World, now: int, force: bool)
    requires Fine(w, now)
    ensures Fine(w.(meta := ClearDir(w.meta, now, force)), now)
    ensures Fine(w.(meta := ClearStat(w.meta, now, force)), now)
  {
    hide Sane, AgreesAt;
    SameDirs(w.meta, ClearDir(w.meta, now, force), w.ns, now);
    SameDirs(w.meta, ClearStat(w.meta, now, force), w.ns, now);
  }

  /** Filling an old listing up leaves it old; filling none makes a fresh one. */
  lemma CacheDirFine(w: World, d: string, names: seq<string>, now: int)
    requires Fine(w, now) && d in w.ns.dirs && Enumerates(names, NamesIn(All(w.ns), d))
    ensures Fine(CacheDir(w, d, names, now), now)
  {
    hide NamesIn, Sane, StatsTrue, Fill, NoRepeats;
    ClearsFine(w, now, false);
    var m0 := ClearDir(w.meta, now, false);
    if !FreshDir(m0, d, now) {
      FillStats(m0, w.ns, d, names, now);
      FillNone(m0, w.ns, d, now);
      if names != [] {
        FillDirs(m0, w.ns, d, names, now);
        assert [] + names == names;
        var m1 := Fill(m0, w.ns, d, names, now);
        forall e | e in m1.dirs ensures AgreesAt(m1, w.ns, e, now) {
          if e != d { assert AgreesAt(m0, w.ns, e, now); }
        }
      }
    }
  }

  /** A listing handed out from the cache is the server's, each name once. */
  lemma OpenDirTrue(w: World, d: string, now: int)
    requires Fine(w, now)
    ensures var (w1, listing) := OpenDir(w, d, now);
      && Fine(w1, now)
      && (listing.Some? ==> d in w.ns.dirs && multiset(listing.value) == multiset(NamesIn(All(w.ns), d)))
  {
    hide NamesIn, Sane, StatsTrue, NoRepeats;
    ClearsFine(w, now, false);
    var m := ClearDir(w.meta, now, false);
    if FreshDir(m, d, now) {
      assert AgreesAt(m, w.ns, d, now);
      EnumeratesIsMultiset(m.dirs[d].entries, NamesIn(All(w.ns), d));
    }
  }

  /** The listing of the file's directory is older than the timeout, was not cleared yet, and lacks the name. */
  predicate Outdated(m: Meta, p: string, now: int)
  {
    DirOf(p) in m.dirs && !FreshDir(m, DirOf(p), now) && NameOf(p) !in m.dirs[DirOf(p)].entries
  }

  /** A listing that denies the name denies an existing file only if it is outdated. */
  lemma DeniedExactly(m: Meta, ns: Names, p: string, now: int)
    requires Agree(m, ns, now) && Sane(ns, m.maxLen) && Proper(p, m.maxLen)
    ensures p in All(ns) ==> (Exists(m, p) == Missing <==> Outdated(m, p, now))
  {
    hide DirOf, NameOf, Normal, NamesIn;
    PathParts(p, m.maxLen);
    Listed(All(ns), p, m.maxLen);
    if DirOf(p) in m.dirs { assert AgreesAt(m, ns, DirOf(p), now); }
  }

  lemma GetAttrFine(w: World, p: string, now: int)
    requires Fine(w, now)
    ensures Fine(GetAttr(w, p, now).0, now)
  {
    hide Sane, AgreesAt, Exists;
    var m1 := ClearStat(w.meta, now, false);
    var m2 := ClearDir(m1, now, false);
    ClearsFine(w, now, false);
    ClearsFine(w.(meta := m1), now, false);
    SameDirs(m2, PutStat(m2, p, p in w.ns.dirs, now), w.ns, now);
  }

  /** While the server answers, the existence and kind reported are right, except that a file is denied
      whose stat is not cached and whose directory has an outdated listing that survived the clearing. */
  lemma GetAttrExact(w: World, p: string, now: int)
    requires Fine(w, now) && w.up && Proper(p, w.meta.maxLen)
    ensures var a := GetAttr(w, p, now).1;
      var m1 := ClearStat(w.meta, now, false);
      && (a == Truth(w.ns, p) <==>
            !(p in All(w.ns) && !FreshStat(m1, p, now) && Outdated(ClearDir(m1, now, false), p, now)))
      && (a != Truth(w.ns, p) ==> a == Absent)
  {
    hide AgreesAt, Exists, Outdated, Proper;
    ClearsFine(w, now, false);
    var m1 := ClearStat(w.meta, now, false);
    ClearsFine(w.(meta := m1), now, false);
    var m2 := ClearDir(m1, now, false);
    DeniedExactly(m2, w.ns, p, now);
    assert w.ns.dirs !! w.ns.files;
  }

  // ---------- the root ----------

  /** No listing has an empty name. */
  predicate Named(m: Meta)
  {
    forall d :: d in m.dirs ==> "" !in m.dirs[d].entries
  }

  lemma AddNamed(m: Meta, p: string, now: int)
    requires Named(m) && Proper(p, m.maxLen)
    ensures Named(AddIfFresh(m, p, now))
  {
    hide Normal, DirOf, NameOf;
    PathParts(p, m.maxLen);
  }

  lemma {:induction false} RemoveFirstKeeps(s: seq<string>, n: string, x: string)
    ensures x in RemoveFirst(s, n) ==> x in s
  {
    if s != [] {
      RemoveFirstKeeps(s[1..], n, x);
      assert s == [s[0]] + s[1..];
    }
  }

  lemma RemoveNamed(m: Meta, p: string)
    requires Named(m)
    ensures Named(RemoveEntry(m, p))
  {
    hide SplitPath;
    match SplitPath(p, m.maxLen, m.maxLen)
    case Parts(d, name) => if d in m.dirs { RemoveFirstKeeps(m.dirs[d].entries, name, ""); }
    case SplitTooLong =>
  }

  lemma FillNamed(m: Meta, ns: Names, d: string, names: seq<string>, now: int)
    requires Named(m) && "" !in names
    ensures Named(Fill(m, ns, d, names, now))
  {
    if names == [] { FillNone(m, ns, d, now); } else { FillDirs(m, ns, d, names, now); }
  }

  lemma NamesValid(ns: Names, d: string, max: nat)
    requires Sane(ns, max)
    ensures "" !in NamesIn(All(ns), d)
  {
    hide Normal, DirOf, NameOf;
    forall q | q in All(ns) && q != "/" ensures NameOf(q) != "" { PathParts(q, max); }
  }

  /** The root has no name in its own listing, so that a listing that is there, fresh or not, denies it:
      it is found if and only if its stat is cached or its listing is not. */
  lemma RootExact(w: World, now: int)
    requires Fine(w, now) && Named(w.meta) && w.up && w.meta.maxLen > 1
    ensures var m1 := ClearStat(w.meta, now, false);
      var a := GetAttr(w, "/", now).1;
      && (a == Found(true) <==> FreshStat(m1, "/", now) || "/" !in ClearDir(m1, now, false).dirs)
      && (a != Found(true) ==> a == Absent)
  {
    hide Normal;
    SplitOfRoot(w.meta.maxLen);
  }
}
