/** Renaming with cached listings: for which renames the cache still agrees with the server. */
module Renaming {
  import opened Paths
  import opened MetaModel

  lemma BelowParent(p: string, q: string, max: nat)
    requires Proper(p, max) && Proper(q, max)
    ensures Below(p, q) <==> DirOf(q) == p || Below(p, DirOf(q))
  {
    hide Normal, LastSlash, DirOf, NameOf;
    PathParts(q, max);
    var d, n := DirOf(q), NameOf(q);
    NotShort(p);
    if d == "/" {
      assert q == "/" + n;
      RootChild(p, q, n);
    } else {
      assert q == d + "/" + n;
      BelowAppend(p, d, n);
    }
  }

  lemma RootChild(p: string, q: string, n: string)
    requires |p| >= 2 && q == "/" + n && ValidName(n)
    ensures !Below(p, q) && "/" != p && !Below(p, "/")
  {
    assert |p| < |q| ==> q[|p|] == n[|p| - 1];
  }

  lemma BelowAppend(p: string, d: string, n: string)
    requires ValidName(n)
    ensures Below(p, d + "/" + n) <==> d == p || Below(p, d)
  {
    var q := d + "/" + n;
    if |p| < |d| {
      assert q[..|p|] == d[..|p|] && q[|p|] == d[|p|];
    } else if |p| == |d| {
      assert q[..|p|] == d && q[|p|] == '/';
    } else if |p| < |q| {
      assert q[|p|] == n[|p| - |d| - 1];
    }
  }

  /** Nothing is below a path that is not a directory. */
  lemma {:induction false} Ancestor(ns: Names, p: string, q: string, max: nat)
    requires Sane(ns, max) && Proper(p, max) && q in All(ns) && Below(p, q)
    ensures p in ns.dirs
    decreases |q|
  {
    hide Normal, DirOf, NameOf, Below;
    assert q != "/" by { NotBelowRoot(p, q, max); }
    BelowParent(p, q, max);
    if DirOf(q) != p {
      ShorterDir(q, max);
      Ancestor(ns, p, DirOf(q), max);
    }
  }

  lemma NotBelowRoot(p: string, q: string, max: nat)
    requires Proper(p, max)
    ensures !Below(p, "/") && (Below(p, q) ==> q != "/")
  {
    NotShort(p);
  }

  lemma ShorterDir(q: string, max: nat)
    requires Proper(q, max)
    ensures |DirOf(q)| < |q|
  {
    hide Normal, LastSlash, DirOf, NameOf;
    PathParts(q, max);
  }

  /** A path below the renamed one keeps its name, and its directory moves with it. */
  lemma {:induction false} MovedChild(from: string, to: string, q: string, max: nat)
    requires Proper(from, max) && Proper(to, max) && Proper(q, max) && Below(from, q)
    ensures var r := Moved(from, to, q);
      Normal(r) && r != "/" && DirOf(r) == Moved(from, to, DirOf(q)) && Below(to, r)
    decreases |q|
  {
    hide Normal, LastSlash, DirOf, NameOf;
    var d, n := DirOf(q), NameOf(q);
    PathParts(q, max);
    BelowParent(from, q, max);
    ShorterDir(q, max);
    var e := Moved(from, to, d);
    if d != from {
      NotBelowRoot(from, d, max);
      MovedChild(from, to, d, max);
    }
    assert d != "/" by { NotBelowRoot(from, d, max); }
    MovedAppend(from, to, d, n);
    ChildParts(e, n);
    BelowAppend(to, e, n);
    ChildNormal(e, n);
  }

  lemma MovedAppend(from: string, to: string, d: string, n: string)
    requires (d == from || Below(from, d)) && Below(from, d + "/" + n)
    ensures Moved(from, to, d + "/" + n) == Moved(from, to, d) + "/" + n
  {
    var q := d + "/" + n;
    assert q != from;
    assert q[|from|..] == d[|from|..] + "/" + n;
    if d == from { assert d[|from|..] == ""; }
  }

  /** What a rename may assume: the new place is free. */
  ghost predicate Free(ns: Names, from: string, to: string, max: nat)
  {
    && Sane(ns, max) && from in All(ns) && from != "/" && Proper(to, max) && to !in All(ns)
    && !Below(from, to) && DirOf(to) in ns.dirs
  }

  lemma FreeBelow(ns: Names, from: string, to: string, q: string, max: nat)
    requires Free(ns, from, to, max) && q in All(ns)
    ensures q != to && !Below(to, q)
  {
    hide Normal, Below, DirOf;
    if Below(to, q) { Ancestor(ns, to, q, max); }
  }

  /** No two paths meet. */
  lemma MovedApart(ns: Names, from: string, to: string, a: string, b: string, max: nat)
    requires Free(ns, from, to, max) && a in All(ns) && b in All(ns) && a != b
    ensures Moved(from, to, a) != Moved(from, to, b)
  {
    hide Normal, DirOf, Sane;
    FreeBelow(ns, from, to, a, max);
    FreeBelow(ns, from, to, b, max);
    MovedBelow(from, to, a);
    MovedBelow(from, to, b);
    if Below(from, a) && Below(from, b) {
      assert a == from + a[|from|..] && b == from + b[|from|..];
      assert Moved(from, to, a)[|to|..] == a[|from|..] && Moved(from, to, b)[|to|..] == b[|from|..];
    }
  }

  lemma MovedBelow(from: string, to: string, q: string)
    ensures Below(from, q) ==> Below(to, Moved(from, to, q))
  {
  }

  /** The renamed path, and only what is below it, moves. */
  lemma Unmoved(from: string, to: string, q: string)
    ensures q != from && !Below(from, q) ==> Moved(from, to, q) == q
    ensures Moved(from, to, from) == to
  {
  }

  lemma MovedParent(ns: Names, from: string, to: string, q: string, max: nat)
    requires Free(ns, from, to, max) && q in All(ns)
    ensures var r := Moved(from, to, q);
      r == "/" || (Normal(r) && r != "/" && DirOf(r) in MovedNames(ns, from, to).dirs)
    ensures q == "/" ==> Moved(from, to, q) == "/"
  {
    hide Normal, DirOf, Below, Moved;
    NotBelowRoot(from, q, max);
    NotBelowRoot(from, "/", max);
    Unmoved(from, to, q);
    if q != "/" {
      BelowParent(from, q, max);
      if q == from {
        BelowParent(from, to, max);
        Unmoved(from, to, DirOf(to));
      } else if Below(from, q) {
        MovedChild(from, to, q, max);
      } else {
        Unmoved(from, to, DirOf(q));
      }
    }
  }

  lemma MovedSane(ns: Names, from: string, to: string, max: nat)
    requires Free(ns, from, to, max) && forall q :: q in All(ns) ==> |Moved(from, to, q)| < max
    ensures Sane(MovedNames(ns, from, to), max)
  {
    hide Normal, DirOf, Below, Moved;
    var ns1 := MovedNames(ns, from, to);
    MovedParent(ns, from, to, "/", max);
    assert "/" in ns1.dirs;
    forall p | p in All(ns1) ensures p == "/" || (Proper(p, max) && DirOf(p) in ns1.dirs) {
      var q :| q in All(ns) && p == Moved(from, to, q);
      MovedParent(ns, from, to, q, max);
    }
    forall p | p in ns1.dirs ensures p !in ns1.files {
      var q :| q in ns.dirs && p == Moved(from, to, q);
      forall r | r in ns.files ensures p != Moved(from, to, r) { MovedApart(ns, from, to, q, r, max); }
    }
  }

  /** Where a path that exists after the rename came from. */
  lemma Origin(ns: Names, from: string, to: string, p: string, max: nat)
    requires Free(ns, from, to, max)
    ensures var a, b := All(ns), All(MovedNames(ns, from, to));
      && (p in a && p != from && !Below(from, p) ==> p in b)
      && (p in b && p != to && !Below(to, p) ==> p in a && p != from && !Below(from, p))
      && (p in a ==> p != to && !Below(to, p))
      && to in b
  {
    hide Normal, DirOf, Below, Moved;
    Unmoved(from, to, p);
    Unmoved(from, to, from);
    if p in All(ns) { FreeBelow(ns, from, to, p, max); }
    if p in All(MovedNames(ns, from, to)) {
      var q :| q in All(ns) && p == Moved(from, to, q);
      Unmoved(from, to, q);
      MovedBelow(from, to, q);
    }
  }

  /** A path in a directory that stays is not below the old or the new place. */
  lemma Stays(ns: Names, from: string, to: string, p: string, max: nat)
    requires Free(ns, from, to, max) && Proper(p, max)
    requires DirOf(p) in ns.dirs && DirOf(p) != from && !Below(from, DirOf(p))
    ensures !Below(to, p) && !Below(from, p)
  {
    hide Normal, DirOf, Below;
    FreeBelow(ns, from, to, DirOf(p), max);
    BelowParent(to, p, max);
    BelowParent(from, p, max);
  }

  /** The names in a directory that stays: `from` is gone and `to` is there. */
  lemma NamesAfter(ns: Names, from: string, to: string, d: string, max: nat)
    requires Free(ns, from, to, max) && d in ns.dirs && d != from && !Below(from, d)
    requires Sane(MovedNames(ns, from, to), max)
    ensures NamesIn(All(MovedNames(ns, from, to)), d) == NamesIn(All(ns) - {from} + {to}, d)
  {
    hide Normal, DirOf, Below, MovedNames, NamesIn, Proper;
    var a, b := All(MovedNames(ns, from, to)), All(ns) - {from} + {to};
    forall p | p in a + b && p != "/" && DirOf(p) == d ensures p in a <==> p in b {
      Stays(ns, from, to, p, max);
      Origin(ns, from, to, p, max);
    }
    NamesSame(a, b, d);
  }

  lemma MayRenameFree(w: World, from: string, to: string)
    requires Sane(w.ns, w.meta.maxLen) && MayRename(w, from, to)
    ensures Free(w.ns, from, to, w.meta.maxLen) && Proper(from, w.meta.maxLen)
    ensures Sane(MovedNames(w.ns, from, to), w.meta.maxLen)
  {
    hide Normal, DirOf, Below, MovedNames;
    MovedSane(w.ns, from, to, w.meta.maxLen);
  }

  /** The names halfway: the renamed path is moved, what is below it is not. */
  function Halfway(ns: Names, from: string, to: string): Names
  {
    Names(ns.dirs - {from} + (if from in ns.dirs then {to} else {}),
          ns.files - {from} + (if from in ns.files then {to} else {}))
  }

  /** The listings of the two directories concerned are patched; the other listings are as before. */
  lemma RenamePatches(m: Meta, ns: Names, from: string, to: string, now: int)
    requires Agree(m, ns, now) && Free(ns, from, to, m.maxLen) && Proper(from, m.maxLen)
    ensures var m1 := RenameMeta(m, from, to, now);
      Agree(m1, Halfway(ns, from, to), now) && m1.timeout == m.timeout && m1.maxLen == m.maxLen
  {
    hide Normal, DirOf, Below, NamesIn, AgreesAt, SplitPath, Proper;
    var m1 := RemoveStat(RemoveStat(m, from), to);
    var m2 := RemoveDir(RemoveDir(m1, from), to);
    SameDirs(m, m2, ns, now);
    var ns1 := Names(ns.dirs - {from}, ns.files - {from});
    RemoveAgrees(m2, ns, ns1, from, now);
    assert All(Halfway(ns, from, to)) == All(ns1) + {to};
    AddAgrees(RemoveEntry(m2, from), ns1, Halfway(ns, from, to), to, now);
  }

  /** Patching entries neither makes nor drops a listing, nor changes its age. */
  predicate SameAges(m: Meta, m1: Meta)
  {
    && m1.dirs.Keys == m.dirs.Keys && m1.stats == m.stats && m1.timeout == m.timeout && m1.maxLen == m.maxLen
    && forall d :: d in m.dirs ==> m1.dirs[d].timestamp == m.dirs[d].timestamp
  }

  lemma PatchAges(m: Meta, p: string, now: int)
    ensures SameAges(m, RemoveEntry(m, p)) && SameAges(m, AddIfFresh(m, p, now))
  {
  }

  /** Which listings are left, and how old they are. */
  lemma RenameKeeps(m: Meta, from: string, to: string, now: int, d: string)
    ensures var m1 := RenameMeta(m, from, to, now);
      && (d in m1.dirs <==> d in m.dirs && d != from && d != to)
      && (d in m1.dirs ==> m1.dirs[d].timestamp == m.dirs[d].timestamp)
      && m1.stats == m.stats - {from} - {to} && m1.timeout == m.timeout && m1.maxLen == m.maxLen
  {
    hide AddIfFresh, RemoveEntry;
    var m1 := RemoveStat(RemoveStat(m, from), to);
    var m2 := RemoveDir(RemoveDir(m1, from), to);
    PatchAges(m2, from, now);
    PatchAges(RemoveEntry(m2, from), to, now);
  }

  /** No fresh listing and no stat of anything below `from` is cached. */
  ghost predicate NothingBelow(m: Meta, from: string, now: int)
  {
    && (forall d :: d in m.dirs && FreshDir(m, d, now) ==> !Below(from, d))
    && (forall p :: p in m.stats ==> !Below(from, p))
  }

  lemma AgreesAfter(w: World, from: string, to: string, now: int, d: string)
    requires Fine(w, now) && MayRename(w, from, to)
    ensures var m1 := RenameMeta(w.meta, from, to, now);
      d in m1.dirs && FreshDir(m1, d, now) ==>
        (AgreesAt(m1, MovedNames(w.ns, from, to), d, now) <==> !Below(from, d))
  {
    hide Normal, DirOf, Below, NamesIn, MovedNames, RenameMeta, Enumerates, Proper;
    var max, m1, ns1 := w.meta.maxLen, RenameMeta(w.meta, from, to, now), MovedNames(w.ns, from, to);
    MayRenameFree(w, from, to);
    RenameKeeps(w.meta, from, to, now, d);
    if d in m1.dirs && FreshDir(m1, d, now) {
      assert AgreesAt(w.meta, w.ns, d, now);
      RenamePatches(w.meta, w.ns, from, to, now);
      assert AgreesAt(m1, Halfway(w.ns, from, to), d, now);
      Origin(w.ns, from, to, d, max);
      StillDir(w.ns, from, to, d, max);
      if !Below(from, d) {
        NamesAfter(w.ns, from, to, d, max);
        assert All(Halfway(w.ns, from, to)) == All(w.ns) - {from} + {to};
      }
    }
  }

  lemma StillDir(ns: Names, from: string, to: string, d: string, max: nat)
    requires Free(ns, from, to, max) && d in ns.dirs && d != from && d != to
    ensures d in MovedNames(ns, from, to).dirs <==> !Below(from, d)
  {
    hide Normal, DirOf, Below, Moved, Sane;
    Unmoved(from, to, d);
    Origin(ns, from, to, d, max);
  }

  lemma StatAfter(w: World, from: string, to: string, p: string)
    requires Sane(w.ns, w.meta.maxLen) && MayRename(w, from, to) && p in All(w.ns) && p != from
    ensures p in All(MovedNames(w.ns, from, to)) <==> !Below(from, p)
    ensures !Below(from, p) ==> (p in MovedNames(w.ns, from, to).dirs <==> p in w.ns.dirs)
  {
    hide Normal, DirOf, Below, Moved, Proper;
    MayRenameFree(w, from, to);
    Unmoved(from, to, p);
    Origin(w.ns, from, to, p, w.meta.maxLen);
    if !Below(from, p) && p in w.ns.files { assert p in MovedNames(w.ns, from, to).files; }
  }

  /** A rename keeps the agreement if and only if nothing below the old path is cached. */
  lemma RenameExact(w: World, from: string, to: string, now: int)
    requires Fine(w, now) && MayRename(w, from, to)
    ensures Fine(Rename(w, from, to, now).0, now) <==> NothingBelow(w.meta, from, now)
  {
    hide Normal, DirOf, Below, NamesIn, MovedNames, RenameMeta, AgreesAt, Proper, MayRename;
    var w1 := Rename(w, from, to, now).0;
    var m, m1, ns1 := w.meta, w1.meta, w1.ns;
    MayRenameFree(w, from, to);
    FromGone(w, from, to);
    forall d ensures (d in m1.dirs ==> (AgreesAt(m1, ns1, d, now) <==> !FreshDir(m, d, now) || !Below(from, d)))
      ensures d in m1.dirs <==> d in m.dirs && d != from && d != to
    {
      RenameKeeps(m, from, to, now, d);
      AgreesAfter(w, from, to, now, d);
      NotFreshAgrees(m1, ns1, d, now);
    }
    forall p | p in m1.stats
      ensures (p in All(ns1) && (m1.stats[p].isDir <==> p in ns1.dirs)) <==> !Below(from, p)
    {
      RenameKeeps(m, from, to, now, "");
      StatAfter(w, from, to, p);
    }
    RenameKeeps(m, from, to, now, "");
    assert Agree(m1, ns1, now) <==> forall d :: d in m.dirs && FreshDir(m, d, now) ==> !Below(from, d);
    assert StatsTrue(m1, ns1) <==> forall p :: p in m.stats ==> !Below(from, p);
  }

  lemma NotFreshAgrees(m: Meta, ns: Names, d: string, now: int)
    ensures !FreshDir(m, d, now) ==> AgreesAt(m, ns, d, now)
  {
  }

  lemma FromGone(w: World, from: string, to: string)
    requires MayRename(w, from, to)
    ensures !Below(from, from) && !Below(from, to) && to !in All(w.ns)
  {
  }

  /** The rename of a file always keeps it. */
  lemma RenameFileFine(w: World, from: string, to: string, now: int)
    requires Fine(w, now) && from in w.ns.files
    ensures Fine(Rename(w, from, to, now).0, now)
  {
    hide Normal, DirOf, Below, NamesIn, Rename, Proper;
    if MayRename(w, from, to) {
      MayRenameFree(w, from, to);
      forall q | q in All(w.ns) ensures !Below(from, q) {
        if Below(from, q) { Ancestor(w.ns, from, q, w.meta.maxLen); }
      }
      assert forall d :: d in w.meta.dirs ==> AgreesAt(w.meta, w.ns, d, now);
      RenameExact(w, from, to, now);
    } else {
      Refused(w, from, to, now);
    }
  }

  lemma Refused(w: World, from: string, to: string, now: int)
    requires !MayRename(w, from, to)
    ensures Rename(w, from, to, now).0 == w
  {
  }

  // ---------- a rename onto an existing file ----------

  /** The outcome where the server, asked by force, puts one file in the place of another. */
  function RenameOver(w: World, from: string, to: string, now: int): World
  {
    World(w.ns.(files := w.ns.files - {from}), w.up, RenameMeta(w.meta, from, to, now))
  }

  /** The name that was listed already is listed again: the agreement survives if and only if the
      directory's listing is not fresh. */
  lemma RenameOverExact(w: World, from: string, to: string, now: int)
    requires Fine(w, now) && from in w.ns.files && to in w.ns.files && from != to
    ensures Fine(RenameOver(w, from, to, now), now) <==> !FreshDir(w.meta, DirOf(to), now)
  {
    hide Normal, DirOf, NameOf, NamesIn, SplitPath, RemoveEntry, AddIfFresh, AgreesAt, Proper;
    var m, ns1 := w.meta, w.ns.(files := w.ns.files - {from});
    var m1 := RemoveStat(RemoveStat(m, from), to);
    var m2 := RemoveDir(RemoveDir(m1, from), to);
    SameDirs(m, m2, w.ns, now);
    assert All(ns1) == All(w.ns) - {from};
    assert Proper(from, m.maxLen) && from != "/" by { FileProper(w.ns, from, m.maxLen); }
    RemoveAgrees(m2, w.ns, ns1, from, now);
    var m3 := RemoveEntry(m2, from);
    PatchAges(m2, from, now);
    PatchAges(m3, to, now);
    FileProper(w.ns, to, m.maxLen);
    ListedTwice(m3, ns1, to, now);
    assert FreshDir(m3, DirOf(to), now) <==> FreshDir(m, DirOf(to), now);
  }

  lemma FileProper(ns: Names, p: string, max: nat)
    requires Sane(ns, max) && p in ns.files
    ensures Proper(p, max) && p != "/" && DirOf(p) in ns.dirs
  {
  }

  lemma ListedTwice(m: Meta, ns: Names, p: string, now: int)
    requires Agree(m, ns, now) && AllProper(All(ns), m.maxLen) && Proper(p, m.maxLen) && p in All(ns)
    ensures Agree(AddIfFresh(m, p, now), ns, now) <==> !FreshDir(m, DirOf(p), now)
  {
    hide Normal, DirOf, NameOf, NamesIn;
    PathParts(p, m.maxLen);
    Listed(All(ns), p, m.maxLen);
    var d, m1 := DirOf(p), AddIfFresh(m, p, now);
    if FreshDir(m, d, now) {
      assert AgreesAt(m, ns, d, now);
      var es := m.dirs[d].entries;
      var i :| 0 <= i < |es| && es[i] == NameOf(p);
      assert m1.dirs[d].entries[i] == m1.dirs[d].entries[|es|];
      assert !AgreesAt(m1, ns, d, now);
    }
  }

  // ---------- renaming as the client asks for it ----------

  /** iFuseFsRename, sent with the force flag: the server moves to a free place, or puts a file in the
      place of another file. */
  ghost function ForceRename(w: World, from: string, to: string, now: int): (World, int)
  {
    if w.up && from in w.ns.files && to in w.ns.files && from != to then (RenameOver(w, from, to, now), 0)
    else Rename(w, from, to, now)
  }

  /** iFuseRename, first part: the target is asked for, and unlinked if it is found. */
  ghost function Vacate(w: World, to: string, now: int): (World, int)
  {
    var (w1, a) := GetAttr(w, to, now);
    if a.Found? then Unlink(w1, to) else (w1, 0)
  }

  /** iFuseRename. */
  ghost function Move(w: World, from: string, to: string, now: int): (World, int)
  {
    var (w1, st) := Vacate(w, to, now);
    if st < 0 then (w1, st) else ForceRename(w1, from, to, now)
  }

  /** A directory is moved: its new place is free, or taken by a file that is found and unlinked. */
  ghost predicate MovesDir(w: World, from: string, to: string, now: int)
  {
    && from in w.ns.dirs && MayRename(w.(ns := w.ns.(files := w.ns.files - {to})), from, to)
    && (to in w.ns.files ==> GetAttr(w, to, now).1.Found?)
  }

  /** Nothing below the directory moved is cached once old stats are dropped. */
  ghost predicate SafeMove(w: World, from: string, to: string, now: int)
  {
    MovesDir(w, from, to, now) ==> NothingBelow(ClearStat(w.meta, now, false), from, now)
  }

  lemma VacateFine(w: World, to: string, now: int)
    requires Fine(w, now)
    ensures Fine(Vacate(w, to, now).0, now)
  {
    hide Fine, GetAttr, Unlink;
    GetAttrFine(w, to, now);
    UnlinkFine(GetAttr(w, to, now).0, to, now);
  }

  /** Asking changes neither names nor server; it may drop old entries and adds the stat of the target. */
  lemma Asked(w: World, to: string, now: int)
    ensures var w1 := GetAttr(w, to, now).0; var m1 := ClearStat(w.meta, now, false);
      && w1.ns == w.ns && w1.up == w.up && w1.meta.timeout == w.meta.timeout && w1.meta.maxLen == w.meta.maxLen
      && (forall p :: p != to ==> (p in w1.meta.stats <==> p in m1.stats))
      && (forall d :: d in w1.meta.dirs ==> d in w.meta.dirs && w1.meta.dirs[d] == w.meta.dirs[d])
      && (forall d :: FreshDir(w.meta, d, now) ==> d in w1.meta.dirs)
  {
    hide Exists;
  }

  lemma Unlinked(w: World, to: string)
    ensures var w1 := Unlink(w, to).0;
      && w1.up == w.up && w1.meta.timeout == w.meta.timeout && w1.meta.maxLen == w.meta.maxLen
      && w1.meta.dirs.Keys == w.meta.dirs.Keys
      && (forall d :: d in w.meta.dirs ==> w1.meta.dirs[d].timestamp == w.meta.dirs[d].timestamp)
      && (forall p :: p != to ==> (p in w1.meta.stats <==> p in w.meta.stats))
  {
    hide SplitPath, RemoveFirst;
  }

  /** What the rename meets: the target's file is gone if it was found. */
  lemma Vacated(w: World, from: string, to: string, now: int)
    requires Fine(w, now)
    ensures var (w1, st) := Vacate(w, to, now);
      && w1.up == w.up && w1.meta.maxLen == w.meta.maxLen
      && w1.ns == (if w.up && to in w.ns.files && GetAttr(w, to, now).1.Found?
                   then w.ns.(files := w.ns.files - {to}) else w.ns)
      && (st < 0 ==> w1.ns == w.ns && (!w.up || to !in w.ns.files))
      && (st >= 0 && to in w.ns.files && to in w1.ns.files ==> !GetAttr(w, to, now).1.Found?)
      && (!Below(from, to) ==>
            (NothingBelow(w1.meta, from, now) <==> NothingBelow(ClearStat(w.meta, now, false), from, now)))
  {
    hide GetAttr, Below, ClearStat, RemoveEntry;
    var w1 := GetAttr(w, to, now).0;
    Asked(w, to, now);
    Unlinked(w1, to);
    StatsOnly(w.meta, now);
  }

  lemma StatsOnly(m: Meta, now: int)
    ensures ClearStat(m, now, false).dirs == m.dirs && ClearStat(m, now, false).timeout == m.timeout
  {
  }

  /** A target that exists but was not found is in a directory whose listing is not fresh. */
  lemma DeniedTarget(w: World, to: string, now: int)
    requires Fine(w, now) && w.up && to in w.ns.files && !GetAttr(w, to, now).1.Found?
    ensures !FreshDir(GetAttr(w, to, now).0.meta, DirOf(to), now)
  {
    hide DirOf, NameOf, Exists, Proper, Agree, StatsTrue;
    FileProper(w.ns, to, w.meta.maxLen);
    GetAttrExact(w, to, now);
    assert w.ns.dirs !! w.ns.files;
  }

  /** Moving a file keeps the agreement, whatever the target is. */
  lemma MoveFileFine(w: World, from: string, to: string, now: int)
    requires Fine(w, now) && from !in w.ns.dirs
    ensures Fine(Move(w, from, to, now).0, now)
  {
    hide Fine, GetAttr, Rename, RenameOver, Unlink, DirOf;
    var (w1, st) := Vacate(w, to, now);
    VacateFine(w, to, now);
    Vacated(w, from, to, now);
    if st >= 0 {
      if w1.up && from in w1.ns.files && to in w1.ns.files && from != to {
        DeniedTarget(w, to, now);
        RenameOverExact(w1, from, to, now);
      } else if from in w1.ns.files {
        RenameFileFine(w1, from, to, now);
      } else {
        Refused(w1, from, to, now);
      }
    }
  }

  lemma FoundIsThere(w: World, to: string, now: int)
    requires Fine(w, now) && w.up && Proper(to, w.meta.maxLen) && Vacate(w, to, now).1 < 0
    ensures to in All(w.ns)
  {
    hide GetAttr, Proper, Agree, StatsTrue, Outdated;
    GetAttrExact(w, to, now);
  }

  lemma MovesIf(w: World, from: string, to: string, now: int)
    requires Fine(w, now) && from in w.ns.dirs
    ensures var (w1, st) := Vacate(w, to, now);
      && from in w1.ns.dirs && from !in w1.ns.files
      && (MovesDir(w, from, to, now) <==> st >= 0 && MayRename(w1, from, to))
  {
    hide GetAttr, DirOf, Below, Proper, Moved, Unlink, Agree, StatsTrue;
    var (w1, st) := Vacate(w, to, now);
    Vacated(w, from, to, now);
    if to !in w.ns.files { assert w.ns.files - {to} == w.ns.files; }
    if st < 0 && w.up && Proper(to, w.meta.maxLen) { FoundIsThere(w, to, now); }
  }

  /** Moving anything keeps the agreement if and only if it is a file, or the move is refused, or nothing
      below the old path is cached. */
  lemma MoveExact(w: World, from: string, to: string, now: int)
    requires Fine(w, now)
    ensures Fine(Move(w, from, to, now).0, now) <==> SafeMove(w, from, to, now)
  {
    hide Fine, GetAttr, Rename, MayRename, Vacate, NothingBelow, ClearStat;
    if from !in w.ns.dirs {
      MoveFileFine(w, from, to, now);
    } else {
      var (w1, st) := Vacate(w, to, now);
      VacateFine(w, to, now);
      Vacated(w, from, to, now);
      MovesIf(w, from, to, now);
      if st >= 0 && MayRename(w1, from, to) {
        FromGone(w1, from, to);
        RenameExact(w1, from, to, now);
      } else if st >= 0 {
        Refused(w1, from, to, now);
      }
    }
  }
}
