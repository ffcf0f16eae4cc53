/** What the operations on names are for: a plain tree, without a cache, goes through the same names and
    answers the same statuses. */
module Trees {
  import opened Options
  import opened Paths
  import opened MetaModel
  import opened Renaming
  import opened MetaRuns

  /** For every path that exists, whether it is a directory. */
  type Tree = map<string, bool>

  ghost function TreeOf(ns: Names): Tree { map p | p in All(ns) :: p in ns.dirs }

  function Lookup(t: Tree, p: string): Answer { if p in t then Found(t[p]) else Absent }

  lemma TruthIsLookup(ns: Names, p: string)
    ensures Truth(ns, p) == Lookup(TreeOf(ns), p)
  {
  }

  // ---------- the reference ----------

  /** A new name needs a directory to be in. */
  ghost predicate Place(t: Tree, p: string, max: nat)
  {
    Proper(p, max) && p !in t && DirOf(p) in t && t[DirOf(p)]
  }

  ghost function PlainAdd(t: Tree, p: string, isDir: bool, max: nat): (Tree, int)
  {
    if Place(t, p, max) then (t[p := isDir], 0) else (t, -ENOENT)
  }

  function PlainUnlink(t: Tree, p: string): (Tree, int)
  {
    if p in t && !t[p] then (t - {p}, 0) else (t, -ENOENT)
  }

  function PlainDrop(t: Tree, p: string): (Tree, int)
  {
    if p !in t || !t[p] || p == "/" then (t, -ENOENT)
    else if exists q :: q in t && q != "/" && DirOf(q) == p then (t, -ENOTEMPTY)
    else (t - {p}, 0)
  }

  /** Everything at and below `from` is at and below `to`. */
  ghost function Relocated(t: Tree, from: string, to: string): Tree
  {
    map q | q in Images(t, from, to) :: exists r :: r in t && t[r] && Moved(from, to, r) == q
  }

  ghost function Images(t: Tree, from: string, to: string): set<string> { set r | r in t :: Moved(from, to, r) }

  ghost function PlainRename(t: Tree, from: string, to: string, max: nat): (Tree, int)
  {
    if from in t && from != "/" && !Below(from, to) && Place(t, to, max)
       && forall q :: q in t ==> |Moved(from, to, q)| < max
    then (Relocated(t, from, to), 0)
    else (t, -ENOENT)
  }

  /** A file at the new place goes first. If the client was denied it, only another file can take its place. */
  ghost function PlainMove(t: Tree, from: string, to: string, max: nat, denied: bool): (Tree, int)
  {
    if to !in t || t[to] then PlainRename(t, from, to, max)
    else if !denied then PlainRename(t - {to}, from, to, max)
    else if from in t && !t[from] && from != to then (t - {from}, 0)
    else (t, -ENOENT)
  }

  predicate OnNames(e: Event) { e.Creating? || e.Unlinking? || e.MakingDir? || e.DroppingDir? || e.RenamingTo? }

  /** The tree after an event, and its status. While the server is down nothing happens. */
  ghost function PlainOp(t: Tree, up: bool, max: nat, e: Event, denied: bool): (Tree, int)
  {
    if OnNames(e) && !up then (t, -ENOENT)
    else match e
      case Creating(p) => PlainAdd(t, p, false, max)
      case Unlinking(p) => PlainUnlink(t, p)
      case MakingDir(p) => PlainAdd(t, p, true, max)
      case DroppingDir(p) => PlainDrop(t, p)
      case RenamingTo(from, to) => PlainMove(t, from, to, max, denied)
      case _ => (t, 0)
  }

  // ---------- the operations ----------

  ghost function StatusOf(w: World, e: Event, now: int): int
  {
    match e
    case Creating(p) => Create(w, p, now).1
    case Unlinking(p) => Unlink(w, p).1
    case MakingDir(p) => MakeDir(w, p, now).1
    case DroppingDir(p) => DropDir(w, p).1
    case RenamingTo(from, to) => Move(w, from, to, now).1
    case _ => 0
  }

  /** The client is told that the target of a move, a file, does not exist. */
  ghost predicate Denied(w: World, e: Event, now: int)
  {
    e.RenamingTo? && w.up && e.to in w.ns.files && !GetAttr(w, e.to, now).1.Found?
  }

  lemma PlaceIsMayAdd(w: World, p: string)
    requires w.up
    ensures MayAdd(w, p) <==> Place(TreeOf(w.ns), p, w.meta.maxLen)
  {
    hide Proper, DirOf;
  }

  lemma TreeGrows(ns: Names, p: string)
    requires p !in All(ns)
    ensures TreeOf(ns.(files := ns.files + {p})) == TreeOf(ns)[p := false]
    ensures TreeOf(ns.(dirs := ns.dirs + {p})) == TreeOf(ns)[p := true]
  {
  }

  lemma TreeShrinks(ns: Names, p: string)
    requires ns.dirs !! ns.files && p in All(ns)
    ensures var ns1 := if p in ns.files then ns.(files := ns.files - {p}) else ns.(dirs := ns.dirs - {p});
      TreeOf(ns1) == TreeOf(ns) - {p}
  {
  }

  lemma AddRefines(w: World, p: string, now: int)
    requires w.up
    ensures (TreeOf(Create(w, p, now).0.ns), Create(w, p, now).1) == PlainAdd(TreeOf(w.ns), p, false, w.meta.maxLen)
    ensures (TreeOf(MakeDir(w, p, now).0.ns), MakeDir(w, p, now).1) == PlainAdd(TreeOf(w.ns), p, true, w.meta.maxLen)
  {
    hide Proper, DirOf, AddIfFresh, Place, MayAdd, TreeOf;
    PlaceIsMayAdd(w, p);
    if MayAdd(w, p) {
      NotThere(w, p);
      TreeGrows(w.ns, p);
    }
  }

  lemma NotThere(w: World, p: string)
    requires MayAdd(w, p)
    ensures p !in All(w.ns)
  {
  }

  lemma UnlinkRefines(w: World, p: string)
    requires w.up && w.ns.dirs !! w.ns.files
    ensures (TreeOf(Unlink(w, p).0.ns), Unlink(w, p).1) == PlainUnlink(TreeOf(w.ns), p)
  {
    hide RemoveEntry;
    if p in w.ns.files { TreeShrinks(w.ns, p); }
  }

  lemma DropRefines(w: World, p: string)
    requires w.up && w.ns.dirs !! w.ns.files
    ensures (TreeOf(DropDir(w, p).0.ns), DropDir(w, p).1) == PlainDrop(TreeOf(w.ns), p)
  {
    hide DirOf, NameOf, RemoveEntry, NamesIn;
    SomeChild(w.ns, p);
    if p in w.ns.dirs { TreeShrinks(w.ns, p); }
  }

  lemma SomeChild(ns: Names, p: string)
    ensures NamesIn(All(ns), p) != {} <==> exists q :: q in TreeOf(ns) && q != "/" && DirOf(q) == p
  {
    hide DirOf, NameOf;
    if q :| q in TreeOf(ns) && q != "/" && DirOf(q) == p { assert NameOf(q) in NamesIn(All(ns), p); }
    if n :| n in NamesIn(All(ns), p) {
      var q :| q in All(ns) && q != "/" && DirOf(q) == p && NameOf(q) == n;
      assert q in TreeOf(ns);
    }
  }

  lemma RenameRefines(w: World, from: string, to: string, now: int)
    requires w.up && Sane(w.ns, w.meta.maxLen)
    ensures (TreeOf(Rename(w, from, to, now).0.ns), Rename(w, from, to, now).1)
         == PlainRename(TreeOf(w.ns), from, to, w.meta.maxLen)
  {
    hide Proper, DirOf, Below, Moved, RenameMeta, MayAdd, Place;
    PlaceIsMayAdd(w, to);
    var t, ns1 := TreeOf(w.ns), MovedNames(w.ns, from, to);
    assert t.Keys == All(w.ns);
    if MayRename(w, from, to) {
      forall q | q in All(ns1) ensures q in ns1.dirs <==> exists r :: r in t && t[r] && Moved(from, to, r) == q {
      }
      assert TreeOf(ns1) == Relocated(t, from, to);
    }
  }

  lemma MoveRefines(w: World, from: string, to: string, now: int)
    requires w.up && Fine(w, now)
    ensures (TreeOf(Move(w, from, to, now).0.ns), Move(w, from, to, now).1)
         == PlainMove(TreeOf(w.ns), from, to, w.meta.maxLen, Denied(w, RenamingTo(from, to), now))
  {
    hide GetAttr, Unlink, Rename, RenameMeta, PlainRename, Proper, Agree, DirOf;
    var (w1, st) := Vacate(w, to, now);
    VacateFine(w, to, now);
    Vacated(w, from, to, now);
    var t := TreeOf(w.ns);
    if to in w.ns.files {
      if GetAttr(w, to, now).1.Found? {
        assert TreeOf(w1.ns) == t - {to};
        RenameRefines(w1, from, to, now);
      } else if from in w.ns.files && from != to {
        assert TreeOf(w1.ns.(files := w1.ns.files - {from})) == t - {from};
      } else {
        TakenRefused(w1, from, to, now);
      }
    } else if st < 0 {
      FoundTaken(w, to, now);
      PlainTaken(t, from, to, w.meta.maxLen);
    } else {
      RenameRefines(w1, from, to, now);
    }
  }

  lemma TakenRefused(w: World, from: string, to: string, now: int)
    requires to in All(w.ns)
    ensures Rename(w, from, to, now) == (w, -ENOENT)
  {
  }

  lemma FoundTaken(w: World, to: string, now: int)
    requires w.up && Fine(w, now) && Vacate(w, to, now).1 < 0
    ensures to in TreeOf(w.ns) && Vacate(w, to, now).1 == -ENOENT
  {
    hide Agree, Sane, Exists, ClearDir;
  }

  lemma PlainTaken(t: Tree, from: string, to: string, max: nat)
    requires to in t
    ensures PlainRename(t, from, to, max) == (t, -ENOENT)
  {
  }

  lemma DownRefuses(w: World, e: Event, now: int)
    requires !w.up && OnNames(e)
    ensures Step(w, e, now).ns == w.ns && StatusOf(w, e, now) == -ENOENT
  {
    hide GetAttr, Below, Moved;
    if e.RenamingTo? { Asked(w, e.to, now); }
  }

  lemma Disjoint(ns: Names, max: nat)
    requires Sane(ns, max)
    ensures ns.dirs !! ns.files
  {
  }

  /** One event does to the names what it does to the tree, and answers the same. */
  lemma OpRefines(w: World, e: Event, now: int)
    requires Fine(w, now)
    ensures (TreeOf(Step(w, e, now).ns), StatusOf(w, e, now))
         == PlainOp(TreeOf(w.ns), w.up, w.meta.maxLen, e, Denied(w, e, now))
  {
    hide Create, Unlink, MakeDir, DropDir, Move, PlainAdd, PlainUnlink, PlainDrop, PlainMove, Agree, StatsTrue, Sane,
         Denied, Fill;
    if OnNames(e) && !w.up {
      DownRefuses(w, e, now);
    } else {
      match e
      case Creating(p) => AddRefines(w, p, now);
      case MakingDir(p) => AddRefines(w, p, now);
      case Unlinking(p) =>
        Disjoint(w.ns, w.meta.maxLen);
        UnlinkRefines(w, p);
      case DroppingDir(p) =>
        Disjoint(w.ns, w.meta.maxLen);
        DropRefines(w, p);
      case RenamingTo(from, to) => MoveRefines(w, from, to, now);
      case GettingAttr(p) => Asked(w, p, now);
      case _ =>
    }
  }

  /** For a file moved onto another, it does not matter whether the client was told of the other. */
  lemma DenialHarmless(ns: Names, from: string, to: string, max: nat)
    requires Sane(ns, max) && from in ns.files && to in ns.files && from != to
    ensures var t := TreeOf(ns); PlainMove(t, from, to, max, true) == PlainMove(t, from, to, max, false)
  {
    hide Below, DirOf, Moved, Normal;
    var t := TreeOf(ns);
    var t1 := t - {to};
    forall q | q in t ensures !Below(from, q) {
      if Below(from, q) { Ancestor(ns, from, q, max); }
    }
    assert from != "/" && DirOf(to) in t1 && t1[DirOf(to)];
    forall q | q in t1 ensures Moved(from, to, q) == if q == from then to else q { Unmoved(from, to, q); }
    assert PlainRename(t1, from, to, max) == (Relocated(t1, from, to), 0);
    assert Relocated(t1, from, to) == t - {from} by { FileRelocated(t1, from, to); assert t == t1[to := false]; }
  }

  lemma FileRelocated(t: Tree, from: string, to: string)
    requires from in t && !t[from] && to !in t
    requires forall q :: q in t ==> Moved(from, to, q) == if q == from then to else q
    ensures Relocated(t, from, to) == (t - {from})[to := false]
  {
    hide Moved;
    forall q | q in Relocated(t, from, to) ensures q == to || (q in t && q != from) { }
    forall q | q in t && q != from ensures q in Relocated(t, from, to) { assert Moved(from, to, q) == q; }
    assert Moved(from, to, from) == to;
    forall q | q in t && q != from ensures Relocated(t, from, to)[q] == t[q] { assert Moved(from, to, q) == q; }
  }

  // ---------- runs ----------

  function UpAfter(up: bool, e: Event): bool { if e.Reaching? then e.up else up }

  /** The tree after a run, and the statuses answered on the way. */
  ghost function PlainRun(t: Tree, up: bool, max: nat, run: seq<Timed>, denied: seq<bool>): (Tree, seq<int>)
    requires |denied| == |run|
    decreases |run|
  {
    if run == [] then (t, [])
    else
      var (t1, st) := PlainOp(t, up, max, run[0].event, denied[0]);
      var (t2, rest) := PlainRun(t1, UpAfter(up, run[0].event), max, run[1..], denied[1..]);
      (t2, [st] + rest)
  }

  ghost function Statuses(w: World, run: seq<Timed>): seq<int>
    decreases |run|
  {
    if run == [] then []
    else [StatusOf(w, run[0].event, run[0].now)] + Statuses(Step(w, run[0].event, run[0].now), run[1..])
  }

  ghost function Denials(w: World, run: seq<Timed>): (r: seq<bool>)
    ensures |r| == |run|
    decreases |run|
  {
    if run == [] then []
    else [Denied(w, run[0].event, run[0].now)] + Denials(Step(w, run[0].event, run[0].now), run[1..])
  }

  lemma StepUp(w: World, e: Event, now: int)
    ensures Step(w, e, now).up == UpAfter(w.up, e)
  {
    hide GetAttr, Rename, RenameMeta, MayAdd, NamesIn, Fill;
    if e.GettingAttr? { Asked(w, e.p, now); }
    if e.RenamingTo? { MoveUp(w, e.from, e.to, now); }
  }

  lemma MoveUp(w: World, from: string, to: string, now: int)
    ensures Move(w, from, to, now).0.up == w.up
  {
    hide GetAttr, RenameMeta, MayRename;
    Asked(w, to, now);
  }

  /** Any legal run of whatever calls, with the server coming and going, leaves the names of the plain tree
      and answers its statuses; the cache shows only where a move was denied its target. */
  lemma {:induction false} RunRefines(w: World, now: int, run: seq<Timed>)
    requires Fine(w, now) && w.meta.timeout >= 0 && Legal(w, now, run)
    ensures (TreeOf(After(w, run).ns), Statuses(w, run))
         == PlainRun(TreeOf(w.ns), w.up, w.meta.maxLen, run, Denials(w, run))
    decreases |run|
  {
    hide Fine, Allowed, Step, StatusOf, PlainOp, TreeOf, Denied;
    if run != [] {
      var e, at := run[0].event, run[0].now;
      TimePasses(w, now, at);
      OpRefines(w, e, at);
      StepFine(w, e, at);
      StepUp(w, e, at);
      StepKeepsSettings(w, e, at);
      RunRefines(Step(w, e, at), at, run[1..]);
      assert Denials(w, run)[1..] == Denials(Step(w, e, at), run[1..]);
    }
  }
}
