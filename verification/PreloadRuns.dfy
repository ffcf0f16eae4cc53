/** Whole runs of a client over the prefetching layer, with workers at work between the calls. */
module PreloadRuns {
  import opened Bytes
  import opened Blocks
  import opened BufferModel
  import opened BufferRuns
  import opened Buffered
  import opened Prefetch
  import opened PrefetchPlan
  import opened Preloading

  /** A call of the client, or a worker that runs between two calls. */
  datatype Event = Calls(call: Call) | WorkerRuns(fd: nat, id: nat)

  /** The reference: plain files, and for each descriptor the blocks that are held for it. */
  datatype Watched = Watched(plain: Plain, held: map<nat, Held>)

  ghost predicate May(bs: nat, ps: Watched, e: Event)
    requires bs > 0
  {
    ps.held.Keys == ps.plain.open.Keys && (e.Calls? ==> Allowed(bs, ps.plain, e.call))
  }

  /** The same files and open descriptors; the workers may have used numbers up. */
  predicate UpTo(p: Plain, p1: Plain)
  {
    p1.files == p.files && p1.open == p.open && p1.nextFd >= p.nextFd
  }

  /** A worker that has not finished yet does. */
  ghost function Worked(held: map<nat, Held>, f: nat, id: nat, th: Threads): map<nat, Held>
  {
    if f in held then held[f := Waited(held[f], id, th.works(id, id))] else held
  }

  /** What happens and what is answered: what plain files do and answer, except that a read ends before the
      first block that is neither held nor started, unless a worker before it failed. */
  ghost predicate Next(bs: nat, n: nat, ps: Watched, e: Event, th: Threads, ps1: Watched, r: Reply)
    requires bs > 0 && May(bs, ps, e)
  {
    match e
    case WorkerRuns(f, id) => UpTo(ps.plain, ps1.plain) && ps1.held == Worked(ps.held, f, id, th)
    case Calls(c) =>
      var (p1, whole) := PlainStep(bs, ps.plain, c);
      UpTo(p1, ps1.plain) && match c
        case ReadAt(f, off, size) =>
          var file := ps.plain.files[ps.plain.open[f].path];
          var reach := Walk(bs, n, file, ps.held[f], off, size, th);
          ps1.held == ps.held[f := reach.held] && r == Bytes(Data(Slice(file, off, reach.got)))
        case OpenFile(p, readable, _) =>
          var first := if readable then First(n, th) else map[];
          r == whole && ps1.held == if p in ps.plain.files then ps.held[ps.plain.nextFd := first] else ps.held
        case CloseFd(f) => r == whole && ps1.held == ps.held - {f}
        case _ => r == whole && ps1.held == ps.held
  }

  /** A read is answered as plain files answer it if and only if every block with bytes of the answer was
      held when the read began, or its thread started in time, or a block before it was found to have failed. */
  lemma ReadWhole(bs: nat, n: nat, ps: Watched, f: nat, off: nat, size: nat, th: Threads, ps1: Watched, r: Reply)
    requires bs > 0 && May(bs, ps, Calls(ReadAt(f, off, size))) && (size > 0 ==> (off + size - 1) / bs + n < BLOCK_IDS)
    requires Next(bs, n, ps, Calls(ReadAt(f, off, size)), th, ps1, r)
    ensures r == PlainStep(bs, ps.plain, ReadAt(f, off, size)).1 <==>
      Whole(bs, n, ps.plain.files[ps.plain.open[f].path], ps.held[f], off, size, th)
  {
    hide Walk, Slice, Whole, ReadSafe;
    WalkExact(bs, n, ps.plain.files[ps.plain.open[f].path], ps.held[f], off, size, th);
  }

  /** A file of one byte, opened without any of its threads starting, */
  function OneByte(): Watched
  {
    Watched(Plain(map["f" := [7]], map[0 := Desc("f", false)], 1), map[0 := map[]])
  }

  function NoThreads(): Threads { Threads((_, _) => false, (_, _) => true) }

  /** reads as empty while no thread starts. */
  lemma ReadsAsEmpty(ps1: Watched, r: Reply)
    requires Next(4, 1, OneByte(), Calls(ReadAt(0, 0, 1)), NoThreads(), ps1, r)
    ensures First(1, NoThreads()) == map[] && r == Bytes(Data([]))
    ensures PlainStep(4, OneByte().plain, ReadAt(0, 0, 1)).1 == Bytes(Data([7]))
  {
    hide Walk, BlockId;
    assert OneByte().plain.open[0] == Desc("f", false) && OneByte().plain.files["f"] == [7];
    assert Slice([7], 0, 1) == [7];
    WalkRound(4, 1, [7], map[], 0, 1, NoThreads());
  }

  // ---------- what the client sees of a state ----------

  ghost function Clients(lists: map<nat, PList>, open: map<nat, Desc>): map<nat, Desc>
  {
    map k | k in lists && k in open :: open[k]
  }

  ghost function HeldLists(lists: map<nat, PList>): map<nat, Held> { map k | k in lists :: HeldOf(lists[k].blocks) }

  ghost function Seen(s: State, lists: map<nat, PList>): Watched
  {
    Watched(Plain(BufferRuns.Abs(s).files, Clients(lists, s.open), s.nextFd), HeldLists(lists))
  }

  lemma OthersKept(lists: map<nat, PList>, s: State, lists1: map<nat, PList>, s1: State, n: nat, key: nat)
    requires Fine(lists, Slots(s), n) && key in lists && lists1.Keys == lists.Keys && key in lists1
    requires Others(s1.open, lists1[key].blocks) == Others(s.open, lists[key].blocks)
    ensures Clients(lists1, s1.open) == Clients(lists, s.open)
  {
    hide Linear, DistinctIds, WellFormed, Slots;
    SlotsOpen(s);
    forall k | k in lists ensures k in s.open && k in s1.open && s1.open[k] == s.open[k] {
      assert ListFine(k, lists[k], Slots(s), n);
      assert k in Others(s.open, lists[key].blocks);
    }
  }

  lemma FilesKept(s: State, s1: State)
    requires s1.files == s.files && s1.delta == s.delta
    ensures BufferRuns.Abs(s1).files == BufferRuns.Abs(s).files
  {
  }

  lemma ClientsOpen(lists: map<nat, PList>, s: State, n: nat)
    requires Fine(lists, Slots(s), n)
    ensures Clients(lists, s.open).Keys == lists.Keys && lists.Keys <= s.open.Keys
  {
    hide Slots;
    SlotsOpen(s);
    forall k | k in lists ensures k in s.open { assert ListFine(k, lists[k], Slots(s), n); }
  }

  lemma ClientsAdded(lists: map<nat, PList>, s: State, lists1: map<nat, PList>, open1: map<nat, Desc>, n: nat, fd: nat,
                     d: Desc)
    requires Fine(lists, Slots(s), n) && lists1.Keys == lists.Keys + {fd}
    requires Others(open1, lists1[fd].blocks) == s.open[fd := d]
    ensures Clients(lists1, open1) == Clients(lists, s.open)[fd := d]
  {
    hide Fine;
    ClientsOpen(lists, s, n);
    forall k | k in s.open[fd := d] ensures k in open1 && open1[k] == s.open[fd := d][k] {
      assert k in Others(open1, lists1[fd].blocks);
    }
  }

  lemma ClientsRemoved(lists: map<nat, PList>, s: State, open1: map<nat, Desc>, n: nat, key: nat)
    requires Fine(lists, Slots(s), n) && key in lists && open1 == Others(s.open, lists[key].blocks) - {key}
    ensures Clients(lists - {key}, open1) == Clients(lists, s.open) - {key}
  {
    hide Linear, DistinctIds, WellFormed, Slots;
    ClientsOpen(lists, s, n);
  }

  /** Calls that go straight to the block cache. */
  predicate Direct(c: Call) { c.CreateFile? || c.WriteAt? || c.FlushFd? || c.SizeOf? }

  lemma DirectSeen(s: State, lists: map<nat, PList>, c: Call, n: nat, th: Threads)
    requires Coherent(s) && s.up && s.bs > 0 && Fine(lists, Slots(s), n) && Direct(c)
    requires May(s.bs, Seen(s, lists), Calls(c))
    ensures Shaped(s) && Allowed(s.bs, BufferRuns.Abs(s), c)
    ensures var (s1, r) := Step(s, c);
      && Coherent(s1) && s1.up && s1.bs == s.bs
      && Next(s.bs, n, Seen(s, lists), Calls(c), th, Seen(s1, lists), r)
  {
    hide Coherent, View, Fine, HeldOf, Write, Flush;
    CoherentIsShaped(s);
    StepRefines(s, c);
  }

  lemma OpenSeen(s: State, lists: map<nat, PList>, s1: State, lists1: map<nat, PList>, p: Path, rd: bool, w: bool,
                 fd: int, n: nat, th: Threads)
    requires Coherent(s) && s.up && s.bs > 0 && Fine(lists, Slots(s), n)
    requires May(s.bs, Seen(s, lists), Calls(OpenFile(p, rd, w)))
    requires Opened(s, s1, p, w, fd, lists1) && lists1.Keys == lists.Keys + (if fd < 0 then {} else {fd})
    requires HeldLists(lists1) == if fd < 0 then HeldLists(lists)
                                  else HeldLists(lists)[fd := if rd then First(n, th) else map[]]
    ensures Coherent(s1) && s1.up && s1.bs == s.bs
    ensures Next(s.bs, n, Seen(s, lists), Calls(OpenFile(p, rd, w)), th, Seen(s1, lists1), Status(fd))
  {
    hide Coherent, Shaped, View, Fine, Others, Clients, HeldLists, First;
    CoherentIsShaped(s);
    OpenOpen(s, p, w);
    if p in s.files { OpenView(s, p, w); }
    FilesKept(s, s1);
    ClientsOpen(lists, s, n);
    if fd >= 0 {
      ClientsAdded(lists, s, lists1, s1.open, n, fd, Desc(p, w));
    } else {
      assert lists1.Keys == lists.Keys;
      ClientsByKeys(lists, lists1, s.open);
    }
  }

  lemma ListsAdded(lists: map<nat, PList>, lists1: map<nat, PList>, fd: int)
    requires lists1.Keys == lists.Keys + (if fd < 0 then {} else {fd})
    requires forall k :: k in lists && k != fd ==> lists1[k] == lists[k]
    ensures HeldLists(lists1) == if fd < 0 then HeldLists(lists)
                                 else HeldLists(lists)[fd := HeldOf(lists1[fd].blocks)]
  {
    hide HeldOf;
  }

  lemma ClientsByKeys(lists: map<nat, PList>, lists1: map<nat, PList>, open: map<nat, Desc>)
    requires lists1.Keys == lists.Keys
    ensures Clients(lists1, open) == Clients(lists, open)
  {
  }

  lemma CloseSeen(s: State, lists: map<nat, PList>, s1: State, key: nat, st: int, n: nat, th: Threads)
    requires Coherent(s) && s.up && s.bs > 0 && Fine(lists, Slots(s), n) && key in lists
    requires May(s.bs, Seen(s, lists), Calls(CloseFd(key)))
    requires Closed(s, s1, key, lists, st)
    ensures st == 0 && Coherent(s1) && s1.up && s1.bs == s.bs
    ensures Next(s.bs, n, Seen(s, lists), Calls(CloseFd(key)), th, Seen(s1, lists - {key}), Status(st))
  {
    hide Coherent, View, Fine, Others, Clients, HeldOf, BufferModel.Close;
    CloseView(s, key);
    var s0 := BufferModel.Close(s, key).0;
    FilesKept(s0, s1);
    assert BufferRuns.Abs(s0).files == BufferRuns.Abs(s).files;
    ClientsRemoved(lists, s, s1.open, n, key);
  }

  /** Reading, or a worker at work, leaves what a client sees, but for the blocks held for one descriptor. */
  lemma ReadSeen(s: State, lists: map<nat, PList>, s1: State, lists1: map<nat, PList>, n: nat, key: nat)
    requires Fine(lists, Slots(s), n) && key in lists && Quiet(s, s1)
    requires key in lists1 && lists1 == lists[key := lists1[key]]
    requires Others(s1.open, lists1[key].blocks) == Others(s.open, lists[key].blocks)
    ensures UpTo(Seen(s, lists).plain, Seen(s1, lists1).plain) && s1.up == s.up && s1.bs == s.bs
    ensures Seen(s1, lists1).held == Seen(s, lists).held[key := HeldOf(lists1[key].blocks)]
    ensures Coherent(s) ==> Coherent(s1)
  {
    hide Coherent, Fine, Others, Clients, View, HeldOf;
    OthersKept(lists, s, lists1, s1, n, key);
    FilesKept(s, s1);
  }

  lemma SafeLess(bs: nat, view: seq<Byte>, off: nat, size: nat, got: nat)
    requires bs > 0 && ReadSafe(bs, view, off, size) && got <= size
    ensures ReadSafe(bs, view, off, got)
  {
  }

  lemma ReadAnswer(rq: Request, w1: Held, k: int, wrapped: bool, after: seq<Byte>)
    requires rq.bs > 0 && rq.up && |rq.before| == rq.size && ReadSafe(rq.bs, rq.view, rq.off, rq.size)
    requires ReadResult(rq, w1, k, wrapped, after)
    ensures var reach := Walk(rq.bs, rq.n, rq.view, rq.held, rq.off, rq.size, rq.th);
      w1 == reach.held && 0 <= k <= rq.size == |after| && after[..k] == Slice(rq.view, rq.off, reach.got)
  {
    hide ReadSafe, Walk;
    WalkEnds(rq.bs, rq.n, rq.view, rq.held, rq.off, rq.size, rq.th);
    SafeLess(rq.bs, rq.view, rq.off, rq.size, Walk(rq.bs, rq.n, rq.view, rq.held, rq.off, rq.size, rq.th).got);
  }

  // ---------- the calls ----------

  ghost predicate Ready(fs: PreloadFs)
    reads fs, fs.bfs, fs.bfs.Repr, fs.preloadMap.Values
  {
    fs.Valid() && Coherent(fs.bfs.Abs()) && fs.bfs.Abs().up
  }

  ghost function Sight(fs: PreloadFs): Watched
    requires Ready(fs)
    reads fs, fs.bfs, fs.bfs.Repr, fs.preloadMap.Values
  {
    Seen(fs.bfs.Abs(), fs.Lists())
  }

  lemma SightFacts(fs: PreloadFs)
    requires Ready(fs)
    ensures fs.bfs.Abs().bs == fs.bfs.table.blocksize > 0
    ensures Sight(fs).plain.open.Keys == fs.preloadMap.Keys && Sight(fs).held.Keys == fs.preloadMap.Keys
    ensures forall k :: k in fs.preloadMap ==>
      k in fs.bfs.Abs().open && fs.bfs.Abs().open[k] == Sight(fs).plain.open[k]
      && fs.bfs.Abs().open[k].path == fs.preloadMap[k].path && fs.preloadMap[k].path in Sight(fs).plain.files
      && Sight(fs).plain.files[fs.preloadMap[k].path] == View(fs.bfs.Abs(), fs.preloadMap[k].path)
      && Sight(fs).held[k] == HeldOf(fs.preloadMap[k].pblocks)
  {
    hide View, Linear, DistinctIds, WellFormed, Others, HeldOf, Slots;
    var s, lists := fs.bfs.Abs(), fs.Lists();
    SlotsOpen(s);
    CoherentIsShaped(s);
    ClientsOpen(lists, s, fs.numBlocks);
    forall k | k in lists ensures k in s.open && s.open[k].path == lists[k].path && s.open[k].path in s.files {
      assert ListFine(k, lists[k], Slots(s), fs.numBlocks);
      ShapedOpen(s, k);
    }
  }

  lemma ShapedOpen(s: State, f: nat)
    requires Shaped(s) && f in s.open
    ensures s.open[f].path in s.files
  {
  }

  method ReadCall(fs: PreloadFs, f: nat, off: nat, size: nat, th: Threads) returns (r: Reply)
    requires Ready(fs) && fs.bfs.Abs().bs > 0 && May(fs.bfs.Abs().bs, Sight(fs), Calls(ReadAt(f, off, size)))
    modifies fs.bfs.Repr, fs.preloadMap.Values
    ensures fs.preloadMap == old(fs.preloadMap)
    ensures Ready(fs) && fresh(fs.bfs.Repr - old(fs.bfs.Repr)) && fs.bfs.Abs().bs == old(fs.bfs.Abs().bs)
    ensures Next(old(fs.bfs.Abs().bs), fs.numBlocks, old(Sight(fs)), Calls(ReadAt(f, off, size)), th, Sight(fs), r)
  {
    hide BufferedFs.Wf, BufferedFs.Abs, Shaped, Quiet, Coherent, View, ReadSafe, Fine, Others, Clients, Splice, Slice,
         ReadResult, HeldOf, Walk;
    SightFacts(fs);
    ghost var s, lists := fs.bfs.Abs(), fs.Lists();
    var buf := new Byte[size](_ => 0);
    ghost var rq := fs.Asked(f, HeldOf(fs.preloadMap[f].pblocks), th, off, size, buf[..]);
    var n, wrapped := fs.Read(f, buf, off, size, th);
    ghost var s1, lists1 := fs.bfs.Abs(), fs.Lists();
    QuietUp(s, s1, fs.preloadMap[f].path);
    assert lists1 == lists[f := lists1[f]];
    ReadSeen(s, lists, s1, lists1, fs.numBlocks, f);
    ReadAnswer(rq, HeldOf(lists1[f].blocks), n, wrapped, buf[..]);
    assert buf[..n] == buf[..][..n];
    r := Bytes(Data(buf[..n]));
  }

  lemma QuietUp(s: State, s1: State, p: Path)
    requires Quiet(s, s1)
    ensures s1.up == s.up && View(s1, p) == View(s, p)
  {
  }

  method WriteBytes(fs: PreloadFs, f: nat, off: nat, data: seq<Byte>) returns (n: int)
    requires fs.Valid() && f in fs.bfs.Abs().open && off + |data| <= Limit(fs.bfs.Abs().bs)
    modifies fs.bfs.Repr
    ensures fs.Valid() && fresh(fs.bfs.Repr - old(fs.bfs.Repr))
    ensures (fs.bfs.Abs(), n) == BufferModel.Write(old(fs.bfs.Abs()), f, off, data)
  {
    hide BufferedFs.Wf, Shaped, Fine, BufferModel.Write;
    var buf := new Byte[|data|](i requires 0 <= i < |data| => data[i]);
    assert buf[..|data|] == data;
    n := fs.Write(f, buf, off, |data|);
  }

  /** A call is passed on to the block cache. */
  method PassOn(fs: PreloadFs, c: Call) returns (r: Reply)
    requires fs.Valid() && Direct(c) && Shaped(fs.bfs.Abs()) && fs.bfs.Abs().bs > 0
    requires Allowed(fs.bfs.Abs().bs, BufferRuns.Abs(fs.bfs.Abs()), c)
    modifies fs.bfs.Repr
    ensures fs.Valid() && fresh(fs.bfs.Repr - old(fs.bfs.Repr))
    ensures (fs.bfs.Abs(), r) == Step(old(fs.bfs.Abs()), c)
  {
    hide BufferedFs.Wf, BufferedFs.Abs, Shaped, Fine, Allowed, BufferModel.Write, BufferModel.Flush, BufferModel.Create,
         BufferModel.GetAttr;
    var st;
    match c {
      case CreateFile(p) => st := fs.Create(p);
      case WriteAt(f, off, data) =>
        WriteAllowed(fs.bfs.Abs(), f, off, data);
        st := WriteBytes(fs, f, off, data);
      case FlushFd(f) =>
        FlushAllowed(fs.bfs.Abs(), f);
        st := fs.Flush(f);
      case SizeOf(p) => st := fs.bfs.GetAttr(p);
    }
    r := Status(st);
  }

  /** The calls that go straight to the block cache. */
  method DirectCall(fs: PreloadFs, c: Call, ghost th: Threads) returns (r: Reply)
    requires Ready(fs) && fs.bfs.Abs().bs > 0 && Direct(c) && May(fs.bfs.Abs().bs, Sight(fs), Calls(c))
    modifies fs.bfs.Repr
    ensures fs.preloadMap == old(fs.preloadMap)
    ensures Ready(fs) && fresh(fs.bfs.Repr - old(fs.bfs.Repr)) && fs.bfs.Abs().bs == old(fs.bfs.Abs().bs)
    ensures Next(old(fs.bfs.Abs().bs), fs.numBlocks, old(Sight(fs)), Calls(c), th, Sight(fs), r)
  {
    hide BufferedFs.Wf, BufferedFs.Abs, Shaped, Coherent, Fine, Next, Allowed, Step, Seen, Direct, BufferRuns.Abs;
    DirectSeen(fs.bfs.Abs(), fs.Lists(), c, fs.numBlocks, th);
    ghost var lists := fs.Lists();
    r := PassOn(fs, c);
    assert fs.Lists() == lists;
  }

  lemma WriteAllowed(s: State, f: nat, off: nat, data: seq<Byte>)
    requires s.bs > 0 && Allowed(s.bs, BufferRuns.Abs(s), WriteAt(f, off, data))
    ensures f in s.open && off + |data| <= Limit(s.bs)
  {
  }

  lemma FlushAllowed(s: State, f: nat)
    requires s.bs > 0 && Allowed(s.bs, BufferRuns.Abs(s), FlushFd(f))
    ensures f in s.open
  {
  }

  method OpenCall(fs: PreloadFs, p: Path, rd: bool, w: bool, th: Threads) returns (r: Reply)
    requires Ready(fs) && fs.bfs.Abs().bs > 0 && May(fs.bfs.Abs().bs, Sight(fs), Calls(OpenFile(p, rd, w)))
    modifies fs, fs.bfs.Repr
    ensures Ready(fs) && fresh(fs.bfs.Repr - old(fs.bfs.Repr)) && fs.bfs.Abs().bs == old(fs.bfs.Abs().bs)
    ensures fresh(fs.preloadMap.Values - old(fs.preloadMap.Values))
    ensures Next(old(fs.bfs.Abs().bs), fs.numBlocks, old(Sight(fs)), Calls(OpenFile(p, rd, w)), th, Sight(fs), r)
  {
    hide BufferedFs.Wf, BufferedFs.Abs, Shaped, Coherent, View, Fine, Others, Clients, Opened, HeldOf, First, Next, May,
         Seen, HeldLists;
    ghost var s, lists := fs.bfs.Abs(), fs.Lists();
    var fd := fs.Open(p, rd, w, th);
    assert forall k :: k in fs.preloadMap && k != fd ==>
      k in old(fs.preloadMap) && fs.preloadMap[k] == old(fs.preloadMap)[k];
    ListsAdded(lists, fs.Lists(), fd);
    OpenSeen(s, lists, fs.bfs.Abs(), fs.Lists(), p, rd, w, fd, fs.numBlocks, th);
    r := Status(fd);
  }

  method CloseCall(fs: PreloadFs, f: nat, ghost th: Threads) returns (r: Reply)
    requires Ready(fs) && fs.bfs.Abs().bs > 0 && May(fs.bfs.Abs().bs, Sight(fs), Calls(CloseFd(f)))
    modifies fs, fs.bfs.Repr
    ensures Ready(fs) && fresh(fs.bfs.Repr - old(fs.bfs.Repr)) && fs.bfs.Abs().bs == old(fs.bfs.Abs().bs)
    ensures fs.preloadMap.Values <= old(fs.preloadMap.Values)
    ensures Next(old(fs.bfs.Abs().bs), fs.numBlocks, old(Sight(fs)), Calls(CloseFd(f)), th, Sight(fs), r)
  {
    hide BufferedFs.Wf, BufferedFs.Abs, Shaped, Coherent, View, Fine, Others, Clients, Closed, HeldOf, Next;
    SightFacts(fs);
    ghost var s, lists := fs.bfs.Abs(), fs.Lists();
    var st := fs.Close(f);
    CloseSeen(s, lists, fs.bfs.Abs(), f, st, fs.numBlocks, th);
    assert fs.Lists() == lists - {f};
    r := Status(st);
  }

  /** A worker runs, if there is one for the block that has not. */
  method WorkerCall(fs: PreloadFs, f: nat, id: nat, th: Threads) returns (r: Reply)
    requires Ready(fs) && fs.bfs.Abs().bs > 0 && May(fs.bfs.Abs().bs, Sight(fs), WorkerRuns(f, id))
    modifies fs.bfs.Repr, fs.preloadMap.Values
    ensures fs.preloadMap == old(fs.preloadMap)
    ensures Ready(fs) && fresh(fs.bfs.Repr - old(fs.bfs.Repr)) && fs.bfs.Abs().bs == old(fs.bfs.Abs().bs)
    ensures Next(old(fs.bfs.Abs().bs), fs.numBlocks, old(Sight(fs)), WorkerRuns(f, id), th, Sight(fs), r)
  {
    hide BufferedFs.Wf, BufferedFs.Abs, Shaped, Quiet, Coherent, View, Fine, Others, Clients, HeldOf, Waited, Seen,
         AsPlanned;
    r := Status(0);
    SightFacts(fs);
    if f !in fs.preloadMap { return; }
    var bs := fs.preloadMap[f].pblocks;
    ghost var s, lists := fs.bfs.Abs(), fs.Lists();
    FineOne(lists, Slots(s), fs.numBlocks, f);
    var i := 0;
    while i < |bs| && bs[i].id != id
      invariant 0 <= i <= |bs| && forall j :: 0 <= j < i ==> bs[j].id != id
    {
      i := i + 1;
    }
    NothingToDo(bs, i, id, th);
    if i < |bs| && bs[i].status == Running {
      CoherentIsShaped(s);
      ShapedOpen(s, f);
      UpReadable(s, lists[f].path, bs, i);
      fs.WorkerStep(f, i, th.works(id, id));
      ghost var s1, lists1 := fs.bfs.Abs(), fs.Lists();
      QuietUp(s, s1, "");
      PreloadFs.SlotOthers(s, s1, bs, fs.preloadMap[f].pblocks);
      assert lists1 == lists[f := lists1[f]];
      ReadSeen(s, lists, s1, lists1, fs.numBlocks, f);
    } else {
      assert Sight(fs).held[f] == HeldOf(bs);
      assert Worked(Sight(fs).held, f, id, th) == Sight(fs).held;
    }
  }

  lemma UpReadable(s: State, path: Path, bs: seq<PBlock>, i: nat)
    requires s.up && path in s.files && i < |bs|
    ensures Readable(s, path, bs[i])
  {
  }

  lemma NothingToDo(bs: seq<PBlock>, i: nat, id: nat, th: Threads)
    requires DistinctIds(bs) && i <= |bs| && (forall j :: 0 <= j < i ==> bs[j].id != id)
    requires i < |bs| ==> bs[i].id == id
    ensures i == |bs| || bs[i].status != Running ==> Waited(HeldOf(bs), id, th.works(id, id)) == HeldOf(bs)
  {
    hide HeldOf;
    HeldKeys(bs);
    if i < |bs| { HeldBlock(bs, bs[i]); }
  }

  /** One event, whatever it is. */
  method Do(fs: PreloadFs, e: Event, th: Threads) returns (r: Reply)
    requires Ready(fs) && fs.bfs.Abs().bs > 0 && May(fs.bfs.Abs().bs, Sight(fs), e)
    modifies fs, fs.bfs.Repr, fs.preloadMap.Values
    ensures Ready(fs) && fresh(fs.bfs.Repr - old(fs.bfs.Repr)) && fs.bfs.Abs().bs == old(fs.bfs.Abs().bs)
    ensures fresh(fs.preloadMap.Values - old(fs.preloadMap.Values))
    ensures Next(old(fs.bfs.Abs().bs), fs.numBlocks, old(Sight(fs)), e, th, Sight(fs), r)
  {
    hide BufferedFs.Wf, BufferedFs.Abs, Ready, Sight, May, Next;
    match e
    case WorkerRuns(f, id) => r := WorkerCall(fs, f, id, th);
    case Calls(c) =>
      match c {
        case OpenFile(p, rd, w) => r := OpenCall(fs, p, rd, w, th);
        case ReadAt(f, off, size) => r := ReadCall(fs, f, off, size, th);
        case CloseFd(f) => r := CloseCall(fs, f, th);
        case _ => r := DirectCall(fs, c, th);
      }
  }

  // ---------- runs ----------

  /** A client, and the scheduler of the workers with it, chooses each event by the replies so far; the
      threads of the i-th event meet `threads(i)`. However its calls are answered, the next `k` are allowed ones. */
  ghost predicate Careful(bs: nat, n: nat, ps: Watched, client: seq<Reply> -> Event, threads: nat -> Threads,
                          replies: seq<Reply>, k: nat)
    requires bs > 0
    decreases k
  {
    k == 0 ||
    (May(bs, ps, client(replies))
     && forall ps1, r ::
          Next(bs, n, ps, client(replies), threads(|replies|), ps1, r)
          ==> Careful(bs, n, ps1, client, threads, replies + [r], k - 1))
  }

  /** The replies are those of the reference going through the states of `trace`. */
  ghost predicate Explained(bs: nat, n: nat, client: seq<Reply> -> Event, threads: nat -> Threads, trace: seq<Watched>,
                            replies: seq<Reply>)
    requires bs > 0
  {
    && |trace| == |replies| + 1
    && forall i :: 0 <= i < |replies| ==>
         May(bs, trace[i], client(replies[..i]))
         && Next(bs, n, trace[i], client(replies[..i]), threads(i), trace[i + 1], replies[i])
  }

  lemma ExplainedMore(bs: nat, n: nat, client: seq<Reply> -> Event, threads: nat -> Threads, trace: seq<Watched>,
                      replies: seq<Reply>, ps: Watched, r: Reply)
    requires bs > 0 && Explained(bs, n, client, threads, trace, replies)
    requires May(bs, trace[|replies|], client(replies))
    requires Next(bs, n, trace[|replies|], client(replies), threads(|replies|), ps, r)
    ensures Explained(bs, n, client, threads, trace + [ps], replies + [r])
  {
    hide May, Next;
    var trace1, replies1 := trace + [ps], replies + [r];
    forall i | 0 <= i < |replies1|
      ensures May(bs, trace1[i], client(replies1[..i]))
        && Next(bs, n, trace1[i], client(replies1[..i]), threads(i), trace1[i + 1], replies1[i])
    {
      assert replies1[..i] == replies[..i];
      assert replies[..|replies|] == replies;
    }
  }

  /** Any careful client, over any number of calls, paths and descriptors, with workers running and failing
      and threads failing to start at any of them, is answered as the reference answers it. */
  method Serve(fs: PreloadFs, client: seq<Reply> -> Event, threads: nat -> Threads, k: nat)
      returns (replies: seq<Reply>, ghost trace: seq<Watched>)
    requires Ready(fs) && fs.bfs.Abs().bs > 0
    requires Careful(fs.bfs.Abs().bs, fs.numBlocks, Sight(fs), client, threads, [], k)
    modifies fs, fs.bfs.Repr, fs.preloadMap.Values
    ensures Ready(fs) && |replies| == k
    ensures Explained(old(fs.bfs.Abs().bs), fs.numBlocks, client, threads, trace, replies)
    ensures trace[0] == old(Sight(fs)) && trace[k] == Sight(fs)
  {
    hide BufferedFs.Wf, BufferedFs.Abs, Coherent, Fine, Sight, May, Next, Explained, Careful;
    ghost var bs := fs.bfs.Abs().bs;
    replies, trace := [], [Sight(fs)];
    NothingExplained(bs, fs.numBlocks, client, threads, Sight(fs));
    for i := 0 to k
      invariant Ready(fs) && fresh(fs.bfs.Repr - old(fs.bfs.Repr)) && fs.bfs.Abs().bs == bs
      invariant fresh(fs.preloadMap.Values - old(fs.preloadMap.Values))
      invariant |replies| == i && |trace| == i + 1 && trace[0] == old(Sight(fs)) && trace[i] == Sight(fs)
      invariant Explained(bs, fs.numBlocks, client, threads, trace, replies)
      invariant Careful(bs, fs.numBlocks, Sight(fs), client, threads, replies, k - i)
    {
      ghost var ps := Sight(fs);
      CarefulNow(bs, fs.numBlocks, ps, client, threads, replies, k - i);
      var r := Do(fs, client(replies), threads(i));
      CarefulThen(bs, fs.numBlocks, ps, client, threads, replies, k - i, Sight(fs), r);
      ExplainedMore(bs, fs.numBlocks, client, threads, trace, replies, Sight(fs), r);
      replies, trace := replies + [r], trace + [Sight(fs)];
    }
  }

  lemma NothingExplained(bs: nat, n: nat, client: seq<Reply> -> Event, threads: nat -> Threads, ps: Watched)
    requires bs > 0
    ensures Explained(bs, n, client, threads, [ps], [])
  {
  }

  lemma CarefulNow(bs: nat, n: nat, ps: Watched, client: seq<Reply> -> Event, threads: nat -> Threads,
                   replies: seq<Reply>, k: nat)
    requires bs > 0 && k > 0 && Careful(bs, n, ps, client, threads, replies, k)
    ensures May(bs, ps, client(replies))
  {
  }

  lemma CarefulThen(bs: nat, n: nat, ps: Watched, client: seq<Reply> -> Event, threads: nat -> Threads,
                    replies: seq<Reply>, k: nat, ps1: Watched, r: Reply)
    requires bs > 0 && k > 0 && Careful(bs, n, ps, client, threads, replies, k) && May(bs, ps, client(replies))
    requires Next(bs, n, ps, client(replies), threads(|replies|), ps1, r)
    ensures Careful(bs, n, ps1, client, threads, replies + [r], k - 1)
  {
  }
}
