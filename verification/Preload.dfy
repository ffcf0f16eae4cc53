/** Prefetching: a window of blocks ahead of the reader of each open file, each block read by a worker
    through a descriptor of its own. A worker runs at any call boundary between its start and its
    join, and may fail. */
module Preloading {
  import opened Bytes
  import opened Blocks
  import opened BufferModel
  import opened Remote
  import opened Buffered
  import opened Tables
  import opened Prefetch
  import opened PrefetchPlan
  import opened Options

  lemma OpenQuiet(s: State, p: Path)
    requires Shaped(s)
    ensures var (s1, fd) := Open(s, p, false);
      && Quiet(s, s1)
      && Slots(s1) == if fd < 0 then Slots(s) else Slots(s)[fd := Slot(Desc(p, false), None)]
  {
    hide Coherent;
    if Coherent(s) && s.up && p in s.files { OpenView(s, p, false); }
    assert s.nextFd !in s.open;
  }

  lemma ReadBlockQuiet(s: State, f: nat, id: nat, buf: seq<Byte>)
    requires Shaped(s) && f in s.open && id < BLOCK_IDS && |buf| == s.bs
    ensures var r := ReadBlock(s, f, id, buf);
      && Quiet(s, r.s) && r.s.open == s.open
      && (r.Got? <==> s.up || Hit(s, f, id))
      && Slots(r.s) == Slots(s)[f := Slot(s.open[f], if r.Got? then Some(id) else None)]
      && (r.Got? && Coherent(s) ==> HoldsBlock(r.s, s.open[f].path, id, r.buf, r.n))
  {
    hide Coherent, HoldsBlock, Overlay, BlockId;
    BlockOfStart(s.bs, id);
    ReadBlockShaped(s, f, id, buf);
    if Coherent(s) {
      ReadBlockView(s, f, id, buf);
      var r := ReadBlock(s, f, id, buf);
      if r.Got? { SameBlockHeld(s, r.s, s.open[f].path, id, r.buf, r.n); }
    }
  }

  lemma SameBlockHeld(s: State, s1: State, p: Path, id: nat, b: seq<Byte>, n: nat)
    requires HoldsBlock(s, p, id, b, n) && s1.bs == s.bs && s1.files == s.files && s1.delta == s.delta
    ensures HoldsBlock(s1, p, id, b, n)
  {
  }

  lemma CloseQuiet(s: State, f: nat)
    requires Shaped(s) && f in s.open && !s.open[f].writable
    ensures var (s1, st) := Close(s, f); st == 0 && Quiet(s, s1) && Slots(s1) == Slots(s) - {f}
  {
    hide Coherent, Shaped;
    if Coherent(s) { CloseFlushed(s, f); }
  }

  lemma CloseSlots(s: State, f: nat)
    requires Shaped(s) && f in s.open
    ensures var (s1, st) := Close(s, f); Slots(s1) == if st < 0 then Slots(s) else Slots(s) - {f}
  {
    FlushDeltaSlots(s, f);
  }

  lemma PushSlots(s: State, p: Path)
    requires Shaped(s) && p in s.delta
    ensures Slots(Push(s, p)) == Slots(s) && Push(s, p).nextFd == s.nextFd
  {
    forall f | f in s.cache ensures Push(s, p).cache[f].block.off == s.cache[f].block.off {
      PatchAligned(s.bs, s.cache[f], p, s.delta[p]);
    }
  }

  lemma FlushDeltaSlots(s: State, f: nat)
    requires Shaped(s) && f in s.open
    ensures Slots(FlushDelta(s, f).0) == Slots(s)
  {
    hide Slots, Shaped;
    if s.open[f].writable && s.open[f].path in s.delta { PushSlots(s, s.open[f].path); }
  }

  lemma WriteBlockSlots(s: State, f: nat, off: nat, data: seq<Byte>)
    requires Shaped(s) && f in s.open
    ensures Slots(WriteBlock(s, f, off, data).0) == Slots(s)
  {
    hide Merge, BlockId, Splice, Shaped;
    var p := s.open[f].path;
    if p in s.delta { PushSlots(s, p); }
  }

  lemma {:induction false} WriteSlots(s: State, f: nat, off: nat, data: seq<Byte>)
    requires Shaped(s) && f in s.open && off + |data| <= Limit(s.bs)
    ensures Slots(Write(s, f, off, data).0) == Slots(s)
    decreases |data|
  {
    hide Shaped, WriteBlock, OneBlock, Slots;
    if data == [] {
      WriteNone(s, f, off);
    } else {
      var n := FirstChunk(s.bs, off, |data|);
      WriteUnfold(s, f, off, data);
      WriteBlockSlots(s, f, off, data[..n]);
      var (s1, st) := WriteBlock(s, f, off, data[..n]);
      if st >= 0 { WriteSlots(s1, f, off + n, data[n..]); }
    }
  }

  lemma OpenOpen(s: State, p: Path, writable: bool)
    requires Shaped(s)
    ensures var (s1, fd) := Open(s, p, writable);
      && (if fd < 0 then s1 == s else fd == s.nextFd && fd !in s.open && s1.open == s.open[fd := Desc(p, writable)])
      && (fd >= 0 ==> Slots(s1) == Slots(s)[fd := Slot(Desc(p, writable), None)])
  {
  }

  /** The answer of iFuseBufferedFsRead on a coherent state: `n` bytes of `view` in a buffer that held
      `before`, or a copy whose length wrapped where the read is not addressable. */
  ghost predicate Answered(bs: nat, view: seq<Byte>, off: nat, size: nat, n: int, wrapped: bool, before: seq<Byte>,
                           after: seq<Byte>)
    requires bs > 0
  {
    var data := Slice(view, off, size);
    if ReadSafe(bs, view, off, size) then !wrapped && n == |data| && after == Splice(before, 0, data) else wrapped
  }

  /** Part of the way through a read: `done` are its first bytes, safe to read alone, and the rest is as
      safe as the whole. */
  ghost predicate SoFar(bs: nat, view: seq<Byte>, off: nat, size: nat, done: seq<Byte>)
    requires bs > 0
  {
    && |done| <= size && done == Slice(view, off, |done|) && (done != [] ==> off + |done| <= |view|)
    && ReadSafe(bs, view, off, |done|)
    && (ReadSafe(bs, view, off, size) <==> ReadSafe(bs, view, off + |done|, size - |done|))
  }

  lemma SoFarMore(bs: nat, view: seq<Byte>, off: nat, size: nat, done: seq<Byte>, b: seq<Byte>, n: nat, at: nat,
                  chunk: int)
    requires bs > 0 && SoFar(bs, view, off, size, done)
    requires RoundSound(bs, view, off + |done|, size - |done|, b, n, at, chunk)
    requires n == bs && chunk > 0 ==> off + |done| + chunk <= Limit(bs)
    ensures n == 0 || chunk == 0 ==> ReadSafe(bs, view, off, size) && Slice(view, off, size) == done
    ensures n > 0 && chunk < 0 ==> !ReadSafe(bs, view, off, size)
    ensures n > 0 && chunk > 0 ==>
      chunk <= size - |done| && at + chunk <= |b| == bs && n <= bs && |done + b[at..at + chunk]| == |done| + chunk
    ensures 0 < n < bs && chunk > 0 ==>
      ReadSafe(bs, view, off, size) && Slice(view, off, size) == done + b[at..at + chunk]
    ensures n == bs && chunk > 0 ==> SoFar(bs, view, off, size, done + b[at..at + chunk])
  {
    hide ReadSafe, Slice, Limit;
    SlicePlus(view, off, |done|, size - |done|);
    if n > 0 && chunk > 0 {
      SlicePlus(view, off, |done|, chunk);
      if n == bs { SafeSoFar(bs, view, off, size, |done|, chunk); }
    }
  }

  lemma SafeSoFar(bs: nat, view: seq<Byte>, off: nat, size: nat, d: nat, chunk: nat)
    requires bs > 0 && chunk > 0 && d + chunk <= size && ReadSafe(bs, view, off, d)
    requires off + d + chunk <= |view| && off + d + chunk <= Limit(bs)
    ensures ReadSafe(bs, view, off, d + chunk)
  {
    hide Limit, BlockId;
    BlockBelowLimit(bs, off);
    BlockOfStart(bs, BlockId(bs, off));
  }

  lemma SlicePlus(view: seq<Byte>, off: nat, d: nat, k: nat)
    requires d == 0 || off + d <= |view|
    ensures Slice(view, off, d + k) == Slice(view, off, d) + Slice(view, off + d, k)
    ensures Slice(view, off, d) + [] == Slice(view, off, d)
    ensures |Slice(view, off, d)| == d
  {
  }

  lemma SoFarNone(bs: nat, view: seq<Byte>, off: nat, size: nat)
    requires bs > 0
    ensures SoFar(bs, view, off, size, [])
  {
  }

  lemma AnsweredDone(bs: nat, view: seq<Byte>, off: nat, size: nat, before: seq<Byte>, done: seq<Byte>)
    requires bs > 0
    ensures ReadSafe(bs, view, off, size) && Slice(view, off, size) == done ==>
      Answered(bs, view, off, size, |done|, false, before, Splice(before, 0, done))
    ensures !ReadSafe(bs, view, off, size) ==>
      forall n, after :: Answered(bs, view, off, size, n, true, before, after)
  {
  }

  /** A read begun again over its own first bytes. */
  lemma AnsweredAgain(bs: nat, view: seq<Byte>, off: nat, size: nat, n: int, wrapped: bool,
                      before: seq<Byte>, done: seq<Byte>, after: seq<Byte>)
    requires bs > 0 && SoFar(bs, view, off, size, done)
    ensures Answered(bs, view, off, size, n, wrapped, Splice(before, 0, done), after)
            ==> Answered(bs, view, off, size, n, wrapped, before, after)
  {
    hide ReadSafe;
    var data := Slice(view, off, size);
    if done != [] {
      assert |done| <= |data|;
      assert Splice(Splice(before, 0, done), 0, data) == Splice(before, 0, data);
    }
  }

  /** A read of `size` bytes at `off` into a buffer that holds `before`: the file in view, the blocks held
      when it begins, and what the threads meet. */
  datatype Request = Request(bs: nat, n: nat, up: bool, view: seq<Byte>, held: Held, th: Threads, off: nat, size: nat,
                             before: seq<Byte>)

  /** The answer of iFusePreloadRead and the blocks held afterwards. */
  ghost predicate ReadResult(rq: Request, w1: Held, k: int, wrapped: bool, after: seq<Byte>)
    requires rq.bs > 0
  {
    var reach := Walk(rq.bs, rq.n, rq.view, rq.held, rq.off, rq.size, rq.th);
    var answered := Answered(rq.bs, rq.view, rq.off, reach.got, k, wrapped, rq.before, after);
    if rq.up || reach.unaided then
      w1 == reach.held && (answered || (!rq.up && reach.again && !wrapped && k < 0))
    else
      answered || Answered(rq.bs, rq.view, rq.off, rq.size, k, wrapped, rq.before, after) || (!wrapped && k < 0)
  }

  /** The server is up, or the read needs no worker that has not done its work. */
  ghost predicate Sure(rq: Request)
    requires rq.bs > 0
  {
    rq.up || Walk(rq.bs, rq.n, rq.view, rq.held, rq.off, rq.size, rq.th).unaided
  }

  /** Part of the way through a read: `plan` should be held now, and `w` is. */
  ghost predicate OnTheWay(rq: Request, w: Held, plan: Held, done: seq<Byte>)
    requires rq.bs > 0
  {
    && SoFar(rq.bs, rq.view, rq.off, rq.size, done) && AsPlanned(Sure(rq), w, plan)
    && var whole := Walk(rq.bs, rq.n, rq.view, rq.held, rq.off, rq.size, rq.th);
       var rest := Walk(rq.bs, rq.n, rq.view, plan, rq.off + |done|, rq.size - |done|, rq.th);
       && whole.held == rest.held && whole.got == |done| + rest.got && whole.again == rest.again
       && (whole.unaided ==> rest.unaided)
  }

  /** What the next round does: `w1` is held after it, and it finds `st`, `at` and `chunk`. */
  ghost predicate RoundDone(rq: Request, w: Held, done: seq<Byte>, w1: Held, b: seq<Byte>, st: int, at: nat, chunk: int)
    requires rq.bs > 0
  {
    var id := BlockId(rq.bs, rq.off + |done|);
    && |done| < rq.size && AsPlanned(rq.up || !NeedsWorker(w, id, rq.th), w1, Round(w, id, rq.n, rq.th))
    && RoundResult(rq.bs, rq.view, w1, rq.off + |done|, rq.size - |done|, b, st, at, chunk)
  }

  lemma StartWay(rq: Request)
    requires rq.bs > 0
    ensures OnTheWay(rq, rq.held, rq.held, [])
  {
    hide Walk, SoFar;
    SoFarNone(rq.bs, rq.view, rq.off, rq.size);
  }

  lemma PlanGoesOn(rq: Request, w: Held, plan: Held, done: seq<Byte>, w1: Held, b: seq<Byte>, st: int, at: nat,
                   chunk: int)
    requires rq.bs > 0 && OnTheWay(rq, w, plan, done) && RoundDone(rq, w, done, w1, b, st, at, chunk)
    ensures var plan1 := Round(plan, BlockId(rq.bs, rq.off + |done|), rq.n, rq.th);
      AsPlanned(Sure(rq), w1, plan1) && (Sure(rq) ==> w1 == plan1)
  {
    hide Round, Walk, SoFar, BlockId, RoundResult, NeedsWorker, Slice, InBlock;
    var id, sure := BlockId(rq.bs, rq.off + |done|), Sure(rq);
    WalkRound(rq.bs, rq.n, rq.view, plan, rq.off + |done|, rq.size - |done|, rq.th);
    SamePlan(w, plan);
    LessSure(rq.up || !NeedsWorker(w, id, rq.th), sure, w1, Round(w, id, rq.n, rq.th));
    RoundPlanned(sure, w, plan, id, rq.n, rq.th);
    AsPlannedTwice(sure, w1, Round(w, id, rq.n, rq.th), Round(plan, id, rq.n, rq.th));
    SamePlan(w1, Round(plan, id, rq.n, rq.th));
  }

  lemma LessSure(sure: bool, sure1: bool, w: Held, plan: Held)
    requires AsPlanned(sure, w, plan) && (sure1 ==> sure)
    ensures AsPlanned(sure1, w, plan)
  {
  }

  lemma SamePlan(w: Held, plan: Held)
    ensures AsPlanned(true, w, plan) ==> w == plan
  {
  }

  /** The block's worker failed and the read was begun again. */
  lemma RoundFailed(rq: Request, w: Held, plan: Held, done: seq<Byte>, w1: Held, b: seq<Byte>, st: int, at: nat,
                    chunk: int, k: int, wrapped: bool, after: seq<Byte>)
    requires rq.bs > 0 && OnTheWay(rq, w, plan, done) && RoundDone(rq, w, done, w1, b, st, at, chunk) && st < 0
    requires Answered(rq.bs, rq.view, rq.off, rq.size, k, wrapped, Splice(rq.before, 0, done), after)
             || (!rq.up && !wrapped && k < 0)
    ensures ReadResult(rq, w1, k, wrapped, after)
  {
    hide Walk, SoFar, Round, RoundSound, BlockId, Answered, Slice, NeedsWorker;
    AnsweredAgain(rq.bs, rq.view, rq.off, rq.size, k, wrapped, rq.before, done, after);
    PlanGoesOn(rq, w, plan, done, w1, b, st, at, chunk);
    WalkRound(rq.bs, rq.n, rq.view, plan, rq.off + |done|, rq.size - |done|, rq.th);
  }

  /** The block is not there, or the file ends, or the copy wraps. */
  lemma RoundStops(rq: Request, w: Held, plan: Held, done: seq<Byte>, w1: Held, b: seq<Byte>, st: int, at: nat,
                   chunk: int)
    requires rq.bs > 0 && OnTheWay(rq, w, plan, done) && RoundDone(rq, w, done, w1, b, st, at, chunk) && st >= 0
    ensures st == 0 || chunk == 0 ==> ReadResult(rq, w1, |done|, false, Splice(rq.before, 0, done))
    ensures st > 0 && chunk < 0 ==> ReadResult(rq, w1, st, true, Splice(rq.before, 0, done))
  {
    hide Walk, SoFar, Round, RoundSound, BlockId, Answered, Slice, ReadSafe, NeedsWorker;
    PlanGoesOn(rq, w, plan, done, w1, b, st, at, chunk);
    WalkRound(rq.bs, rq.n, rq.view, plan, rq.off + |done|, rq.size - |done|, rq.th);
    AnsweredPart(rq.bs, rq.view, rq.off, rq.size, rq.before, done);
    AnsweredDone(rq.bs, rq.view, rq.off, rq.size, rq.before, done);
    if BlockId(rq.bs, rq.off + |done|) in w1 {
      ChunkFits(rq.bs, rq.view, rq.off + |done|, rq.size - |done|, st, at, chunk);
      SoFarMore(rq.bs, rq.view, rq.off, rq.size, done, b, st, at, chunk);
    }
  }

  lemma AnsweredPart(bs: nat, view: seq<Byte>, off: nat, size: nat, before: seq<Byte>, done: seq<Byte>)
    requires bs > 0 && SoFar(bs, view, off, size, done)
    ensures Answered(bs, view, off, |done|, |done|, false, before, Splice(before, 0, done))
  {
    hide ReadSafe, Slice, Splice;
  }

  /** A part that is copied from a full block stays below the limit, and inside the block. */
  lemma ChunkFits(bs: nat, view: seq<Byte>, cur: nat, remain: nat, st: nat, at: nat, chunk: int)
    requires bs > 0 && remain > 0 && at == InBlock(bs, cur) && st <= bs
    requires chunk == if at + Chunk(bs, at, remain) > st then st - at else Chunk(bs, at, remain)
    ensures st == bs && chunk > 0 ==> at < bs && chunk == Min(bs - at, remain) && cur + chunk <= Limit(bs)
    ensures st == bs && at < bs ==> chunk > 0
  {
    hide BlockId;
    BlockStartBelow(bs, cur);
    BlockOfStart(bs, BlockId(bs, cur));
  }

  /** The block is there and part of it is copied. */
  lemma RoundCopies(rq: Request, w: Held, plan: Held, done: seq<Byte>, w1: Held, b: seq<Byte>, st: int, at: nat,
                    chunk: int)
    requires rq.bs > 0 && OnTheWay(rq, w, plan, done) && RoundDone(rq, w, done, w1, b, st, at, chunk)
    requires st > 0 && chunk > 0
    ensures chunk <= rq.size - |done| && at + chunk <= |b| == rq.bs && st <= rq.bs
    ensures |done + b[at..at + chunk]| == |done| + chunk
    ensures var more := done + b[at..at + chunk];
      && (st < rq.bs ==> ReadResult(rq, w1, |more|, false, Splice(rq.before, 0, more)))
      && (st == rq.bs ==> OnTheWay(rq, w1, Round(plan, BlockId(rq.bs, rq.off + |done|), rq.n, rq.th), more))
  {
    hide Walk, SoFar, Round, RoundSound, BlockId, Answered, Slice, ReadSafe, NeedsWorker;
    PlanGoesOn(rq, w, plan, done, w1, b, st, at, chunk);
    WalkRound(rq.bs, rq.n, rq.view, plan, rq.off + |done|, rq.size - |done|, rq.th);
    ChunkSize(rq.bs, rq.view, rq.off + |done|, rq.size - |done|, b, st, at, chunk);
    ChunkFits(rq.bs, rq.view, rq.off + |done|, rq.size - |done|, st, at, chunk);
    SoFarMore(rq.bs, rq.view, rq.off, rq.size, done, b, st, at, chunk);
    AnsweredDone(rq.bs, rq.view, rq.off, rq.size, rq.before, done + b[at..at + chunk]);
  }

  lemma ChunkSize(bs: nat, view: seq<Byte>, off: nat, size: nat, b: seq<Byte>, n: nat, at: nat, chunk: int)
    requires bs > 0 && RoundSound(bs, view, off, size, b, n, at, chunk) && n > 0 && chunk > 0
    ensures chunk <= size && at + chunk <= n <= |b| == bs
  {
  }

  lemma WayEnds(rq: Request, w: Held, plan: Held, done: seq<Byte>)
    requires rq.bs > 0 && OnTheWay(rq, w, plan, done) && |done| == rq.size
    ensures ReadResult(rq, w, rq.size, false, Splice(rq.before, 0, done))
  {
    hide Walk, SoFar, Answered;
    WalkNone(rq.bs, rq.n, rq.view, plan, rq.off + rq.size, rq.th);
    AnsweredPart(rq.bs, rq.view, rq.off, rq.size, rq.before, done);
    SamePlan(w, plan);
  }

  class Preload {
    const fdId: nat
    const path: Path
    var pblocks: seq<PBlock>

    constructor (fdId: nat, path: Path, pblocks: seq<PBlock>)
      ensures this.fdId == fdId && this.path == path && this.pblocks == pblocks
    {
      this.fdId, this.path, this.pblocks := fdId, path, pblocks;
    }
  }

  /** What a block read gives: nothing if the block is not held; the block in view, whether or not the server
      is up, unless its worker failed. */
  ghost predicate Delivered(s: State, w: Held, p: Path, id: nat, b: seq<Byte>, n: int)
  {
    if id !in w then n == 0
    else (n >= 0 <==> w[id] == Completed) && (n >= 0 ==> HoldsBlock(s, p, id, b, n))
  }

  /** What a round of a read finds: no block, a failed worker, or the block and the part of it to copy. */
  ghost predicate RoundResult(bs: nat, view: seq<Byte>, w: Held, cur: nat, remain: nat, b: seq<Byte>, st: int,
                              at: nat, chunk: int)
    requires bs > 0
  {
    var id := BlockId(bs, cur);
    && at == InBlock(bs, cur)
    && chunk == (if at + Chunk(bs, at, remain) > st then st - at else Chunk(bs, at, remain))
    && if id !in w then st == 0
       else
         (w[id] == Completed <==> st >= 0)
         && (st >= 0 ==>
               st == |Slice(view, BlockStart(bs, id), bs)|
               && RoundSound(bs, view, cur, remain, b, st, at, chunk))
  }

  /** What closing `key` does: the file is closed as without prefetching, and every descriptor opened
      for its prefetching is closed with it; or nothing is closed. */
  ghost predicate Closed(s: State, s1: State, key: nat, lists: map<nat, PList>, st: int)
  {
    && Shaped(s) && key in s.open && key in lists
    && st == Close(s, key).1 && Quiet(Close(s, key).0, s1)
    && s1.open == if st < 0 then s.open else Others(s.open, lists[key].blocks) - {key}
  }

  /** What opening does: the file is opened as without prefetching, and every other descriptor opened
      belongs to one of its blocks. */
  ghost predicate Opened(s: State, s1: State, path: Path, writable: bool, fd: int, lists1: map<nat, PList>)
  {
    && fd == Open(s, path, writable).1 && Quiet(Open(s, path, writable).0, s1)
    && (fd >= 0 ==> (fd in lists1 && lists1[fd].path == path
          && Others(s1.open, lists1[fd].blocks) == s.open[fd := Desc(path, writable)]))
    && (fd < 0 ==> s1.open == s.open)
  }

  class PreloadFs {
    const bfs: BufferedFs
    const numBlocks: nat
    var preloadMap: map<nat, Preload>

    ghost predicate Base()
      reads this, bfs, bfs.Repr
    {
      bfs.Valid() && this !in bfs.Repr && 0 < numBlocks < BLOCK_IDS
      && forall k :: k in preloadMap ==> preloadMap[k] !in bfs.Repr
    }

    ghost function Lists(): map<nat, PList>
      reads this, preloadMap.Values
    {
      map k | k in preloadMap :: PList(preloadMap[k].path, preloadMap[k].pblocks)
    }

    /** Every open file's prefetch blocks are in order, and descriptors are owned once. */
    ghost predicate Valid()
      reads this, bfs, bfs.Repr, preloadMap.Values
    {
      Base() && (forall k :: k in preloadMap ==> preloadMap[k].fdId == k)
      && Fine(Lists(), Slots(bfs.Abs()), numBlocks)
    }

    constructor (bfs: BufferedFs, numBlocks: nat)
      requires bfs.Valid() && 0 < numBlocks < BLOCK_IDS
      ensures Valid() && this.bfs == bfs && this.numBlocks == numBlocks && preloadMap == map[]
    {
      this.bfs, this.numBlocks, preloadMap := bfs, numBlocks, map[];
    }

    method OpenFd(path: Path) returns (fd: int)
      requires Base()
      modifies bfs.Repr
      ensures Base() && fresh(bfs.Repr - old(bfs.Repr)) && Quiet(old(bfs.Abs()), bfs.Abs())
      ensures fd < 0 <==> !Serving(old(bfs.Abs()), path)
      ensures fd >= 0 ==> fd == old(bfs.Abs()).nextFd
      ensures Slots(bfs.Abs())
           == if fd < 0 then Slots(old(bfs.Abs())) else Slots(old(bfs.Abs()))[fd := Slot(Desc(path, false), None)]
    {
      hide BufferedFs.Wf, BufferedFs.Abs, Shaped, Quiet, Slots;
      OpenQuiet(bfs.Abs(), path);
      fd := bfs.Open(path, false);
    }

    method CloseFd(fd: nat)
      requires Base() && fd in Slots(bfs.Abs()) && !Slots(bfs.Abs())[fd].desc.writable
      modifies bfs.Repr
      ensures Base() && bfs.Repr == old(bfs.Repr) && Quiet(old(bfs.Abs()), bfs.Abs())
      ensures Slots(bfs.Abs()) == Slots(old(bfs.Abs())) - {fd}
    {
      hide BufferedFs.Wf, Shaped, Quiet, BufferModel.Close, Slots;
      SlotsOpen(bfs.Abs());
      CloseQuiet(bfs.Abs(), fd);
      var _ := bfs.Close(fd);
    }

    method ReadFd(fd: nat, buf: array<Byte>, id: nat) returns (n: int)
      requires Base() && fd in Slots(bfs.Abs()) && id < BLOCK_IDS
      requires buf !in bfs.Repr && buf.Length == bfs.table.blocksize
      modifies bfs.Repr, buf
      ensures Base() && fresh(bfs.Repr - old(bfs.Repr)) && buf !in bfs.Repr
      ensures Quiet(old(bfs.Abs()), bfs.Abs())
      ensures var slot := Slots(old(bfs.Abs()))[fd];
        && (n >= 0 <==> old(bfs.Abs()).up || slot.block == Some(id))
        && Slots(bfs.Abs()) == Slots(old(bfs.Abs()))[fd := Slot(slot.desc, if n >= 0 then Some(id) else None)]
        && (old(Coherent(bfs.Abs())) && n >= 0 ==> HoldsBlock(bfs.Abs(), slot.desc.path, id, buf[..], n))
    {
      hide BufferedFs.Wf, Shaped, Quiet, BufferModel.ReadBlock, Coherent, HoldsBlock, Slots, Hit;
      SlotsOpen(bfs.Abs());
      SlotHit(bfs.Abs(), fd, id);
      ReadBlockQuiet(bfs.Abs(), fd, id, buf[..]);
      n := bfs.ReadBlock(fd, buf, id);
    }

    /** _preloadTask: opens a descriptor unless it was given one, and reads the block into its cache. */
    method RunTask(path: Path, b: PBlock, works: bool) returns (b1: PBlock)
      requires Base() && WellFormed(b) && b.status == Running
      requires b.fd.Some? ==> b.fd.value in Slots(bfs.Abs()) && Slots(bfs.Abs())[b.fd.value].desc == Desc(path, false)
      modifies bfs.Repr
      ensures Base() && fresh(bfs.Repr - old(bfs.Repr))
      ensures Ran(old(bfs.Abs()), bfs.Abs(), path, b, b1) && !b1.joined
      ensures b1.status == Outcome(Running, works && Readable(old(bfs.Abs()), path, b))
    {
      hide BufferedFs.Wf, BufferedFs.Abs, Shaped, Quiet, Slots;
      SlotsOpen(bfs.Abs());
      b1 := b;
      QuietReflexive(bfs.Abs());
      if b1.fd.None? {
        var fd := OpenFd(path);
        if fd < 0 {
          b1 := b1.(status := TaskFailed);
          return;
        }
        b1 := b1.(fd := Some(fd));
      }
      ghost var s1 := bfs.Abs();
      QuietServing(old(bfs.Abs()), s1, path);
      SameUp(old(bfs.Abs()), s1);
      var blockBuffer := Alloc(bfs.table.blocksize);
      var st := ReadFd(b1.fd.value, blockBuffer, b1.id);
      QuietTransitive(old(bfs.Abs()), s1, bfs.Abs());
      SlotsOpen(bfs.Abs());
      b1 := b1.(status := if st < 0 || !works then TaskFailed else Completed);
    }

    /** Waits for the block's worker. */
    method Join(path: Path, b: PBlock, works: bool) returns (b1: PBlock)
      requires Base() && WellFormed(b)
      requires b.fd.Some? ==> b.fd.value in Slots(bfs.Abs()) && Slots(bfs.Abs())[b.fd.value].desc == Desc(path, false)
      modifies bfs.Repr
      ensures Base() && fresh(bfs.Repr - old(bfs.Repr))
      ensures Ran(old(bfs.Abs()), bfs.Abs(), path, b, b1) && b1.joined
      ensures b1.status == Outcome(b.status, works && Readable(old(bfs.Abs()), path, b))
    {
      hide BufferedFs.Wf, BufferedFs.Abs, Shaped, Quiet, Slots, Readable;
      SlotsOpen(bfs.Abs());
      b1 := b;
      QuietReflexive(bfs.Abs());
      if !b1.joined {
        if b1.status == Running {
          b1 := RunTask(path, b1, works);
        }
        b1 := b1.(joined := true);
      }
    }

    /** _freePreloadPBlock: waits for the worker, then closes the block's descriptor. */
    method FreePBlock(path: Path, b: PBlock, ghost a: seq<PBlock>, ghost c: seq<PBlock>, ghost others: map<nat, Slot>)
      requires Base() && WellFormed(b) && Ledger(a + [b] + c, path, Slots(bfs.Abs()), others)
      modifies bfs.Repr
      ensures Base() && fresh(bfs.Repr - old(bfs.Repr)) && Quiet(old(bfs.Abs()), bfs.Abs())
      ensures Ledger(a + c, path, Slots(bfs.Abs()), others)
    {
      hide BufferedFs.Wf, BufferedFs.Abs, Shaped, Quiet, Ledger, Slots;
      ghost var s := bfs.Abs();
      LedgerFreed(path, Slots(s), a, b, c, others);
      var b1 := b;
      QuietReflexive(s);
      if b.status != CreationFailed {
        var works := *;
        b1 := Join(path, b, works);
        LedgerRan(s, bfs.Abs(), path, a, b, c, b1, others);
      }
      ghost var s1 := bfs.Abs();
      LedgerFreed(path, Slots(s1), a, b1, c, others);
      if b1.fd.Some? {
        CloseFd(b1.fd.value);
        QuietTransitive(s, s1, bfs.Abs());
      }
    }

    /** A worker that was waited for: `b1` is what became of block `b`. */
    static predicate Finished(b: PBlock, b1: PBlock, works: bool, serving: bool)
    {
      && b1.id == b.id && (b.fd.Some? ==> b1.fd == b.fd) && (b.status != Running ==> b1 == b.(joined := b1.joined))
      && (!works || serving ==> b1.status == Outcome(b.status, works))
    }

    static lemma RanFinished(s0: State, s: State, s1: State, path: Path, b: PBlock, b1: PBlock, works: bool)
      requires Quiet(s0, s) && Ran(s, s1, path, b, b1) && b1.status == Outcome(b.status, works && Readable(s, path, b))
      ensures Finished(b, b1, works, Serving(s0, path))
    {
      hide Quiet, WellFormed, Slots;
      QuietServing(s0, s, path);
      SameUp(s0, s);
    }

    /** _readPreload: waits for the workers of the blocks that leave the window. */
    method JoinAll(path: Path, ghost kept: seq<PBlock>, removed: seq<PBlock>, id: nat, th: Threads,
                   ghost others: map<nat, Slot>)
        returns (joined: seq<PBlock>)
      requires Base() && (forall b :: b in removed ==> WellFormed(b))
      requires Ledger(kept + removed, path, Slots(bfs.Abs()), others)
      modifies bfs.Repr
      ensures Base() && fresh(bfs.Repr - old(bfs.Repr)) && Quiet(old(bfs.Abs()), bfs.Abs())
      ensures Ledger(kept + joined, path, Slots(bfs.Abs()), others)
      ensures |joined| == |removed| && forall b :: b in joined ==> WellFormed(b) && b.joined
      ensures forall i :: 0 <= i < |removed| ==> 
        Finished(removed[i], joined[i], th.works(id, removed[i].id), Serving(old(bfs.Abs()), path))
    {
      hide BufferedFs.Wf, BufferedFs.Abs, Shaped, Quiet, Ledger, Slots;
      joined := [];
      QuietReflexive(bfs.Abs());
      assert kept + joined + removed[0..] == kept + removed;
      for i := 0 to |removed|
        invariant Base() && fresh(bfs.Repr - old(bfs.Repr)) && Quiet(old(bfs.Abs()), bfs.Abs())
        invariant Ledger(kept + joined + removed[i..], path, Slots(bfs.Abs()), others)
        invariant |joined| == i && forall b :: b in joined ==> WellFormed(b) && b.joined
        invariant forall j :: 0 <= j < i ==>
          Finished(removed[j], joined[j], th.works(id, removed[j].id), Serving(old(bfs.Abs()), path))
      {
        ghost var s, a, c := bfs.Abs(), kept + joined, removed[i + 1..];
        assert kept + joined + removed[i..] == a + [removed[i]] + c;
        LedgerFreed(path, Slots(s), a, removed[i], c, others);
        var b1 := Join(path, removed[i], th.works(id, removed[i].id));
        RanFinished(old(bfs.Abs()), s, bfs.Abs(), path, removed[i], b1, th.works(id, removed[i].id));
        LedgerRan(s, bfs.Abs(), path, a, removed[i], c, b1, others);
        QuietTransitive(old(bfs.Abs()), s, bfs.Abs());
        joined := joined + [b1];
        assert a + [b1] + c == kept + joined + removed[i + 1..];
      }
      assert kept + joined + removed[|removed|..] == kept + joined;
    }

    /** _readPreload: the blocks that leave the window and read their block hand their descriptor on; the
        rest are freed. */
    method Recycle(path: Path, ghost kept: seq<PBlock>, removed: seq<PBlock>, ghost others: map<nat, Slot>)
        returns (recycled: seq<PBlock>)
      requires Base() && (forall b :: b in removed ==> WellFormed(b) && b.joined)
      requires Ledger(kept + removed, path, Slots(bfs.Abs()), others)
      modifies bfs.Repr
      ensures Base() && fresh(bfs.Repr - old(bfs.Repr)) && Quiet(old(bfs.Abs()), bfs.Abs())
      ensures Ledger(kept + recycled, path, Slots(bfs.Abs()), others)
      ensures recycled == Done(removed) && forall b :: b in recycled ==> b.fd.Some?
    {
      hide BufferedFs.Wf, BufferedFs.Abs, Shaped, Quiet, Ledger, Slots, Done;
      recycled := [];
      var rest := removed;
      QuietReflexive(bfs.Abs());
      assert kept + recycled + rest == kept + removed;
      while rest != []
        invariant Base() && fresh(bfs.Repr - old(bfs.Repr)) && Quiet(old(bfs.Abs()), bfs.Abs())
        invariant Ledger(kept + recycled + rest, path, Slots(bfs.Abs()), others)
        invariant forall b :: b in rest ==> WellFormed(b) && b.joined
        invariant recycled + Done(rest) == Done(removed) && forall b :: b in recycled ==> b.fd.Some?
        decreases |rest|
      {
        var b := rest[0];
        ghost var s := bfs.Abs();
        assert kept + recycled + rest == kept + recycled + [b] + rest[1..];
        DoneNext(rest, recycled);
        rest := rest[1..];
        if b.fd.Some? && b.status == Completed && b.joined {
          assert kept + recycled + [b] + rest == kept + (recycled + [b]) + rest;
          recycled := recycled + [b];
        } else {
          FreePBlock(path, b, kept + recycled, rest, others);
          QuietTransitive(old(bfs.Abs()), s, bfs.Abs());
        }
      }
      assert kept + recycled + [] == kept + recycled;
      assert recycled + Done([]) == recycled by { NoneDone(); }
    }

    /** _readPreload: of the blocks that leave, exactly those whose worker read the block hand their
        descriptor on; the descriptors of the others are closed. */
    method RecycleOrClose(path: Path, ghost kept: seq<PBlock>, removed: seq<PBlock>, ghost others: map<nat, Slot>)
        returns (recycled: seq<PBlock>)
      requires Base() && (forall b :: b in removed ==> WellFormed(b) && b.joined)
      requires Ledger(kept + removed, path, Slots(bfs.Abs()), others)
      modifies bfs.Repr
      ensures Base() && fresh(bfs.Repr - old(bfs.Repr)) && Quiet(old(bfs.Abs()), bfs.Abs())
      ensures Ledger(kept + recycled, path, Slots(bfs.Abs()), others)
      ensures recycled == Done(removed) && forall b :: b in recycled ==> b.fd.Some?
      ensures forall b :: b in removed && b.status != Completed && b.fd.Some? ==> b.fd.value !in Slots(bfs.Abs())
    {
      hide BufferedFs.Wf, BufferedFs.Abs, Shaped, Quiet, Ledger, Slots, Done, WellFormed;
      ghost var open := Slots(bfs.Abs());
      recycled := Recycle(path, kept, removed, others);
      forall b | b in removed && b.status != Completed && b.fd.Some? ensures b.fd.value !in Slots(bfs.Abs()) {
        DroppedClosed(kept, removed, path, open, Slots(bfs.Abs()), others, b);
      }
    }

    static function NewBlock(id: nat, recycled: seq<PBlock>): PBlock
    {
      PBlock(if recycled == [] then None else recycled[0].fd, id, Running, false)
    }

    /** _startPreload, with the descriptor of a recycled block if there is one; the thread starts or not. */
    method StartPreload(path: Path, id: nat, blocks: seq<PBlock>, recycled: seq<PBlock>, starts: bool,
                        ghost others: map<nat, Slot>)
        returns (blocks1: seq<PBlock>, recycled1: seq<PBlock>)
      requires Base() && id < BLOCK_IDS
      requires Ledger(blocks + recycled, path, Slots(bfs.Abs()), others)
      modifies bfs.Repr
      ensures Base() && fresh(bfs.Repr - old(bfs.Repr)) && Quiet(old(bfs.Abs()), bfs.Abs())
      ensures Ledger(blocks1 + recycled1, path, Slots(bfs.Abs()), others)
      ensures recycled1 == if recycled == [] then [] else recycled[1..]
      ensures blocks1 == if starts then blocks + [NewBlock(id, recycled)] else blocks
      ensures starts ==> Owned(blocks1 + recycled1) == Owned(blocks + recycled)
    {
      hide BufferedFs.Wf, BufferedFs.Abs, Shaped, Quiet, Ledger, Slots;
      recycled1, blocks1 := recycled, blocks;
      QuietReflexive(bfs.Abs());
      var b := PBlock(None, id, Running, false);
      if recycled != [] {
        b := b.(fd := recycled[0].fd);
        recycled1 := recycled[1..];
        assert blocks + recycled == blocks + [recycled[0]] + recycled1;
        LedgerHanded(path, Slots(bfs.Abs()), blocks, recycled[0], recycled1, b, others);
      } else {
        LedgerBare(path, Slots(bfs.Abs()), blocks, b, recycled1, others);
      }
      if starts {
        OwnedHanded(blocks, recycled, b);
        blocks1 := blocks + [b];
      } else {
        LedgerHanded(path, Slots(bfs.Abs()), blocks, b, recycled1, b.(status := CreationFailed), others);
        FreePBlock(path, b.(status := CreationFailed), blocks, recycled1, others);
      }
    }

    /** _readPreload, the first loop: which blocks stay, which leave, and which places ahead are covered. */
    method Scan(path: Path, bs: seq<PBlock>, id: nat, exist: array<bool>, ghost open: map<nat, Slot>,
                ghost others: map<nat, Slot>)
        returns (hasBlock: bool, kept: seq<PBlock>, removed: seq<PBlock>)
      requires 0 < numBlocks < BLOCK_IDS && id < BLOCK_IDS
      requires exist.Length == numBlocks && forall k :: 0 <= k < numBlocks ==> !exist[k]
      requires DistinctIds(bs) && Ledger(bs, path, open, others)
      modifies exist
      ensures Ledger(kept + removed, path, open, others)
      ensures forall b :: b in removed <==> b in bs && Stale(numBlocks, id, b.id)
      ensures forall b :: b in kept <==> b in bs && !Stale(numBlocks, id, b.id)
      ensures |kept| + |removed| == |bs| && |kept| == (if hasBlock then 1 else 0) + Count(exist[..])
      ensures Covers(kept, id, hasBlock, exist[..])
    {
      hide Sorted, Ledger, Covers, DistinctIds, Stale, Count, WellFormed, Ids;
      hasBlock, kept, removed := false, [], [];
      SortedStart(bs, id, exist[..], path, open, others);
      for i := 0 to |bs|
        invariant Sorted(bs, i, kept, removed, id, hasBlock, exist[..], path, open, others)
      {
        var b := bs[i];
        SortedMore(bs, i, kept, removed, id, hasBlock, exist[..], path, open, others);
        if Stale(numBlocks, id, b.id) {
          removed := removed + [b];
        } else {
          if b.id == id {
            hasBlock := true;
          } else {
            exist[b.id - id - 1] := true;
          }
          kept := kept + [b];
        }
      }
      SortedEnd(bs, kept, removed, id, hasBlock, exist[..], path, open, others);
    }

    /** _readPreload, the last loops: starts the missing blocks ahead. No recycled descriptor is left over,
        so the loop that would release one never runs. */
    method StartMissing(path: Path, id: nat, exist: array<bool>, blocks: seq<PBlock>, recycled: seq<PBlock>,
                        th: Threads, ghost others: map<nat, Slot>)
        returns (blocks1: seq<PBlock>)
      requires Base() && id < BLOCK_IDS && exist.Length == numBlocks && exist !in bfs.Repr
      requires Ledger(blocks + recycled, path, Slots(bfs.Abs()), others)
      requires Filling(blocks, id, exist[..], 0, |recycled|)
      requires forall k :: 0 <= k < numBlocks && exist[k] ==> Ahead(id, k + 1) in Ids(blocks)
      modifies bfs.Repr
      ensures Base() && fresh(bfs.Repr - old(bfs.Repr)) && Quiet(old(bfs.Abs()), bfs.Abs())
      ensures Ledger(blocks1, path, Slots(bfs.Abs()), others)
      ensures Filling(blocks1, id, exist[..], numBlocks, 0)
      ensures HeldOf(blocks1) == Filled(HeldOf(blocks), id, numBlocks, th)
      ensures AllStart(id, th) ==> Owned(blocks + recycled) == Owned(blocks1)
    {
      hide BufferedFs.Wf, BufferedFs.Abs, Shaped, Quiet, Ledger, Slots, Filling, Places, Ids, Ahead, HeldOf, Filled,
           WellFormed, Owned, AllStart;
      ghost var flags := exist[..];
      blocks1 := blocks;
      var spare := recycled;
      QuietReflexive(bfs.Abs());
      FilledNone(HeldOf(blocks), id, th);
      for i := 0 to numBlocks
        invariant Base() && fresh(bfs.Repr - old(bfs.Repr)) && Quiet(old(bfs.Abs()), bfs.Abs())
        invariant exist !in bfs.Repr && exist[..] == flags
        invariant Ledger(blocks1 + spare, path, Slots(bfs.Abs()), others)
        invariant Filling(blocks1, id, flags, i, |spare|)
        invariant HeldOf(blocks1) == Filled(HeldOf(blocks), id, i, th)
        invariant AllStart(id, th) ==> Owned(blocks1 + spare) == Owned(blocks + recycled)
      {
        ghost var was, n, s := blocks1, |spare|, bfs.Abs();
        FilledMore(HeldOf(blocks), id, i, th);
        if !exist[i] {
          FillingFailed(was, id, flags, i, n);
          AheadBelow(id, i + 1);
          var x := Ahead(id, i + 1);
          ghost var b := NewBlock(x, spare);
          StartOf(id, x, th);
          blocks1, spare := StartPreload(path, x, blocks1, spare, th.starts(id, x), others);
          QuietTransitive(old(bfs.Abs()), s, bfs.Abs());
          NewWellFormed(b);
          FillingStarted(was, id, flags, i, n, b);
          StartHeld(was, b);
        } else {
          FillingSkip(was, id, flags, i, |spare|);
          FilledKeeps(HeldOf(blocks), id, i, th);
          HeldKeys(blocks);
        }
      }
      FillingDone(blocks1, id, flags, |spare|);
      assert spare == [] && blocks1 + spare == blocks1;
    }

    /** Every thread wanted starts. */
    static ghost predicate AllStart(id: nat, th: Threads) { forall x :: th.starts(id, x) }

    static lemma StartOf(id: nat, x: nat, th: Threads)
      ensures AllStart(id, th) ==> th.starts(id, x)
    {
    }

    static lemma NewWellFormed(b: PBlock)
      requires b.id < BLOCK_IDS && b.status == Running && !b.joined
      ensures WellFormed(b)
    {
    }

    static lemma StartHeld(bs: seq<PBlock>, b: PBlock)
      requires DistinctIds(bs) && b.id !in Ids(bs)
      ensures HeldOf(bs + [b]) == HeldOf(bs)[b.id := b.status] && b.id !in HeldOf(bs)
    {
      hide HeldOf;
      HeldAppend(bs, b);
      HeldKeys(bs);
    }

    /** _readPreload, the middle loop: waits for the reader's block and reads it through the block's own
        descriptor; 0 if there is no such block, negative if its worker failed. */
    method ReadHeld(path: Path, id: nat, buf: array<Byte>, blocks: seq<PBlock>, ghost recycled: seq<PBlock>,
                    works: bool, ghost others: map<nat, Slot>)
        returns (blocks1: seq<PBlock>, n: int)
      requires Base() && id < BLOCK_IDS && buf !in bfs.Repr && buf.Length == bfs.table.blocksize
      requires (forall b :: b in blocks ==> WellFormed(b)) && DistinctIds(blocks)
      requires Ledger(blocks + recycled, path, Slots(bfs.Abs()), others)
      modifies bfs.Repr, buf
      ensures Base() && fresh(bfs.Repr - old(bfs.Repr)) && buf !in bfs.Repr && Quiet(old(bfs.Abs()), bfs.Abs())
      ensures Ledger(blocks1 + recycled, path, Slots(bfs.Abs()), others)
      ensures SameIds(blocks, blocks1) && forall b :: b in blocks1 ==> WellFormed(b)
      ensures Owned(blocks + recycled) <= Owned(blocks1 + recycled)
      ensures AsPlanned(Serving(old(bfs.Abs()), path) || (id in HeldOf(blocks) ==> HeldOf(blocks)[id] != Running),
                        HeldOf(blocks1), Waited(HeldOf(blocks), id, works))
      ensures old(Coherent(bfs.Abs())) ==> Delivered(bfs.Abs(), HeldOf(blocks1), path, id, buf[..], n)
    {
      hide BufferedFs.Wf, BufferedFs.Abs, Shaped, Quiet, Ledger, Slots, Ids, DistinctIds, Coherent, HoldsBlock, HeldOf,
           AsPlanned, Waited, Readable, Owned;
      n, blocks1 := 0, blocks;
      QuietReflexive(bfs.Abs());
      var i := 0;
      while i < |blocks1| && blocks1[i].id != id
        invariant 0 <= i <= |blocks1| && forall j :: 0 <= j < i ==> blocks1[j].id != id
      {
        i := i + 1;
      }
      FoundOrNot(blocks, id, i);
      HeldKeys(blocks);
      NotWaited(HeldOf(blocks), id, works);
      if i < |blocks1| {
        ghost var s, a, c := bfs.Abs(), blocks[..i], blocks[i + 1..] + recycled;
        assert blocks + recycled == a + [blocks[i]] + c;
        LedgerFreed(path, Slots(s), a, blocks[i], c, others);
        var b := Join(path, blocks[i], works);
        LedgerRan(s, bfs.Abs(), path, a, blocks[i], c, b, others);
        blocks1 := blocks[i := b];
        WaitedFor(s, path, blocks, i, b, works);
        OwnedRan(blocks, i, b, recycled);
        assert blocks1 + recycled == a + [b] + c;
        if b.status == Completed && b.joined {
          ghost var s1 := bfs.Abs();
          LedgerFreed(path, Slots(s1), a, b, c, others);
          QuietCoherent(s, s1);
          n := ReadFd(b.fd.value, buf, id);
          StillInPlace(s1, bfs.Abs(), path, a, b, c, others);
          QuietTransitive(s, s1, bfs.Abs());
        } else {
          n := -1;
        }
      }
    }

    static lemma NotWaited(w: Held, id: nat, works: bool)
      ensures id !in w ==> forall sure :: AsPlanned(sure, w, Waited(w, id, works))
    {
    }

    static lemma WaitedFor(s: State, path: Path, bs: seq<PBlock>, i: nat, b: PBlock, works: bool)
      requires DistinctIds(bs) && i < |bs| && b.id == bs[i].id
      requires b.status == Outcome(bs[i].status, works && Readable(s, path, bs[i]))
      ensures b.id in HeldOf(bs) && HeldOf(bs)[b.id] == bs[i].status
      ensures HeldOf(bs[i := b]) == Waited(HeldOf(bs), b.id, works && Readable(s, path, bs[i]))
      ensures AsPlanned(Serving(s, path) || bs[i].status != Running, HeldOf(bs[i := b]),
                        Waited(HeldOf(bs), b.id, works))
      ensures b.id in HeldOf(bs[i := b]) && HeldOf(bs[i := b])[b.id] == b.status
    {
      hide HeldOf, Slots;
      HeldUpdate(bs, i, b);
      HeldBlock(bs, bs[i]);
    }

    /** Reading a block that is there again changes nothing. */
    static lemma StillInPlace(s: State, s1: State, path: Path, a: seq<PBlock>, b: PBlock, c: seq<PBlock>,
                              others: map<nat, Slot>)
      requires b.fd.Some? && b.fd.value in Slots(s) && Slots(s)[b.fd.value].block == Some(b.id)
      requires Slots(s1) == Slots(s)[b.fd.value := Slot(Slots(s)[b.fd.value].desc, Some(b.id))]
      requires Ledger(a + [b] + c, path, Slots(s), others)
      ensures Ledger(a + [b] + c, path, Slots(s1), others)
    {
      assert Slots(s1) == Slots(s);
    }

    static lemma QuietServing(s: State, s1: State, p: Path)
      requires Quiet(s, s1)
      ensures Serving(s1, p) <==> Serving(s, p)
      ensures !s1.up ==> !Serving(s, p)
    {
    }

    static lemma FoundOrNot(blocks: seq<PBlock>, id: nat, i: nat)
      requires i <= |blocks| && forall j :: 0 <= j < i ==> blocks[j].id != id
      requires i < |blocks| ==> blocks[i].id == id
      ensures i < |blocks| <==> id in Ids(blocks)
    {
      if i < |blocks| { assert blocks[i] in blocks; }
    }

    static lemma QuietCoherent(s: State, s1: State)
      requires Quiet(s, s1)
      ensures Coherent(s) ==> Coherent(s1)
    {
    }

    static lemma TriedHeld(bs: seq<PBlock>, kept: seq<PBlock>, id: nat, n: nat, hasBlock: bool, flags: seq<bool>,
                           starts: bool, b: PBlock)
      requires DistinctIds(bs) && Covers(kept, id, hasBlock, flags) && b.id == id && b.status == Running
      requires forall c :: c in kept <==> c in bs && !Stale(n, id, c.id)
      ensures HeldOf(if !hasBlock && starts then kept + [b] else kept) == Tried(Kept(HeldOf(bs), id, n), id, starts)
    {
      hide HeldOf, Kept, Covers, DistinctIds, Stale, Ids;
      CoversIsDistinct(kept, id, hasBlock, flags);
      HeldKept(bs, kept, id, n);
      HeldKeys(kept);
      if !hasBlock { StartHeld(kept, b); }
    }

    lemma NoneLost(bs: seq<PBlock>, kept: seq<PBlock>, removed: seq<PBlock>, joined: seq<PBlock>, id: nat, th: Threads,
                   serving: bool)
      requires forall b :: b in removed <==> b in bs && Stale(numBlocks, id, b.id)
      requires forall b :: b in kept <==> b in bs && !Stale(numBlocks, id, b.id)
      requires |joined| == |removed| && (forall b :: b in bs ==> WellFormed(b))
      requires forall i :: 0 <= i < |removed| ==>
        Finished(removed[i], joined[i], th.works(id, removed[i].id), serving)
      ensures Stock(bs) <= Owned(kept + Done(joined))
    {
      hide Stale, Owned, Stock, Done;
      StockKept(bs, kept, removed, joined);
    }

    /** _readPreload up to the reader's block: the window is moved, and the start of its own block was tried
        unless it is there. */
    method MoveWindow(path: Path, id: nat, bs: seq<PBlock>, exist: array<bool>, th: Threads,
                      ghost others: map<nat, Slot>)
        returns (blocks: seq<PBlock>, recycled: seq<PBlock>)
      requires Base() && id < BLOCK_IDS && exist !in bfs.Repr && exist.Length == numBlocks
      requires forall k :: 0 <= k < numBlocks ==> !exist[k]
      requires (forall b :: b in bs ==> WellFormed(b)) && DistinctIds(bs) && |bs| <= numBlocks + 1
      requires Ledger(bs, path, Slots(bfs.Abs()), others)
      modifies bfs.Repr, exist
      ensures Base() && fresh(bfs.Repr - old(bfs.Repr)) && exist !in bfs.Repr && Quiet(old(bfs.Abs()), bfs.Abs())
      ensures Ledger(blocks + recycled, path, Slots(bfs.Abs()), others)
      ensures Filling(blocks, id, exist[..], 0, |recycled|)
      ensures forall k :: 0 <= k < numBlocks && exist[k] ==> Ahead(id, k + 1) in Ids(blocks)
      ensures HeldOf(blocks) == Tried(Kept(HeldOf(bs), id, numBlocks), id, th.starts(id, id))
      ensures AllStart(id, th) ==> Stock(bs) <= Owned(blocks + recycled)
    {
      hide BufferedFs.Wf, BufferedFs.Abs, Shaped, Quiet, Ledger, Slots, Filling, Places, Ids, Covers, DistinctIds,
           HeldOf, Kept, Stale, Ahead, Tried, WellFormed, Owned, Stock, Done, AllStart, Serving;
      var starts := th.starts(id, id);
      StartOf(id, id, th);
      var hasBlock, kept, removed := Scan(path, bs, id, exist, Slots(bfs.Abs()), others);
      ghost var flags := exist[..];
      TriedHeld(bs, kept, id, numBlocks, hasBlock, flags, starts, NewBlock(id, []));
      var joined := JoinAll(path, kept, removed, id, th, others);
      ghost var s1 := bfs.Abs();
      recycled := RecycleOrClose(path, kept, joined, others);
      NoneLost(bs, kept, removed, joined, id, th, Serving(old(bfs.Abs()), path));
      QuietTransitive(old(bfs.Abs()), s1, bfs.Abs());
      blocks := kept;
      if !hasBlock {
        ghost var s2, b := bfs.Abs(), NewBlock(id, recycled);
        NewWellFormed(b);
        blocks, recycled := StartPreload(path, id, kept, recycled, starts, others);
        QuietTransitive(old(bfs.Abs()), s2, bfs.Abs());
        FillingTried(kept, id, flags, |recycled|, |removed|, b);
        TriedHeld(bs, kept, id, numBlocks, hasBlock, flags, starts, b);
      } else {
        FillingHeld(kept, id, flags, |recycled|, |removed|);
      }
    }

    /** _readPreload on the list itself. */
    method ReadWindow(path: Path, bs: seq<PBlock>, buf: array<Byte>, id: nat, th: Threads, ghost others: map<nat, Slot>)
        returns (blocks: seq<PBlock>, n: int)
      requires Base() && id < BLOCK_IDS && buf !in bfs.Repr && buf.Length == bfs.table.blocksize
      requires (forall b :: b in bs ==> WellFormed(b)) && DistinctIds(bs) && |bs| <= numBlocks + 1
      requires Ledger(bs, path, Slots(bfs.Abs()), others)
      modifies bfs.Repr, buf
      ensures Base() && fresh(bfs.Repr - old(bfs.Repr)) && buf !in bfs.Repr && Quiet(old(bfs.Abs()), bfs.Abs())
      ensures Ledger(blocks, path, Slots(bfs.Abs()), others)
      ensures (forall b :: b in blocks ==> WellFormed(b)) && DistinctIds(blocks) && |blocks| <= numBlocks + 1
      ensures AsPlanned(Serving(old(bfs.Abs()), path) || !NeedsWorker(HeldOf(bs), id, th), HeldOf(blocks),
                        Round(HeldOf(bs), id, numBlocks, th))
      ensures AllStart(id, th) ==> Stock(bs) <= Owned(blocks)
      ensures old(Coherent(bfs.Abs())) ==> Delivered(bfs.Abs(), HeldOf(blocks), path, id, buf[..], n)
    {
      hide BufferedFs.Wf, BufferedFs.Abs, Shaped, Quiet, Ledger, Slots, Filling, Places, Ids, DistinctIds, Window,
           Coherent, HoldsBlock, HeldOf, Kept, Tried, Waited, Filled, Round, AsPlanned, Serving, Delivered, Ahead,
           WellFormed, NeedsWorker, Owned, Stock, AllStart;
      ghost var s := bfs.Abs();
      var exist := new bool[numBlocks](_ => false);
      var recycled;
      blocks, recycled := MoveWindow(path, id, bs, exist, th, others);
      ghost var s1, flags, moved := bfs.Abs(), exist[..], blocks;
      FillingIsFine(moved, id, flags, |recycled|);
      QuietCoherent(s, s1);
      QuietServing(s, s1, path);
      blocks, n := ReadHeld(path, id, buf, blocks, recycled, th.works(id, id), others);
      ghost var s2, read, b2 := bfs.Abs(), blocks, buf[..];
      FillingSame(moved, blocks, id, flags, 0, |recycled|);
      SameIdsSame(moved, blocks);
      blocks := StartMissing(path, id, exist, blocks, recycled, th, others);
      FillingDone(blocks, id, flags, 0);
      QuietTransitive(s, s1, s2);
      QuietTransitive(s, s2, bfs.Abs());
      NeedsIt(HeldOf(bs), id, numBlocks, th);
      RoundMade(Serving(s, path) || !NeedsWorker(HeldOf(bs), id, th), bs, HeldOf(read), id, numBlocks, th);
      StillDelivered(s2, bfs.Abs(), HeldOf(read), id, numBlocks, th, path, b2, n);
    }

    static lemma NeedsIt(w: Held, id: nat, n: nat, th: Threads)
      ensures var w1 := Tried(Kept(w, id, n), id, th.starts(id, id));
        NeedsWorker(w, id, th) <==> id in w1 && w1[id] == Running
    {
    }

    static lemma RoundMade(serving: bool, bs: seq<PBlock>, w: Held, id: nat, n: nat, th: Threads)
      requires id < BLOCK_IDS && n < BLOCK_IDS && (forall b :: b in bs ==> WellFormed(b))
      requires AsPlanned(serving, w,
                         Waited(Tried(Kept(HeldOf(bs), id, n), id, th.starts(id, id)), id, th.works(id, id)))
      ensures AsPlanned(serving, Filled(w, id, n, th), Round(HeldOf(bs), id, n, th))
    {
      hide Kept, Tried, Waited, Filled, Round, AsPlanned;
      var w0 := HeldOf(bs);
      FilledPlanned(serving, w, Waited(Tried(Kept(w0, id, n), id, th.starts(id, id)), id, th.works(id, id)), id, n,
                    th);
      RoundSteps(w0, id, n, th);
    }

    static lemma StillDelivered(s: State, s1: State, w: Held, id: nat, n: nat, th: Threads, p: Path, b: seq<Byte>,
                                k: int)
      requires Quiet(s, s1) && id < BLOCK_IDS && n < BLOCK_IDS
      ensures Delivered(s, w, p, id, b, k) ==> Delivered(s1, Filled(w, id, n, th), p, id, b, k)
    {
      NotAhead(id, n);
    }

    /** _readPreload on the open file `key`. */
    method ReadPreload(key: nat, buf: array<Byte>, id: nat, th: Threads) returns (n: int)
      requires Valid() && key in preloadMap && id < BLOCK_IDS
      requires buf !in bfs.Repr && buf.Length == bfs.table.blocksize
      modifies bfs.Repr, buf, preloadMap[key]
      ensures Valid() && fresh(bfs.Repr - old(bfs.Repr)) && buf !in bfs.Repr
      ensures Quiet(old(bfs.Abs()), bfs.Abs())
      ensures Others(Slots(bfs.Abs()), preloadMap[key].pblocks)
           == old(Others(Slots(bfs.Abs()), preloadMap[key].pblocks))
      ensures |preloadMap[key].pblocks| <= numBlocks + 1
      ensures AsPlanned(bfs.Abs().up || !NeedsWorker(old(HeldOf(preloadMap[key].pblocks)), id, th),
                        HeldOf(preloadMap[key].pblocks), Round(old(HeldOf(preloadMap[key].pblocks)), id, numBlocks, th))
      ensures AllStart(id, th) ==> old(Stock(preloadMap[key].pblocks)) <= Owned(preloadMap[key].pblocks)
      ensures old(Coherent(bfs.Abs())) ==>
        Delivered(bfs.Abs(), HeldOf(preloadMap[key].pblocks), preloadMap[key].path, id, buf[..], n)
    {
      hide BufferedFs.Wf, BufferedFs.Abs, Shaped, Quiet, Ledger, Slots, Ids, DistinctIds, Coherent, HoldsBlock, Fine,
           HeldOf, Round, AsPlanned, Delivered, NeedsWorker, Stock, Owned, AllStart;
      var pl := preloadMap[key];
      ghost var s, lists := bfs.Abs(), Lists();
      ghost var others := Others(Slots(s), pl.pblocks);
      FineOne(lists, Slots(s), numBlocks, key);
      SlotsOpen(s);
      PathServed(s, key);
      var blocks;
      blocks, n := ReadWindow(pl.path, pl.pblocks, buf, id, th, others);
      FineUpdate(lists, Slots(s), numBlocks, key, blocks, Slots(bfs.Abs()));
      LedgerOthers(blocks, pl.path, Slots(bfs.Abs()), others);
      SameUp(s, bfs.Abs());
      pl.pblocks := blocks;
      assert Lists() == lists[key := lists[key].(blocks := blocks)];
    }

    static lemma PathServed(s: State, f: nat)
      requires Shaped(s) && f in s.open
      ensures Serving(s, s.open[f].path) <==> s.up
    {
    }

    static lemma SameUp(s: State, s1: State)
      requires Quiet(s, s1)
      ensures s1.up == s.up
    {
    }

    /** One round of iFusePreloadRead up to its copy. */
    method ReadChunk(key: nat, blockBuffer: array<Byte>, cur: nat, remain: nat, th: Threads)
        returns (st: int, at: nat, chunk: int)
      requires Valid() && key in preloadMap && remain > 0 && Coherent(bfs.Abs())
      requires blockBuffer !in bfs.Repr && blockBuffer.Length == bfs.table.blocksize
      modifies bfs.Repr, blockBuffer, preloadMap[key]
      ensures Valid() && fresh(bfs.Repr - old(bfs.Repr)) && blockBuffer !in bfs.Repr && Coherent(bfs.Abs())
      ensures Quiet(old(bfs.Abs()), bfs.Abs())
      ensures Others(Slots(bfs.Abs()), preloadMap[key].pblocks)
           == old(Others(Slots(bfs.Abs()), preloadMap[key].pblocks))
      ensures bfs.table.blocksize > 0 &&
        var id := BlockId(bfs.table.blocksize, cur);
        AsPlanned(bfs.Abs().up || !NeedsWorker(old(HeldOf(preloadMap[key].pblocks)), id, th),
                  HeldOf(preloadMap[key].pblocks), Round(old(HeldOf(preloadMap[key].pblocks)), id, numBlocks, th))
      ensures RoundResult(bfs.table.blocksize, View(bfs.Abs(), preloadMap[key].path),
                          HeldOf(preloadMap[key].pblocks), cur, remain, blockBuffer[..], st, at, chunk)
    {
      hide BufferedFs.Wf, Shaped, Quiet, Coherent, HoldsBlock, Fine, Others, BlockId, RoundSound, View, HeldOf, Round,
           AsPlanned, Delivered, RoundResult, Slots, NeedsWorker, Stock, Owned, AllStart;
      BlockSizePositive();
      at := InBlock(bfs.table.blocksize, cur);
      chunk := Chunk(bfs.table.blocksize, at, remain);
      QuietReflexive(bfs.Abs());
      ghost var s := bfs.Abs();
      st := ReadPreload(key, blockBuffer, BlockId(bfs.table.blocksize, cur), th);
      QuietCoherent(s, bfs.Abs());
      if at + chunk > st {
        chunk := st - at;
      }
      DeliveredResult(bfs.Abs(), HeldOf(preloadMap[key].pblocks), preloadMap[key].path, cur, remain, blockBuffer[..],
                      st);
    }

    static lemma DeliveredResult(s: State, w: Held, p: Path, cur: nat, remain: nat, b: seq<Byte>, st: int)
      requires s.bs > 0 && remain > 0 && |b| == s.bs && Delivered(s, w, p, BlockId(s.bs, cur), b, st)
      ensures var at := InBlock(s.bs, cur); var c := Chunk(s.bs, at, remain);
        RoundResult(s.bs, View(s, p), w, cur, remain, b, st, at, if at + c > st then st - at else c)
    {
      hide BlockId, View, HoldsBlock, RoundSound;
      if st >= 0 && BlockId(s.bs, cur) in w {
        RoundFacts(s, p, cur, remain, b, st);
        HeldBytes(s, p, cur, b, st, 0);
      }
    }

    lemma BlockSizePositive()
      requires Base()
      ensures bfs.table.blocksize > 0
    {
    }

    /** iFusePreloadRead, the fallback: the whole read through the file's own descriptor. */
    method Fallback(key: nat, buf: array<Byte>, off: nat, size: nat) returns (n: int, wrapped: bool)
      requires Valid() && key in preloadMap && Coherent(bfs.Abs()) && size <= buf.Length && buf !in bfs.Repr
      requires key in bfs.Abs().open
      modifies bfs.Repr, buf
      ensures Valid() && fresh(bfs.Repr - old(bfs.Repr)) && buf !in bfs.Repr && Coherent(bfs.Abs())
      ensures Quiet(old(bfs.Abs()), bfs.Abs()) && bfs.Abs().open == old(bfs.Abs()).open
      ensures bfs.table.blocksize > 0 &&
        (Answered(bfs.table.blocksize, View(bfs.Abs(), bfs.Abs().open[key].path), off, size, n, wrapped, old(buf[..]),
                  buf[..])
         || (!bfs.Abs().up && !wrapped && n < 0))
    {
      hide BufferedFs.Wf, Shaped, Coherent, View, ReadSafe, Fine, Splice, BufferModel.Read, Slots;
      BlockSizePositive();
      ghost var s := bfs.Abs();
      ReadExact(s, key, off, size, Zeros(s.bs));
      n, wrapped := bfs.Read(key, buf, off, size);
      SameView(s, bfs.Abs(), s.open[key].path);
      OwnSlot(s, bfs.Abs(), key);
      FineOwn(Lists(), Slots(s), numBlocks, key, Slots(bfs.Abs()));
    }

    static lemma OwnSlot(s: State, s1: State, f: nat)
      requires f in s.open && s1 == s.(cache := s1.cache) && s1.cache - {f} == s.cache - {f}
      ensures f in Slots(s1) && Slots(s1) == Slots(s)[f := Slots(s1)[f]] && Slots(s1)[f].desc == Slots(s)[f].desc
    {
      forall g | g in s.open && g != f ensures Slots(s1)[g] == Slots(s)[g] {
        assert g in s.cache <==> g in s.cache - {f};
      }
    }

    static lemma SlotOthers(s: State, s1: State, bs: seq<PBlock>, bs1: seq<PBlock>)
      requires Others(Slots(s1), bs1) == Others(Slots(s), bs)
      ensures Others(s1.open, bs1) == Others(s.open, bs)
    {
      hide Slots, Others;
      SlotsOpen(s);
      SlotsOpen(s1);
      OthersDescs(Slots(s), bs);
      OthersDescs(Slots(s1), bs1);
    }

    static lemma SameView(s: State, s1: State, p: Path)
      requires s1.files == s.files && s1.delta == s.delta
      ensures View(s1, p) == View(s, p)
    {
    }

    /** What a read of the open file asks for, with the blocks `w` held. */
    ghost function Asked(key: nat, w: Held, th: Threads, off: nat, size: nat, before: seq<Byte>): Request
      requires Base() && key in preloadMap
      reads this, bfs, bfs.Repr, preloadMap.Values
    {
      Request(bfs.table.blocksize, numBlocks, bfs.Abs().up, View(bfs.Abs(), preloadMap[key].path), w, th, off, size,
              before)
    }

    /** iFusePreloadRead: the read is answered as the block cache answers one of the bytes before the first
        block that is neither held at its turn nor starts; that is the whole read if there is none, or if a
        block before it was found to have failed. So it is while the server is up, and while it is down as
        long as no block has to wait for its worker; but a read begun again may fail then. */
    method Read(key: nat, buf: array<Byte>, off: nat, size: nat, th: Threads) returns (n: int, wrapped: bool)
      requires Valid() && key in preloadMap && Coherent(bfs.Abs()) && size <= buf.Length && buf !in bfs.Repr
      modifies bfs.Repr, buf, preloadMap[key]
      ensures Valid() && fresh(bfs.Repr - old(bfs.Repr)) && buf !in bfs.Repr && Coherent(bfs.Abs())
      ensures Quiet(old(bfs.Abs()), bfs.Abs())
      ensures Others(bfs.Abs().open, preloadMap[key].pblocks) == old(Others(bfs.Abs().open, preloadMap[key].pblocks))
      ensures bfs.table.blocksize > 0
      ensures ReadResult(Asked(key, old(HeldOf(preloadMap[key].pblocks)), th, off, size, old(buf[..])),
                         HeldOf(preloadMap[key].pblocks), n, wrapped, buf[..])
    {
      hide BufferedFs.Wf, BufferedFs.Abs, Shaped, Quiet, Coherent, View, ReadSafe, Fine, Splice, RoundSound, SoFar,
           Others, Answered, HeldOf, Round, Walk, AsPlanned, RoundResult, ReadResult, OnTheWay, NeedsWorker, Slots,
           Sure;
      BlockSizePositive();
      var bs := bfs.table.blocksize;
      ghost var s := bfs.Abs();
      ghost var rq := Asked(key, HeldOf(preloadMap[key].pblocks), th, off, size, buf[..]);
      ghost var done: seq<Byte>, plan, others := [], rq.held, Others(s.open, preloadMap[key].pblocks);
      var blockBuffer := Alloc(bs);
      var read: nat, remain: nat := 0, size;
      QuietReflexive(s);
      SpliceNothing(rq.before, 0);
      StartWay(rq);
      while remain > 0
        invariant Valid() && fresh(bfs.Repr - old(bfs.Repr)) && Coherent(bfs.Abs()) && Quiet(s, bfs.Abs())
        invariant buf !in bfs.Repr && blockBuffer !in bfs.Repr && blockBuffer.Length == bs
        invariant read + remain == size && read == |done|
        invariant View(bfs.Abs(), preloadMap[key].path) == rq.view
        invariant Others(bfs.Abs().open, preloadMap[key].pblocks) == others
        invariant buf[..] == Splice(rq.before, 0, done)
        invariant OnTheWay(rq, HeldOf(preloadMap[key].pblocks), plan, done)
      {
        ghost var s1, w, was := bfs.Abs(), HeldOf(preloadMap[key].pblocks), preloadMap[key].pblocks;
        var st, at, chunk := ReadChunk(key, blockBuffer, off + read, remain, th);
        QuietTransitive(s, s1, bfs.Abs());
        QuietView(s1, bfs.Abs(), preloadMap[key].path);
        SameUp(s, bfs.Abs());
        SlotOthers(s1, bfs.Abs(), was, preloadMap[key].pblocks);
        ghost var w1 := HeldOf(preloadMap[key].pblocks);
        ghost var b := blockBuffer[..];
        if st < 0 {
          KeyIsOpen(key);
          ghost var s2 := bfs.Abs();
          n, wrapped := Fallback(key, buf, off, size);
          QuietTransitive(s, s2, bfs.Abs());
          QuietView(s2, bfs.Abs(), preloadMap[key].path);
          SameUp(s, bfs.Abs());
          RoundFailed(rq, w, plan, done, w1, b, st, at, chunk, n, wrapped, buf[..]);
          return;
        }
        RoundStops(rq, w, plan, done, w1, b, st, at, chunk);
        if st == 0 || chunk == 0 { return read, false; }
        if chunk < 0 { return st, true; }
        RoundCopies(rq, w, plan, done, w1, b, st, at, chunk);
        ghost var bytes := blockBuffer[at..at + chunk];
        MemCopy(buf, read, blockBuffer[at..at + chunk]);
        SpliceAppend(rq.before, 0, done, bytes);
        done := done + bytes;
        plan := Round(plan, BlockId(bs, off + read), numBlocks, th);
        read, remain := read + chunk, remain - chunk;
        if st < bs { return read, false; }
      }
      SameUp(s, bfs.Abs());
      WayEnds(rq, HeldOf(preloadMap[key].pblocks), plan, done);
      n, wrapped := read, false;
    }

    static lemma QuietView(s: State, s1: State, p: Path)
      requires Quiet(s, s1)
      ensures View(s1, p) == View(s, p)
    {
    }

    static lemma SpliceNothing(b: seq<Byte>, off: nat)
      ensures Splice(b, off, []) == b
    {
    }

    lemma KeyIsOpen(key: nat)
      requires Valid() && key in preloadMap
      ensures key in bfs.Abs().open && bfs.Abs().open[key].path == preloadMap[key].path
    {
      SlotsOpen(bfs.Abs());
      FineOne(Lists(), Slots(bfs.Abs()), numBlocks, key);
    }

    /** _freePreload: every block's worker is waited for and its descriptor closed. */
    method FreeAll(path: Path, blocks: seq<PBlock>, ghost others: map<nat, Slot>)
      requires Base() && (forall b :: b in blocks ==> WellFormed(b)) && Ledger(blocks, path, Slots(bfs.Abs()), others)
      modifies bfs.Repr
      ensures Base() && fresh(bfs.Repr - old(bfs.Repr)) && Quiet(old(bfs.Abs()), bfs.Abs())
      ensures Slots(bfs.Abs()) == others
    {
      hide BufferedFs.Wf, BufferedFs.Abs, Shaped, Quiet, Ledger, Slots;
      var rest := blocks;
      QuietReflexive(bfs.Abs());
      while rest != []
        invariant Base() && fresh(bfs.Repr - old(bfs.Repr)) && Quiet(old(bfs.Abs()), bfs.Abs())
        invariant (forall b :: b in rest ==> WellFormed(b)) && Ledger(rest, path, Slots(bfs.Abs()), others)
        decreases |rest|
      {
        ghost var s := bfs.Abs();
        var b := rest[0];
        assert rest == [] + [b] + rest[1..];
        rest := rest[1..];
        assert [] + rest == rest;
        FreePBlock(path, b, [], rest, others);
        QuietTransitive(old(bfs.Abs()), s, bfs.Abs());
      }
      LedgerEmpty(path, Slots(bfs.Abs()), others);
    }

    /** Whatever the client did meanwhile: a block that is done is in the cache of its own descriptor. */
    lemma DoneIsCached(key: nat, b: PBlock)
      requires Valid() && key in preloadMap && b in preloadMap[key].pblocks && b.status == Completed
      ensures b.fd.Some? && b.fd.value in bfs.Abs().open && Hit(bfs.Abs(), b.fd.value, b.id)
    {
      hide DistinctIds, Slots;
      var s := bfs.Abs();
      SlotsOpen(s);
      assert ListFine(key, Lists()[key], Slots(s), numBlocks);
      var i :| 0 <= i < |preloadMap[key].pblocks| && preloadMap[key].pblocks[i] == b;
      SlotHit(s, b.fd.value, b.id);
    }

    /** A worker may run between any two calls. */
    method WorkerStep(key: nat, i: nat, works: bool)
      requires Valid() && key in preloadMap
      requires i < |preloadMap[key].pblocks| && preloadMap[key].pblocks[i].status == Running
      modifies bfs.Repr, preloadMap[key]
      ensures Valid() && fresh(bfs.Repr - old(bfs.Repr)) && Quiet(old(bfs.Abs()), bfs.Abs())
      ensures HeldOf(preloadMap[key].pblocks)
           == old(Waited(HeldOf(preloadMap[key].pblocks), preloadMap[key].pblocks[i].id,
                         works && Readable(bfs.Abs(), preloadMap[key].path, preloadMap[key].pblocks[i])))
      ensures Others(Slots(bfs.Abs()), preloadMap[key].pblocks)
           == old(Others(Slots(bfs.Abs()), preloadMap[key].pblocks))
    {
      hide BufferedFs.Wf, BufferedFs.Abs, Shaped, Quiet, Ledger, Slots, Ids, DistinctIds, Fine, HeldOf, Waited,
           Readable;
      var pl := preloadMap[key];
      ghost var s, lists := bfs.Abs(), Lists();
      ghost var bs, others := pl.pblocks, Others(Slots(s), pl.pblocks);
      FineOne(lists, Slots(s), numBlocks, key);
      assert bs == bs[..i] + [bs[i]] + bs[i + 1..];
      LedgerFreed(pl.path, Slots(s), bs[..i], bs[i], bs[i + 1..], others);
      var b := RunTask(pl.path, pl.pblocks[i], works);
      LedgerRan(s, bfs.Abs(), pl.path, bs[..i], bs[i], bs[i + 1..], b, others);
      ghost var blocks := bs[i := b];
      assert blocks == bs[..i] + [b] + bs[i + 1..];
      SameIdsSame(bs, blocks);
      WaitedFor(s, pl.path, bs, i, b, works);
      FineUpdate(lists, Slots(s), numBlocks, key, blocks, Slots(bfs.Abs()));
      LedgerOthers(blocks, pl.path, Slots(bfs.Abs()), others);
      pl.pblocks := pl.pblocks[i := b];
      assert Lists() == lists[key := lists[key].(blocks := blocks)];
    }

    /** A write goes straight to the block cache, under the prefetching. */
    method Write(key: nat, buf: array<Byte>, off: nat, size: nat) returns (n: int)
      requires Valid() && key in bfs.Abs().open && size <= buf.Length && buf !in bfs.Repr
      requires off + size <= Limit(bfs.table.blocksize)
      modifies bfs.Repr
      ensures Valid() && fresh(bfs.Repr - old(bfs.Repr))
      ensures (bfs.Abs(), n) == BufferModel.Write(old(bfs.Abs()), key, off, buf[..size])
    {
      hide BufferedFs.Wf, Shaped, Fine, BufferModel.Write, Slots;
      WriteSlots(bfs.Abs(), key, off, buf[..size]);
      n := bfs.Write(key, buf, off, size);
    }

    static lemma CreateSlots(s: State, p: Path)
      ensures Slots(BufferModel.Create(s, p).0) == Slots(s)
    {
    }

    /** So does a flush, */
    method Flush(key: nat) returns (st: int)
      requires Valid() && key in bfs.Abs().open
      modifies bfs.Repr
      ensures Valid() && bfs.Repr == old(bfs.Repr)
      ensures (bfs.Abs(), st) == BufferModel.Flush(old(bfs.Abs()), key)
    {
      hide BufferedFs.Wf, Shaped, Fine, BufferModel.FlushDelta, Slots;
      FlushDeltaShaped(bfs.Abs(), key);
      FlushDeltaSlots(bfs.Abs(), key);
      st := bfs.Flush(key);
    }

    /** and the creation of a file. */
    method Create(path: Path) returns (st: int)
      requires Valid()
      modifies bfs.Repr
      ensures Valid() && bfs.Repr == old(bfs.Repr)
      ensures (bfs.Abs(), st) == BufferModel.Create(old(bfs.Abs()), path)
    {
      hide BufferedFs.Wf, Shaped, Fine, Slots;
      CreateSlots(bfs.Abs(), path);
      st := bfs.Create(path);
    }

    /** iFusePreloadClose. While the server is down a pending write makes it fail, and then nothing is freed. */
    method Close(key: nat) returns (st: int)
      requires Valid() && key in preloadMap
      modifies this, bfs.Repr
      ensures Valid() && fresh(bfs.Repr - old(bfs.Repr))
      ensures preloadMap == if st < 0 then old(preloadMap) else old(preloadMap) - {key}
      ensures Closed(old(bfs.Abs()), bfs.Abs(), key, old(Lists()), st)
    {
      hide BufferedFs.Wf, Shaped, Quiet, Ledger, Fine, Others, BufferModel.Close, Slots;
      ghost var s, lists := bfs.Abs(), Lists();
      SlotsOpen(s);
      FineOne(lists, Slots(s), numBlocks, key);
      st := bfs.Close(key);
      CloseSlots(s, key);
      QuietReflexive(bfs.Abs());
      SlotsOpen(bfs.Abs());
      if st < 0 { return; }
      Release(key, Slots(s), lists);
      ReleasedOpen(s, bfs.Abs(), lists[key].blocks, key);
    }

    static lemma ReleasedOpen(s: State, s1: State, bs: seq<PBlock>, key: nat)
      requires Slots(s1) == Others(Slots(s), bs) - {key}
      ensures s1.open == Others(s.open, bs) - {key}
    {
      hide Slots, Others;
      SlotsOpen(s);
      SlotsOpen(s1);
      OthersDescs(Slots(s), bs);
      var others := Others(Slots(s), bs);
      assert Descs(others - {key}) == Descs(others) - {key};
    }

    /** The file's own descriptor is closed; its prefetch blocks go with it. */
    method Release(key: nat, ghost open: map<nat, Slot>, ghost lists: map<nat, PList>)
      requires Base() && key in preloadMap && lists == Lists() && Fine(lists, open, numBlocks)
      requires (forall k :: k in preloadMap ==> preloadMap[k].fdId == k) && Slots(bfs.Abs()) == open - {key}
      modifies this, bfs.Repr
      ensures Valid() && fresh(bfs.Repr - old(bfs.Repr))
      ensures preloadMap == old(preloadMap) - {key}
      ensures Slots(bfs.Abs()) == Others(open, lists[key].blocks) - {key}
      ensures Quiet(old(bfs.Abs()), bfs.Abs())
    {
      hide BufferedFs.Wf, BufferedFs.Abs, Shaped, Quiet, Ledger, Slots, Fine, Others;
      var pl := preloadMap[key];
      FineOne(lists, open, numBlocks, key);
      LedgerMinus(pl.pblocks, pl.path, open, key, lists, numBlocks);
      FreeAll(pl.path, pl.pblocks, Others(open, pl.pblocks) - {key});
      FineRemoved(lists, open, numBlocks, key, Slots(bfs.Abs()));
      preloadMap := preloadMap - {key};
      assert Lists() == lists - {key};
    }

    /** iFusePreloadOpen: starts the first blocks of the file. */
    method StartFirst(path: Path, th: Threads, ghost others: map<nat, Slot>) returns (blocks: seq<PBlock>)
      requires Base() && others == Slots(bfs.Abs())
      modifies bfs.Repr
      ensures Base() && fresh(bfs.Repr - old(bfs.Repr)) && Quiet(old(bfs.Abs()), bfs.Abs())
      ensures Ledger(blocks, path, Slots(bfs.Abs()), others)
      ensures (forall b :: b in blocks ==> WellFormed(b)) && DistinctIds(blocks) && |blocks| <= numBlocks
      ensures HeldOf(blocks) == First(numBlocks, th)
    {
      hide BufferedFs.Wf, BufferedFs.Abs, Shaped, Quiet, Ledger, Slots, DistinctIds, WellFormed, Ids, HeldOf, First;
      blocks := [];
      QuietReflexive(bfs.Abs());
      LedgerFresh(path, others);
      NoIds();
      HeldNothing();
      FirstNone(th);
      for i := 0 to numBlocks
        invariant Base() && fresh(bfs.Repr - old(bfs.Repr)) && Quiet(old(bfs.Abs()), bfs.Abs())
        invariant Ledger(blocks, path, Slots(bfs.Abs()), others)
        invariant (forall b :: b in blocks ==> WellFormed(b)) && DistinctIds(blocks) && |blocks| <= i
        invariant (forall x :: x in Ids(blocks) ==> x < i) && HeldOf(blocks) == First(i, th)
      {
        ghost var was, s := blocks, bfs.Abs();
        assert blocks + [] == blocks;
        var none;
        ghost var b := NewBlock(i, []);
        blocks, none := StartPreload(path, i, blocks, [], th.starts(0, i), others);
        QuietTransitive(old(bfs.Abs()), s, bfs.Abs());
        assert blocks + none == blocks;
        NewWellFormed(b);
        IdsAppend(was, b);
        StartHeld(was, b);
        FirstMore(i, th);
      }
    }

    /** iFusePreloadOpen; prefetching starts with the first blocks if the file may be read. */
    method Open(path: Path, readable: bool, writable: bool, th: Threads) returns (fd: int)
      requires Valid()
      modifies this, bfs.Repr
      ensures Valid() && fresh(bfs.Repr - old(bfs.Repr))
      ensures preloadMap.Keys == old(preloadMap).Keys + (if fd < 0 then {} else {fd})
      ensures old(preloadMap) == preloadMap - {fd}
      ensures Opened(old(bfs.Abs()), bfs.Abs(), path, writable, fd, Lists())
      ensures fd >= 0 ==> fresh(preloadMap[fd])
      ensures fd >= 0 ==> HeldOf(preloadMap[fd].pblocks) == if readable then First(numBlocks, th) else map[]
    {
      hide BufferedFs.Wf, Shaped, Quiet, Ledger, Fine, Others, BufferModel.Open, Slots;
      SlotsOpen(bfs.Abs());
      ghost var s, lists := bfs.Abs(), Lists();
      fd := bfs.Open(path, writable);
      OpenOpen(s, path, writable);
      QuietReflexive(bfs.Abs());
      if fd < 0 { return; }
      NewList(fd, path, readable, writable, th, Slots(s), lists);
      AddedOpen(s, bfs.Abs(), preloadMap[fd].pblocks, fd, Desc(path, writable));
    }

    static lemma AddedOpen(s: State, s1: State, bs: seq<PBlock>, fd: nat, d: Desc)
      requires Others(Slots(s1), bs) == Slots(s)[fd := Slot(d, None)]
      ensures Others(s1.open, bs) == s.open[fd := d]
    {
      hide Slots, Others;
      SlotsOpen(s);
      SlotsOpen(s1);
      OthersDescs(Slots(s1), bs);
      assert Descs(Slots(s)[fd := Slot(d, None)]) == Descs(Slots(s))[fd := d];
    }

    /** A list for a newly opened file. */
    method NewList(fd: nat, path: Path, readable: bool, writable: bool, th: Threads, ghost open: map<nat, Slot>,
                   ghost lists: map<nat, PList>)
      requires Base() && fd !in open && lists == Lists() && Fine(lists, open, numBlocks)
      requires forall k :: k in preloadMap ==> preloadMap[k].fdId == k
      requires Slots(bfs.Abs()) == open[fd := Slot(Desc(path, writable), None)]
      modifies this, bfs.Repr
      ensures Valid() && fresh(bfs.Repr - old(bfs.Repr)) && fd !in old(preloadMap)
      ensures preloadMap.Keys == old(preloadMap).Keys + {fd} && preloadMap - {fd} == old(preloadMap)
      ensures preloadMap[fd].path == path && |preloadMap[fd].pblocks| <= numBlocks
      ensures Others(Slots(bfs.Abs()), preloadMap[fd].pblocks) == open[fd := Slot(Desc(path, writable), None)]
      ensures fresh(preloadMap[fd])
      ensures HeldOf(preloadMap[fd].pblocks) == if readable then First(numBlocks, th) else map[]
      ensures Quiet(old(bfs.Abs()), bfs.Abs())
    {
      hide BufferedFs.Wf, BufferedFs.Abs, Shaped, Quiet, Ledger, Slots, Fine, Others;
      ghost var open1 := Slots(bfs.Abs());
      QuietReflexive(bfs.Abs());
      var blocks: seq<PBlock> := [];
      if readable {
        blocks := StartFirst(path, th, open1);
      } else {
        LedgerFresh(path, open1);
        HeldNothing();
      }
      LedgerOthers(blocks, path, Slots(bfs.Abs()), open1);
      FineAdded(lists, open, numBlocks, fd, Slot(Desc(path, writable), None), blocks, Slots(bfs.Abs()));
      Insert(fd, path, blocks, lists);
    }

    method Insert(fd: nat, path: Path, blocks: seq<PBlock>, ghost lists: map<nat, PList>)
      requires Base() && lists == Lists() && fd !in preloadMap
      requires Fine(lists[fd := PList(path, blocks)], Slots(bfs.Abs()), numBlocks)
      requires forall k :: k in preloadMap ==> preloadMap[k].fdId == k
      modifies this
      ensures Valid() && unchanged(bfs) && unchanged(bfs.Repr)
      ensures preloadMap.Keys == old(preloadMap).Keys + {fd} && preloadMap - {fd} == old(preloadMap)
      ensures preloadMap[fd].path == path && preloadMap[fd].pblocks == blocks && fresh(preloadMap[fd])
    {
      hide BufferedFs.Wf, BufferedFs.Abs, Fine;
      var pl := new Preload(fd, path, blocks);
      preloadMap := preloadMap[fd := pl];
      assert forall k :: k in preloadMap && k != fd ==> preloadMap[k] == old(preloadMap)[k];
      assert Lists() == lists[fd := PList(path, blocks)];
    }
  }
}
