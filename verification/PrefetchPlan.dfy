/** Prefetching by block number: which blocks a reader holds, and how far a read gets when the threads of
    some blocks do not start. */
module PrefetchPlan {
  import opened Bytes
  import opened Blocks
  import opened BufferModel
  import opened Prefetch

  /** The blocks held, and how far their workers are. */
  type Held = map<nat, Status>

  /** What the threads of one call meet. `starts(r, x)`: when the reader is at block `r` and a thread is
      wanted for block `x`, it starts. `works(r, x)`: if the worker of block `x` runs only when the reader,
      at block `r`, waits for it, it meets no failure of its own. */
  datatype Threads = Threads(starts: (nat, nat) -> bool, works: (nat, nat) -> bool)

  // ---------- the list and what it holds ----------

  ghost function StatusOf(bs: seq<PBlock>, x: nat): Status
    requires x in Ids(bs)
  {
    var b :| b in bs && b.id == x;
    b.status
  }

  ghost function HeldOf(bs: seq<PBlock>): Held { map x | x in Ids(bs) :: StatusOf(bs, x) }

  lemma HeldIs(bs: seq<PBlock>, w: Held)
    requires DistinctIds(bs) && w.Keys == Ids(bs) && forall b :: b in bs ==> w[b.id] == b.status
    ensures HeldOf(bs) == w
  {
  }

  lemma HeldBlock(bs: seq<PBlock>, b: PBlock)
    requires DistinctIds(bs) && b in bs
    ensures b.id in HeldOf(bs) && HeldOf(bs)[b.id] == b.status
  {
    var c :| c in bs && c.id == b.id && HeldOf(bs)[b.id] == c.status;
    var i :| 0 <= i < |bs| && bs[i] == b;
    var j :| 0 <= j < |bs| && bs[j] == c;
    assert i == j;
  }

  lemma HeldNothing()
    ensures HeldOf([]) == map[]
  {
  }

  lemma HeldAppend(bs: seq<PBlock>, b: PBlock)
    requires DistinctIds(bs) && b.id !in Ids(bs)
    ensures HeldOf(bs + [b]) == HeldOf(bs)[b.id := b.status]
  {
    hide HeldOf, DistinctIds;
    IdsAppend(bs, b);
    HeldKeys(bs);
    forall c | c in bs + [b] ensures HeldOf(bs)[b.id := b.status][c.id] == c.status {
      if c in bs { HeldBlock(bs, c); }
    }
    HeldIs(bs + [b], HeldOf(bs)[b.id := b.status]);
  }

  lemma HeldKeys(bs: seq<PBlock>)
    ensures HeldOf(bs).Keys == Ids(bs) && forall b :: b in bs ==> b.id in HeldOf(bs)
  {
  }

  lemma HeldUpdate(bs: seq<PBlock>, i: nat, b: PBlock)
    requires DistinctIds(bs) && i < |bs| && b.id == bs[i].id
    ensures HeldOf(bs[i := b]) == HeldOf(bs)[b.id := b.status]
  {
    hide HeldOf;
    SameIdsSame(bs, bs[i := b]);
    HeldKeys(bs);
    assert bs[i] in bs;
    forall c | c in bs[i := b] ensures HeldOf(bs)[b.id := b.status][c.id] == c.status {
      var j :| 0 <= j < |bs| && bs[i := b][j] == c;
      if j != i { HeldBlock(bs, bs[j]); }
    }
    HeldIs(bs[i := b], HeldOf(bs)[b.id := b.status]);
  }

  // ---------- one round, as _readPreload goes about it ----------

  /** The blocks that do not leave. */
  ghost function Kept(w: Held, id: nat, n: nat): Held { map x | x in w && !Stale(n, id, x) :: w[x] }

  lemma HeldKept(bs: seq<PBlock>, kept: seq<PBlock>, id: nat, n: nat)
    requires DistinctIds(bs) && DistinctIds(kept)
    requires forall b :: b in kept <==> b in bs && !Stale(n, id, b.id)
    ensures HeldOf(kept) == Kept(HeldOf(bs), id, n)
  {
    hide HeldOf, DistinctIds, Stale;
    HeldKeys(bs);
    var w := Kept(HeldOf(bs), id, n);
    forall b | b in kept ensures b.id in w && w[b.id] == b.status { HeldBlock(bs, b); }
    forall x | x in w ensures x in Ids(kept) {
      var b :| b in bs && b.id == x;
      assert b in kept;
    }
    HeldIs(kept, w);
  }

  /** The reader's block is started if it is not there, */
  ghost function Tried(w: Held, id: nat, starts: bool): Held
  {
    if id !in w && starts then w[id := Running] else w
  }

  /** its worker is waited for, */
  ghost function Waited(w: Held, id: nat, works: bool): Held
  {
    if id in w then w[id := Outcome(w[id], works)] else w
  }

  ghost function NextOf(id: nat, i: nat): set<nat> { set k | 1 <= k <= i :: Ahead(id, k) }

  /** and the missing ones of the next `i` blocks are started. */
  ghost function Filled(w: Held, id: nat, i: nat, th: Threads): Held
  {
    map x | x in w.Keys + NextOf(id, i) && (x in w || th.starts(id, x)) :: if x in w then w[x] else Running
  }

  lemma FilledNone(w: Held, id: nat, th: Threads)
    ensures Filled(w, id, 0, th) == w
  {
    assert NextOf(id, 0) == {};
  }

  lemma FilledKeeps(w: Held, id: nat, i: nat, th: Threads)
    ensures forall x :: x in w ==> x in Filled(w, id, i, th)
  {
  }

  lemma FilledMore(w: Held, id: nat, i: nat, th: Threads)
    ensures var x, w1 := Ahead(id, i + 1), Filled(w, id, i, th);
      Filled(w, id, i + 1, th) == if x !in w1 && th.starts(id, x) then w1[x := Running] else w1
  {
    hide Ahead;
    assert NextOf(id, i + 1) == NextOf(id, i) + {Ahead(id, i + 1)};
  }

  lemma NotAhead(id: nat, i: nat)
    requires id < BLOCK_IDS && i < BLOCK_IDS
    ensures id !in NextOf(id, i)
  {
    hide Ahead;
    AheadNone(id);
    forall k | 1 <= k <= i ensures Ahead(id, k) != id { AheadDistinct(id, 0, k); }
  }

  lemma AheadNone(id: nat)
    requires id < BLOCK_IDS
    ensures Ahead(id, 0) == id
  {
  }

  /** The first blocks of a file, started when it is opened; the threads meet what they would with the
      reader at block 0. */
  ghost function First(n: nat, th: Threads): Held { map x: nat | 0 <= x < n && th.starts(0, x) :: Running }

  lemma FirstNone(th: Threads)
    ensures First(0, th) == map[]
  {
  }

  lemma FirstMore(n: nat, th: Threads)
    ensures First(n + 1, th) == if th.starts(0, n) then First(n, th)[n := Running] else First(n, th)
  {
  }

  // ---------- one round, at a glance ----------

  predicate Stays(w: Held, id: nat, n: nat, x: nat) { x in w && !Stale(n, id, x) }

  /** After a reader asked for block `id`: of the blocks wanted there, those it held or whose threads
      started; its own is done or has failed. */
  ghost function Round(w: Held, id: nat, n: nat, th: Threads): Held
  {
    map x | x in Window(id, n) && (Stays(w, id, n, x) || th.starts(id, x)) ::
      var st := if Stays(w, id, n, x) then w[x] else Running;
      if x == id then Outcome(st, th.works(id, id)) else st
  }

  lemma StaysWanted(w: Held, id: nat, n: nat, x: nat)
    requires Stays(w, id, n, x) && x < BLOCK_IDS && id < BLOCK_IDS && n < BLOCK_IDS
    ensures x in Window(id, n)
  {
    AheadOrStale(n, id, x);
    assert Ahead(id, x - id) == x;
  }

  lemma WindowParts(id: nat, n: nat)
    requires id < BLOCK_IDS && n < BLOCK_IDS
    ensures Window(id, n) == {id} + NextOf(id, n) && id !in NextOf(id, n) && !Stale(n, id, id)
  {
    hide Ahead;
    NotAhead(id, n);
    AheadNone(id);
  }

  /** What _readPreload does step by step comes to that. */
  lemma RoundSteps(w: Held, id: nat, n: nat, th: Threads)
    requires id < BLOCK_IDS && n < BLOCK_IDS && forall x :: x in w ==> x < BLOCK_IDS
    ensures Filled(Waited(Tried(Kept(w, id, n), id, th.starts(id, id)), id, th.works(id, id)), id, n, th)
         == Round(w, id, n, th)
  {
    hide Window, NextOf, Stale;
    WindowParts(id, n);
    forall x | x in w && !Stale(n, id, x) ensures x in Window(id, n) { StaysWanted(w, id, n, x); }
  }

  /** If every missing block's thread starts, the window is full. */
  lemma RoundFull(w: Held, id: nat, n: nat, th: Threads)
    requires forall x :: x in Window(id, n) && !Stays(w, id, n, x) ==> th.starts(id, x)
    ensures Round(w, id, n, th).Keys == Window(id, n)
  {
  }

  /** The reader's block waits for its worker: it was not done when the reader came to it. */
  ghost predicate NeedsWorker(w: Held, id: nat, th: Threads)
  {
    if id in w then w[id] == Running else th.starts(id, id)
  }

  /** Unless it is sure, a worker may have failed that would have read its block. */
  ghost predicate AsPlanned(sure: bool, w: Held, plan: Held)
  {
    && w.Keys == plan.Keys
    && forall x :: x in w ==> w[x] == plan[x] || (!sure && w[x] == TaskFailed && plan[x] == Completed)
  }

  lemma AsPlannedTwice(sure: bool, w: Held, w1: Held, w2: Held)
    requires AsPlanned(sure, w, w1) && AsPlanned(sure, w1, w2)
    ensures AsPlanned(sure, w, w2)
  {
  }

  lemma RoundPlanned(sure: bool, w: Held, plan: Held, id: nat, n: nat, th: Threads)
    requires AsPlanned(sure, w, plan)
    ensures AsPlanned(sure, Round(w, id, n, th), Round(plan, id, n, th))
  {
    hide Window, Stale;
  }

  lemma FilledPlanned(sure: bool, w: Held, plan: Held, id: nat, n: nat, th: Threads)
    requires AsPlanned(sure, w, plan)
    ensures AsPlanned(sure, Filled(w, id, n, th), Filled(plan, id, n, th))
  {
    hide NextOf;
  }

  // ---------- a whole read ----------

  /** Where a read of prefetched blocks ends: the blocks held then, and of how many bytes the answer is that
      of a read without prefetching. `again`: it came to a block whose worker failed, and was begun again
      without prefetching. `unaided`: it came to no block that had to wait for its worker. */
  datatype Reach = Reach(held: Held, got: nat, again: bool, unaided: bool)

  /** iFusePreloadRead of a file `view`: it gets to the first block that is neither held nor started, or to
      its end. */
  ghost function Walk(bs: nat, n: nat, view: seq<Byte>, w: Held, off: nat, size: nat, th: Threads): Reach
    requires bs > 0
    decreases size
  {
    if size == 0 then Reach(w, 0, false, true)
    else
      var id, at := BlockId(bs, off), InBlock(bs, off);
      var w1, unaided := Round(w, id, n, th), !NeedsWorker(w, id, th);
      if id !in w1 then Reach(w1, 0, false, unaided)
      else if w1[id] != Completed then Reach(w1, size, true, unaided)
      else if |Slice(view, BlockStart(bs, id), bs)| < bs || at >= bs then Reach(w1, size, false, unaided)
      else
        var c := Min(bs - at, size);
        var rest := Walk(bs, n, view, w1, off + c, size - c, th);
        Reach(rest.held, c + rest.got, rest.again, unaided && rest.unaided)
  }

  lemma WalkNone(bs: nat, n: nat, view: seq<Byte>, w: Held, off: nat, th: Threads)
    requires bs > 0
    ensures Walk(bs, n, view, w, off, 0, th) == Reach(w, 0, false, true)
  {
  }

  lemma WalkRound(bs: nat, n: nat, view: seq<Byte>, w: Held, off: nat, size: nat, th: Threads)
    requires bs > 0 && size > 0
    ensures var id, at := BlockId(bs, off), InBlock(bs, off);
      var w1 := Round(w, id, n, th); var len := |Slice(view, BlockStart(bs, id), bs)|;
      var here := Walk(bs, n, view, w, off, size, th); var unaided := !NeedsWorker(w, id, th);
      && (id !in w1 ==> here == Reach(w1, 0, false, unaided))
      && (id in w1 && w1[id] != Completed ==> here == Reach(w1, size, true, unaided))
      && (id in w1 && w1[id] == Completed && (len < bs || at >= bs) ==> here == Reach(w1, size, false, unaided))
      && (id in w1 && w1[id] == Completed && len == bs && at < bs ==>
            var c := Min(bs - at, size); var rest := Walk(bs, n, view, w1, off + c, size - c, th);
            0 < c <= size && here == Reach(rest.held, c + rest.got, rest.again, unaided && rest.unaided))
  {
    hide Round, BlockId, Slice, NeedsWorker;
  }

  /** It ends at the start of a block, if it does not end where it began or at its end. */
  lemma {:induction false} WalkEnds(bs: nat, n: nat, view: seq<Byte>, w: Held, off: nat, size: nat, th: Threads)
    requires bs > 0
    ensures var reach := Walk(bs, n, view, w, off, size, th); var got := reach.got;
      && got <= size && (reach.again ==> got == size)
      && (got == 0 || got == size || ((off + got) % bs == 0 && off + got <= |view|))
    decreases size
  {
    hide Round, BlockId, Walk, Slice, NeedsWorker;
    if size == 0 {
      WalkNone(bs, n, view, w, off, th);
    } else {
      var id, at := BlockId(bs, off), InBlock(bs, off);
      WalkRound(bs, n, view, w, off, size, th);
      var w1 := Round(w, id, n, th);
      if id in w1 && w1[id] == Completed && |Slice(view, BlockStart(bs, id), bs)| == bs && at < bs {
        var c := Min(bs - at, size);
        WalkEnds(bs, n, view, w1, off + c, size - c, th);
        if c < size {
          BlockEnd(bs, off, c);
          FullBlock(bs, view, off);
        }
      }
    }
  }

  lemma FullBlock(bs: nat, view: seq<Byte>, off: nat)
    requires bs > 0 && |Slice(view, BlockStart(bs, BlockId(bs, off)), bs)| == bs && InBlock(bs, off) < bs
    ensures BlockStart(bs, BlockId(bs, off)) + bs <= |view| && off < |view|
  {
    hide BlockId;
    BlockStartBelow(bs, off);
  }

  // ---------- when a read is whole ----------

  /** A reader that begins at block `first` has block `k` at its turn: it held it from the start, or its
      thread started at some block on the way. */
  ghost predicate AtTurn(w: Held, n: nat, first: nat, k: nat, th: Threads)
  {
    (k in w && k <= first + n) || exists r :: first <= r <= k <= r + n && th.starts(r, k)
  }

  /** It has the block but finds that its worker failed. */
  ghost predicate FailsAtTurn(w: Held, n: nat, first: nat, k: nat, th: Threads)
  {
    AtTurn(w, n, first, k, th)
    && Outcome(if k in w && k <= first + n then w[k] else Running, th.works(k, k)) != Completed
  }

  lemma OwnTurn(w: Held, n: nat, first: nat, th: Threads)
    requires first + n < BLOCK_IDS
    ensures var w1 := Round(w, first, n, th);
      && (first in w1 <==> AtTurn(w, n, first, first, th))
      && (first in w1 && w1[first] != Completed <==> FailsAtTurn(w, n, first, first, th))
  {
    WindowIs(first, n);
    hide Window;
    assert AtTurn(w, n, first, first, th) <==> first in w || th.starts(first, first);
  }

  lemma NextTurns(w: Held, n: nat, first: nat, k: nat, th: Threads)
    requires first + n < BLOCK_IDS && first < k
    ensures var w1 := Round(w, first, n, th);
      && (AtTurn(w1, n, first + 1, k, th) <==> AtTurn(w, n, first, k, th))
      && (FailsAtTurn(w1, n, first + 1, k, th) <==> FailsAtTurn(w, n, first, k, th))
  {
    WindowIs(first, n);
    hide Window;
    var w1 := Round(w, first, n, th);
    assert k in w1 <==> k <= first + n && (k in w || th.starts(first, k));
    if AtTurn(w, n, first, k, th) && !(k in w && k <= first + n) {
      var r :| first <= r <= k <= r + n && th.starts(r, k);
      assert r == first ==> k in w1;
    }
    if AtTurn(w1, n, first + 1, k, th) && !(k in w1 && k <= first + 1 + n) {
      var r :| first + 1 <= r <= k <= r + n && th.starts(r, k);
    }
  }

  /** Some of the bytes asked for are in block `k`. */
  predicate Needed(bs: nat, view: seq<Byte>, off: nat, size: nat, k: nat)
  {
    Max(off, BlockStart(bs, k)) < Min(|view|, Min(off + size, BlockStart(bs, k) + bs))
  }

  /** Every block the answer needs is there at its turn, or comes after one whose worker failed. */
  ghost predicate Whole(bs: nat, n: nat, view: seq<Byte>, w: Held, off: nat, size: nat, th: Threads)
    requires bs > 0
  {
    forall k :: off / bs <= k && Needed(bs, view, off, size, k) ==> Served(w, n, off / bs, k, th)
  }

  ghost predicate Served(w: Held, n: nat, first: nat, k: nat, th: Threads)
  {
    AtTurn(w, n, first, k, th) || exists j :: first <= j < k && FailsAtTurn(w, n, first, j, th)
  }

  lemma NeededFirst(bs: nat, view: seq<Byte>, off: nat, size: nat)
    requires bs > 0 && size > 0
    ensures Needed(bs, view, off, size, off / bs) <==> off < |view|
    ensures BlockStart(bs, off / bs) <= off < BlockStart(bs, off / bs) + bs
  {
    DivBounds(bs, off);
  }

  lemma NeededLater(bs: nat, view: seq<Byte>, off: nat, size: nat, k: nat)
    requires bs > 0 && off / bs < k && Needed(bs, view, off, size, k)
    ensures var next := BlockStart(bs, off / bs) + bs; next < |view| && next < off + size
  {
    MulCompare(off / bs, k, bs);
  }

  lemma NeededNext(bs: nat, view: seq<Byte>, off: nat, size: nat, c: nat, k: nat)
    requires bs > 0 && off / bs < k && c <= size && off + c == BlockStart(bs, off / bs) + bs
    ensures Needed(bs, view, off + c, size - c, k) <==> Needed(bs, view, off, size, k)
  {
    MulCompare(off / bs, k, bs);
  }

  lemma ServedNext(w: Held, n: nat, first: nat, k: nat, th: Threads)
    requires first + n < BLOCK_IDS && first < k && !FailsAtTurn(w, n, first, first, th)
    ensures Served(Round(w, first, n, th), n, first + 1, k, th) <==> Served(w, n, first, k, th)
  {
    hide AtTurn, FailsAtTurn, Round;
    var w1 := Round(w, first, n, th);
    NextTurns(w, n, first, k, th);
    if j: nat :| first <= j < k && FailsAtTurn(w, n, first, j, th) {
      NextTurns(w, n, first, j, th);
      assert FailsAtTurn(w1, n, first + 1, j, th);
    }
    var next := first + 1;
    if j: nat :| next <= j < k && FailsAtTurn(w1, n, next, j, th) {
      NextTurns(w, n, first, j, th);
      assert FailsAtTurn(w, n, first, j, th);
    }
  }

  lemma SliceMore(view: seq<Byte>, off: nat, c: nat, a: nat, b: nat)
    requires off + c <= |view|
    ensures Slice(view, off, c + a) == Slice(view, off, c + b) <==> Slice(view, off + c, a) == Slice(view, off + c, b)
  {
    hide Slice;
    SliceSplit(view, off, c, a);
    SliceSplit(view, off, c, b);
  }

  lemma SliceFirst(view: seq<Byte>, off: nat, size: nat)
    requires size > 0
    ensures Slice(view, off, 0) == Slice(view, off, size) <==> |view| <= off
  {
  }

  /** Where the read goes on is the next block. */
  lemma Onward(bs: nat, off: nat, size: nat)
    requires bs > 0 && size > 0 && off < Limit(bs)
    ensures InBlock(bs, off) < bs && BlockId(bs, off) == off / bs
    ensures var c := Min(bs - InBlock(bs, off), size);
      && off + c <= BlockStart(bs, off / bs) + bs
      && (c < size ==> off + c == BlockStart(bs, off / bs) + bs && (off + c) / bs == off / bs + 1)
  {
    BlockBelowLimit(bs, off);
    var k := off / bs;
    MulCompare(k, k + 1, bs);
    DivUnique(bs, (k + 1) * bs, k + 1);
  }

  lemma BelowAll(bs: nat, n: nat, off: nat, size: nat)
    requires bs > 0 && size > 0 && (off + size - 1) / bs + n < BLOCK_IDS
    ensures off < Limit(bs) && off / bs + n < BLOCK_IDS
  {
    DivBelow(bs, off + size - 1, BLOCK_IDS);
    DivBounds(bs, off);
    DivBelow(bs, off, (off + size - 1) / bs + 1);
    DivBounds(bs, off + size - 1);
    MulCompare((off + size - 1) / bs, (off + size - 1) / bs + 1, bs);
  }

  /** A read that stops or ends in its first block. */
  lemma WholeHere(bs: nat, n: nat, view: seq<Byte>, w: Held, off: nat, size: nat, th: Threads)
    requires bs > 0 && size > 0
    ensures !AtTurn(w, n, off / bs, off / bs, th) ==> (Whole(bs, n, view, w, off, size, th) <==> |view| <= off)
    ensures FailsAtTurn(w, n, off / bs, off / bs, th) ==> Whole(bs, n, view, w, off, size, th)
    ensures AtTurn(w, n, off / bs, off / bs, th)
      && (|Slice(view, BlockStart(bs, off / bs), bs)| < bs || off + size <= BlockStart(bs, off / bs) + bs)
      ==> Whole(bs, n, view, w, off, size, th)
  {
    hide Needed, AtTurn;
    NeededFirst(bs, view, off, size);
    var first := off / bs;
    forall k | first < k && Needed(bs, view, off, size, k)
      ensures BlockStart(bs, first) + bs < |view| && BlockStart(bs, first) + bs < off + size
      ensures FailsAtTurn(w, n, first, first, th) ==> Served(w, n, first, k, th)
    {
      NeededLater(bs, view, off, size, k);
    }
    if !AtTurn(w, n, first, first, th) { assert !Served(w, n, first, first, th); }
    if |view| <= off {
      forall k | first <= k ensures !Needed(bs, view, off, size, k) {
        if Needed(bs, view, off, size, k) { NeededInside(bs, view, off, size, k); }
      }
    }
  }

  lemma NeededInside(bs: nat, view: seq<Byte>, off: nat, size: nat, k: nat)
    requires bs > 0 && Needed(bs, view, off, size, k)
    ensures off < |view| && size > 0
  {
  }

  /** A read that goes on after its first block. */
  lemma WholeOnward(bs: nat, n: nat, view: seq<Byte>, w: Held, off: nat, size: nat, th: Threads, c: nat)
    requires bs > 0 && 0 < c < size && off / bs + n < BLOCK_IDS
    requires off + c == BlockStart(bs, off / bs) + bs && (off + c) / bs == off / bs + 1
    requires AtTurn(w, n, off / bs, off / bs, th) && !FailsAtTurn(w, n, off / bs, off / bs, th)
    ensures Whole(bs, n, view, w, off, size, th)
       <==> Whole(bs, n, view, Round(w, off / bs, n, th), off + c, size - c, th)
  {
    hide Needed, AtTurn, FailsAtTurn, Round, BlockStart;
    var first, w1, off1, size1 := off / bs, Round(w, off / bs, n, th), off + c, size - c;
    assert Served(w, n, first, first, th);
    forall k: nat | first < k
      ensures Needed(bs, view, off1, size1, k) <==> Needed(bs, view, off, size, k)
      ensures Served(w1, n, off1 / bs, k, th) <==> Served(w, n, first, k, th)
    {
      NeededNext(bs, view, off, size, c, k);
      ServedNext(w, n, first, k, th);
    }
  }

  lemma WholeNone(bs: nat, n: nat, view: seq<Byte>, w: Held, off: nat, th: Threads)
    requires bs > 0
    ensures Whole(bs, n, view, w, off, 0, th)
  {
    hide Needed, Served;
    forall k | off / bs <= k ensures !Needed(bs, view, off, 0, k) {
      if Needed(bs, view, off, 0, k) { NeededInside(bs, view, off, 0, k); }
    }
  }

  /** A read through prefetched blocks returns the bytes a plain read returns if and only if every block
      with bytes of the answer was held at the start, or its thread started, at its turn or while it was
      still ahead of the reader, or a block before it was found to have failed. */
  lemma {:induction false} WalkExact(bs: nat, n: nat, view: seq<Byte>, w: Held, off: nat, size: nat, th: Threads)
    requires bs > 0 && (size > 0 ==> (off + size - 1) / bs + n < BLOCK_IDS)
    ensures var got := Walk(bs, n, view, w, off, size, th).got;
      Slice(view, off, got) == Slice(view, off, size) <==> Whole(bs, n, view, w, off, size, th)
    decreases size
  {
    hide Round, Walk, Slice, Whole, AtTurn, FailsAtTurn, Limit, InBlock, BlockId, BlockStart, NeedsWorker;
    if size == 0 {
      WalkNone(bs, n, view, w, off, th);
      WholeNone(bs, n, view, w, off, th);
    } else {
      BelowAll(bs, n, off, size);
      Onward(bs, off, size);
      WalkRound(bs, n, view, w, off, size, th);
      OwnTurn(w, n, off / bs, th);
      SliceFirst(view, off, size);
      WholeHere(bs, n, view, w, off, size, th);
      var w1, c := Round(w, off / bs, n, th), Min(bs - InBlock(bs, off), size);
      if off / bs in w1 && w1[off / bs] == Completed && |Slice(view, BlockStart(bs, off / bs), bs)| == bs {
        FullBlock(bs, view, off);
        assert off + c <= |view|;
        WalkExact(bs, n, view, w1, off + c, size - c, th);
        if c < size { WholeOnward(bs, n, view, w, off, size, th, c); } else { WholeNone(bs, n, view, w1, off + c, th); }
        SliceMore(view, off, c, Walk(bs, n, view, w1, off + c, size - c, th).got, size - c);
      }
    }
  }
}
