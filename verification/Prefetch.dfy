/** The prefetch blocks of one open file, as values: which block numbers they cover and which
    descriptors they own. */
module Prefetch {
  import opened Bytes
  import opened Blocks
  import opened BufferModel
  import opened Options

  datatype Status = Running | Completed | TaskFailed | CreationFailed

  /** `fd` is the descriptor the block's worker reads through, once there is one. */
  datatype PBlock = PBlock(fd: Option<nat>, id: nat, status: Status, joined: bool)

  /** A worker that has not been joined may still be at work; a block that is done owns a descriptor. */
  predicate WellFormed(b: PBlock)
  {
    b.id < BLOCK_IDS && (b.status == Running ==> !b.joined) && (b.status == Completed ==> b.fd.Some?)
  }

  /** How a worker ends that is waited for. */
  function Outcome(st: Status, works: bool): Status
  {
    if st == Running then if works then Completed else TaskFailed else st
  }

  predicate Serving(s: State, p: Path) { s.up && p in s.files }

  /** A descriptor, and the number of the block it has cached. */
  datatype Slot = Slot(desc: Desc, block: Option<nat>)

  function CachedBlock(s: State, f: nat): Option<nat>
  {
    if s.bs > 0 && f in s.cache then Some(BlockId(s.bs, s.cache[f].block.off)) else None
  }

  ghost function Slots(s: State): map<nat, Slot> { map f | f in s.open :: Slot(s.open[f], CachedBlock(s, f)) }

  ghost function Descs(slots: map<nat, Slot>): map<nat, Desc> { map f | f in slots :: slots[f].desc }

  lemma SlotsOpen(s: State)
    ensures Descs(Slots(s)) == s.open && Slots(s).Keys == s.open.Keys
    ensures forall f :: f in s.open ==> Slots(s)[f].desc == s.open[f]
  {
  }

  /** What a slot says is cached is found there. */
  lemma SlotHit(s: State, f: nat, id: nat)
    requires Shaped(s) && f in s.open && id < BLOCK_IDS
    ensures Slots(s)[f].block == Some(id) <==> Hit(s, f, id)
  {
    hide BlockId, Limit;
    if f in s.cache {
      BlockOfStart(s.bs, id);
      BlockStartBelow(s.bs, s.cache[f].block.off);
    }
  }

  /** What a worker needs: a server that serves the file, or the block cached in the descriptor handed on. */
  ghost predicate Readable(s: State, path: Path, b: PBlock)
  {
    match b.fd
    case None => Serving(s, path)
    case Some(f) => s.up || (f in s.open && Slots(s)[f].block == Some(b.id))
  }

  // ---------- block numbers ----------

  predicate DistinctIds(bs: seq<PBlock>)
  {
    forall i, j :: 0 <= i < j < |bs| ==> bs[i].id != bs[j].id
  }

  ghost function Ids(bs: seq<PBlock>): set<nat> { set b | b in bs :: b.id }

  /** The block `k` places after `id`, in 32-bit arithmetic. */
  function Ahead(id: nat, k: nat): nat { (id + k) % BLOCK_IDS }

  /** The block numbers a reader at `id` wants: its own and the next `n`. */
  ghost function Window(id: nat, n: nat): set<nat> { set k | 0 <= k <= n :: Ahead(id, k) }

  /** Unless the numbers wrap, these are the blocks from `id` to `id + n`. */
  lemma WindowIs(id: nat, n: nat)
    requires id + n < BLOCK_IDS
    ensures forall k: nat :: k in Window(id, n) <==> id <= k <= id + n
  {
    forall k: nat | id <= k <= id + n ensures k in Window(id, n) { assert Ahead(id, k - id) == k; }
  }

  /** Behind the reader, or too far ahead of it. The sum is a 32-bit one. */
  predicate Stale(n: nat, id: nat, x: nat)
  {
    x != id && (id > x || Ahead(id, n) < x)
  }

  lemma AheadOrStale(n: nat, id: nat, x: nat)
    requires id < BLOCK_IDS && n < BLOCK_IDS
    ensures Stale(n, id, x) || x == id || id < x <= id + n
  {
  }

  /** The places ahead of `id` whose flag is set. */
  ghost function Flagged(id: nat, flags: seq<bool>): set<nat> { set k | 0 <= k < |flags| && flags[k] :: id + k + 1 }

  /** The list holds the reader's block or not, and of the blocks ahead exactly the flagged ones. */
  ghost predicate Covers(bs: seq<PBlock>, id: nat, hasBlock: bool, flags: seq<bool>)
  {
    DistinctIds(bs) && Ids(bs) == (if hasBlock then {id} else {}) + Flagged(id, flags)
  }

  lemma CoversNothing(id: nat, flags: seq<bool>)
    requires forall k :: 0 <= k < |flags| ==> !flags[k]
    ensures Covers([], id, false, flags)
  {
  }

  lemma IdsAppend(bs: seq<PBlock>, b: PBlock)
    requires DistinctIds(bs) && b.id !in Ids(bs)
    ensures DistinctIds(bs + [b]) && Ids(bs + [b]) == Ids(bs) + {b.id}
  {
    var cs := bs + [b];
    assert forall c :: c in cs <==> c in bs || c == b;
    forall j | 0 <= j < |bs| ensures bs[j].id != b.id { assert bs[j] in bs; }
    assert Ids(cs) <= Ids(bs) + {b.id};
    assert b.id in Ids(cs);
  }

  lemma NoIds()
    ensures DistinctIds([]) && Ids([]) == {}
  {
  }

  lemma FlaggedSet(id: nat, flags: seq<bool>, k: nat)
    requires k < |flags|
    ensures Flagged(id, flags[k := true]) == Flagged(id, flags) + {id + k + 1}
    ensures id + k + 1 in Flagged(id, flags) <==> flags[k]
  {
    var flags1 := flags[k := true];
    assert flags1[k];
    assert forall j :: 0 <= j < |flags| && j != k ==> flags1[j] == flags[j];
  }

  /** Another block that stays: the reader's, or one ahead. */
  lemma CoversMore(bs: seq<PBlock>, id: nat, hasBlock: bool, flags: seq<bool>, b: PBlock)
    requires Covers(bs, id, hasBlock, flags) && b.id !in Ids(bs)
    ensures b.id == id ==> !hasBlock && Covers(bs + [b], id, true, flags)
    ensures id < b.id <= id + |flags| ==>
      !flags[b.id - id - 1] && Covers(bs + [b], id, hasBlock, flags[b.id - id - 1 := true])
  {
    hide DistinctIds, Ids, Flagged;
    IdsAppend(bs, b);
    if id < b.id <= id + |flags| {
      FlaggedSet(id, flags, b.id - id - 1);
    }
  }

  lemma DistinctFromEarlier(bs: seq<PBlock>, i: nat, cs: seq<PBlock>)
    requires DistinctIds(bs) && i < |bs| && forall c :: c in cs ==> c in bs[..i]
    ensures bs[i].id !in Ids(cs)
  {
  }

  lemma AheadBelow(id: nat, k: nat)
    ensures Ahead(id, k) < BLOCK_IDS
  {
  }

  lemma AheadDistinct(id: nat, a: nat, b: nat)
    requires id < BLOCK_IDS && a < BLOCK_IDS && b < BLOCK_IDS && a != b
    ensures Ahead(id, a) != Ahead(id, b)
  {
  }

  /** The blocks wanted at `id` that are held or started once the first `i` places are dealt with. */
  ghost function Places(id: nat, flags: seq<bool>, i: nat): set<nat>
  {
    set k | 0 <= k <= |flags| && (k == 0 || k <= i || flags[k - 1]) :: Ahead(id, k)
  }

  lemma PlacesStart(bs: seq<PBlock>, id: nat, hasBlock: bool, flags: seq<bool>)
    requires Covers(bs, id, hasBlock, flags) && id < BLOCK_IDS && forall b :: b in bs ==> b.id < BLOCK_IDS
    ensures Ids(bs) <= Places(id, flags, 0)
    ensures forall k :: 0 <= k < |flags| && flags[k] ==> Ahead(id, k + 1) in Ids(bs)
  {
    var places := Places(id, flags, 0);
    assert Ahead(id, 0) == id;
    forall x | x in Ids(bs) ensures x in places && x < BLOCK_IDS {
      var b :| b in bs && b.id == x;
      if x != id {
        assert x in Flagged(id, flags);
        assert x == Ahead(id, x - id);
      }
    }
    forall k | 0 <= k < |flags| && flags[k] ensures Ahead(id, k + 1) in Ids(bs) {
      assert id + k + 1 in Flagged(id, flags) && id + k + 1 in Ids(bs);
      var b :| b in bs && b.id == id + k + 1;
    }
  }

  /** An uncovered place is not among the blocks held, and starting it covers it. */
  lemma PlacesStep(id: nat, flags: seq<bool>, i: nat)
    requires i < |flags| < BLOCK_IDS && id < BLOCK_IDS
    ensures Places(id, flags, i + 1) == Places(id, flags, i) + {Ahead(id, i + 1)}
    ensures !flags[i] ==> Ahead(id, i + 1) !in Places(id, flags, i)
    ensures flags[i] ==> Places(id, flags, i + 1) == Places(id, flags, i)
  {
    hide Ahead;
    forall k | 0 <= k <= |flags| && k != i + 1 ensures Ahead(id, k) != Ahead(id, i + 1) {
      AheadDistinct(id, k, i + 1);
    }
  }

  lemma PlacesEnd(id: nat, flags: seq<bool>)
    ensures Places(id, flags, |flags|) == Window(id, |flags|)
  {
  }

  /** How many of the flags are set. */
  function Count(flags: seq<bool>): (c: nat)
    ensures c <= |flags|
  {
    if flags == [] then 0 else (if flags[0] then 1 else 0) + Count(flags[1..])
  }

  lemma {:induction false} CountSet(flags: seq<bool>, k: nat)
    requires k < |flags| && !flags[k]
    ensures Count(flags[k := true]) == Count(flags) + 1
  {
    if k == 0 {
      assert flags[0 := true][1..] == flags[1..];
    } else {
      assert flags[k := true][1..] == flags[1..][k - 1 := true];
      CountSet(flags[1..], k - 1);
    }
  }

  lemma {:induction false} CountNone(flags: seq<bool>)
    requires forall k :: 0 <= k < |flags| ==> !flags[k]
    ensures Count(flags) == 0
  {
    if flags != [] { CountNone(flags[1..]); }
  }

  lemma CountDrop(flags: seq<bool>, i: nat)
    requires i < |flags|
    ensures Count(flags[i..]) == (if flags[i] then 1 else 0) + Count(flags[i + 1..])
  {
    assert flags[i..][1..] == flags[i + 1..];
  }

  // ---------- descriptors ----------

  ghost function Owned(bs: seq<PBlock>): set<nat> { set b | b in bs && b.fd.Some? :: b.fd.value }

  /** Every descriptor in the list is open for reading on `path` and owned by one block only, and that of a
      block that is done has the block cached. */
  ghost predicate Linear(bs: seq<PBlock>, path: Path, open: map<nat, Slot>)
  {
    && (forall i :: 0 <= i < |bs| && bs[i].fd.Some? ==>
          && bs[i].fd.value in open && open[bs[i].fd.value].desc == Desc(path, false)
          && (bs[i].status == Completed ==> open[bs[i].fd.value].block == Some(bs[i].id)))
    && (forall i, j :: 0 <= i < j < |bs| && bs[i].fd.Some? && bs[j].fd.Some? ==> bs[i].fd != bs[j].fd)
  }

  /** The descriptors that are nobody's in the list. */
  ghost function Others<T>(open: map<nat, T>, bs: seq<PBlock>): map<nat, T> { open - Owned(bs) }

  lemma OthersDescs(open: map<nat, Slot>, bs: seq<PBlock>)
    ensures Others(Descs(open), bs) == Descs(Others(open, bs))
  {
  }

  /** The blocks whose workers read them. */
  function Done(bs: seq<PBlock>): (r: seq<PBlock>)
    ensures |r| <= |bs| && forall b :: b in r <==> b in bs && b.status == Completed
  {
    if bs == [] then []
    else
      assert bs == [bs[0]] + bs[1..];
      (if bs[0].status == Completed then [bs[0]] else []) + Done(bs[1..])
  }

  /** The descriptors of the blocks that are done. */
  ghost function Stock(bs: seq<PBlock>): set<nat>
  {
    set b | b in bs && b.status == Completed && b.fd.Some? :: b.fd.value
  }

  lemma StockKept(bs: seq<PBlock>, kept: seq<PBlock>, removed: seq<PBlock>, joined: seq<PBlock>)
    requires forall b :: b in bs ==> b in kept || b in removed
    requires |joined| == |removed|
    requires forall i :: 0 <= i < |removed| && removed[i].status == Completed ==>
      joined[i].status == Completed && joined[i].fd == removed[i].fd
    ensures Stock(bs) <= Owned(kept + Done(joined))
  {
    var all := kept + Done(joined);
    forall b | b in bs && b.status == Completed && b.fd.Some? ensures b.fd.value in Owned(all) {
      if b in kept {
        assert b in all;
      } else {
        var i :| 0 <= i < |removed| && removed[i] == b;
        assert joined[i] in Done(joined) && joined[i] in all;
      }
    }
  }

  /** A descriptor handed on stays owned. */
  lemma OwnedHanded(a: seq<PBlock>, spare: seq<PBlock>, b: PBlock)
    requires if spare == [] then b.fd.None? else b.fd == spare[0].fd
    ensures Owned((a + [b]) + if spare == [] then [] else spare[1..]) == Owned(a + spare)
  {
    var before, after := a + spare, (a + [b]) + if spare == [] then [] else spare[1..];
    assert forall x :: x in after <==> x in a || x == b || (spare != [] && x in spare[1..]);
    assert forall x :: x in before <==> x in a || x in spare;
    if spare != [] { assert spare == [spare[0]] + spare[1..]; }
  }

  lemma OwnedRan(a: seq<PBlock>, i: nat, b: PBlock, spare: seq<PBlock>)
    requires i < |a| && (a[i].fd.Some? ==> b.fd == a[i].fd)
    ensures Owned(a + spare) <= Owned(a[i := b] + spare)
  {
    var after := a[i := b] + spare;
    forall x | x in a + spare && x.fd.Some? ensures x.fd.value in Owned(after) {
      if x in spare {
        assert x in after;
      } else {
        var j :| 0 <= j < |a| && a[j] == x;
        assert after[j] in after;
      }
    }
  }

  lemma NoneDone()
    ensures Done([]) == []
  {
  }

  lemma DoneNext(bs: seq<PBlock>, so: seq<PBlock>)
    requires bs != []
    ensures so + Done(bs) == (if bs[0].status == Completed then so + [bs[0]] else so) + Done(bs[1..])
  {
  }

  /** With the books in order before and after, the descriptors of the blocks dropped are closed. */
  lemma DroppedClosed(kept: seq<PBlock>, removed: seq<PBlock>, path: Path, open: map<nat, Slot>,
                      open1: map<nat, Slot>, others: map<nat, Slot>, b: PBlock)
    requires Ledger(kept + removed, path, open, others) && Ledger(kept + Done(removed), path, open1, others)
    requires b in removed && b.status != Completed && b.fd.Some?
    ensures b.fd.value !in open1
  {
    assert b in kept + removed && b.fd == Some(b.fd.value);
    hide Done, Linear;
    var i :| 0 <= i < |removed| && removed[i] == b;
    assert (kept + removed)[|kept| + i] == b;
    forall c | c in kept + Done(removed) ensures c.fd != b.fd {
      OwnedOnce(kept, removed, path, open, i, c);
    }
    NobodysIsClosed(kept + removed, kept + Done(removed), open, open1, others, b.fd.value);
  }

  lemma OwnedOnce(kept: seq<PBlock>, removed: seq<PBlock>, path: Path, open: map<nat, Slot>, i: nat, c: PBlock)
    requires Linear(kept + removed, path, open) && i < |removed| && removed[i].fd.Some?
    requires c in kept || (c in removed && c != removed[i])
    ensures c.fd != removed[i].fd
  {
    var all := kept + removed;
    assert all[|kept| + i] == removed[i];
    if c in kept {
      var j :| 0 <= j < |kept| && kept[j] == c;
      assert all[j] == c;
    } else {
      var j :| 0 <= j < |removed| && removed[j] == c;
      assert all[|kept| + j] == c;
    }
  }

  lemma NobodysIsClosed(all: seq<PBlock>, left: seq<PBlock>, open: map<nat, Slot>, open1: map<nat, Slot>,
                        others: map<nat, Slot>, f: nat)
    requires Others(open, all) == others && Others(open1, left) == others
    requires (exists b :: b in all && b.fd == Some(f)) && forall c :: c in left ==> c.fd != Some(f)
    ensures f !in open1
  {
    assert f in Owned(all) && f !in others;
    assert f !in Owned(left);
    assert f in open1 ==> f in Others(open1, left);
  }

  /** Ownership does not depend on the order of the blocks. */
  lemma LinearSwap(a: seq<PBlock>, b: seq<PBlock>, x: PBlock, c: seq<PBlock>, path: Path, open: map<nat, Slot>)
    requires Linear(a + b + [x] + c, path, open)
    ensures Linear(a + [x] + b + c, path, open) && Owned(a + [x] + b + c) == Owned(a + b + [x] + c)
  {
    var before, after := a + b + [x] + c, a + [x] + b + c;
    forall i | 0 <= i < |after|
      ensures after[i] == before[Moved(|a|, |b|, i)]
    {
    }
    assert forall y :: y in after <==> y in before;
  }

  function Moved(la: nat, lb: nat, i: nat): nat
  {
    if i == la then la + lb else if la < i <= la + lb then i - 1 else i
  }

  /** Nothing but descriptors and cached blocks changes, and coherence is kept. */
  ghost predicate Quiet(s: State, s1: State)
  {
    && s1.bs == s.bs && s1.up == s.up && s1.files == s.files && s1.delta == s.delta && s.nextFd <= s1.nextFd
    && (Coherent(s) ==> Coherent(s1))
  }

  lemma QuietReflexive(s: State)
    ensures Quiet(s, s)
  {
  }

  lemma QuietTransitive(s: State, s1: State, s2: State)
    requires Quiet(s, s1) && Quiet(s1, s2)
    ensures Quiet(s, s2)
  {
  }

  /** `b1` is `b` after its worker ran: it failed, or read the block into its descriptor, which it opened if
      it was given none. */
  ghost predicate Ran(s: State, s1: State, path: Path, b: PBlock, b1: PBlock)
  {
    && Quiet(s, s1) && b1.id == b.id && WellFormed(b1) && b1.status != Running
    && (b.fd.Some? ==> b1.fd == b.fd)
    && (b.status != Running ==> b1.status == b.status && Slots(s1) == Slots(s) && b1.fd == b.fd)
    && match b1.fd
       case None => Slots(s1) == Slots(s)
       case Some(f) =>
         && f in s1.open && Slots(s1) == Slots(s)[f := Slots(s1)[f]] && Slots(s1)[f].desc == Desc(path, false)
         && (b.fd.None? ==> f == s.nextFd)
         && (b.status == Running && b1.status == Completed ==> Slots(s1)[f].block == Some(b.id))
  }

  /** When the worker of one block in a list ran, the list still owns its descriptors, and the others are as before. */
  lemma RanInList(s: State, s1: State, path: Path, bs: seq<PBlock>, i: nat, b1: PBlock)
    requires Shaped(s) && Linear(bs, path, Slots(s)) && i < |bs| && Ran(s, s1, path, bs[i], b1)
    ensures Linear(bs[i := b1], path, Slots(s1))
    ensures Others(Slots(s1), bs[i := b1]) == Others(Slots(s), bs)
  {
    hide Quiet, WellFormed;
    var cs := bs[i := b1];
    assert s.nextFd !in s.open;
    assert forall b :: b in cs ==> b == b1 || b in bs;
    assert forall j :: 0 <= j < |bs| && j != i ==> bs[j] == cs[j] && bs[j] in cs;
    assert b1 in cs by { assert cs[i] == b1; }
    if b1.fd == bs[i].fd {
      assert Owned(cs) == Owned(bs);
    } else {
      assert Owned(cs) == Owned(bs) + {s.nextFd};
    }
  }

  lemma SameFdInList(path: Path, open: map<nat, Slot>, bs: seq<PBlock>, i: nat, b1: PBlock)
    requires Linear(bs, path, open) && i < |bs| && b1.fd == bs[i].fd && b1.status != Completed
    ensures Linear(bs[i := b1], path, open) && Owned(bs[i := b1]) == Owned(bs)
  {
    var cs := bs[i := b1];
    assert forall b :: b in cs ==> b == b1 || b in bs;
    assert forall j :: 0 <= j < |bs| && j != i ==> bs[j] == cs[j] && bs[j] in cs;
    assert b1 in cs by { assert cs[i] == b1; }
  }

  /** A block leaves the list and its descriptor, if any, is closed. */
  lemma FreedFromList(path: Path, open: map<nat, Slot>, a: seq<PBlock>, x: PBlock, c: seq<PBlock>)
    requires Linear(a + [x] + c, path, open)
    ensures var open1 := if x.fd.Some? then open - {x.fd.value} else open;
      Linear(a + c, path, open1) && Others(open1, a + c) == Others(open, a + [x] + c)
  {
    var before, after := a + [x] + c, a + c;
    assert before[|a|] == x;
    assert forall i :: 0 <= i < |after| ==> after[i] == before[if i < |a| then i else i + 1];
    assert forall i :: 0 <= i < |a| ==> before[i] == after[i];
    assert forall i :: |a| < i < |before| ==> before[i] == after[i - 1];
    assert forall b :: b in before <==> b == x || b in after;
    if x.fd.Some? {
      assert forall i :: 0 <= i < |after| ==> after[i].fd != x.fd;
      assert Owned(before) == Owned(after) + {x.fd.value};
    } else {
      assert Owned(before) == Owned(after);
    }
  }

  /** A block without a descriptor enters the list. */
  lemma BareInList(path: Path, open: map<nat, Slot>, a: seq<PBlock>, x: PBlock, c: seq<PBlock>)
    requires Linear(a + c, path, open) && x.fd.None?
    ensures Linear(a + [x] + c, path, open) && Owned(a + [x] + c) == Owned(a + c)
  {
    var before, after := a + c, a + [x] + c;
    assert forall i :: 0 <= i < |after| && i != |a| ==> after[i] == before[if i < |a| then i else i - 1];
    assert forall b :: b in after <==> b == x || b in before;
  }

  /** The list owns its descriptors, and the open descriptors it does not own are exactly `others`. */
  ghost predicate Ledger(bs: seq<PBlock>, path: Path, open: map<nat, Slot>, others: map<nat, Slot>)
  {
    Linear(bs, path, open) && Others(open, bs) == others
  }

  lemma LedgerRan(s: State, s1: State, path: Path, a: seq<PBlock>, b: PBlock, c: seq<PBlock>, b1: PBlock,
                  others: map<nat, Slot>)
    requires Shaped(s) && Ledger(a + [b] + c, path, Slots(s), others) && Ran(s, s1, path, b, b1)
    ensures Ledger(a + [b1] + c, path, Slots(s1), others)
  {
    hide Shaped, Linear, Others, Ran;
    RanInList(s, s1, path, a + [b] + c, |a|, b1);
    assert (a + [b] + c)[|a| := b1] == a + [b1] + c;
  }

  lemma LedgerFreed(path: Path, open: map<nat, Slot>, a: seq<PBlock>, x: PBlock, c: seq<PBlock>, others: map<nat, Slot>)
    requires Ledger(a + [x] + c, path, open, others)
    ensures Ledger(a + c, path, if x.fd.Some? then open - {x.fd.value} else open, others)
    ensures x.fd.Some? ==> x.fd.value in open && open[x.fd.value].desc == Desc(path, false)
    ensures x.fd.Some? && x.status == Completed ==> open[x.fd.value].block == Some(x.id)
  {
    FreedFromList(path, open, a, x, c);
    assert (a + [x] + c)[|a|] == x;
  }

  /** A descriptor changes hands. */
  lemma LedgerHanded(path: Path, open: map<nat, Slot>, a: seq<PBlock>, x: PBlock, c: seq<PBlock>, y: PBlock,
                     others: map<nat, Slot>)
    requires Ledger(a + [x] + c, path, open, others) && y.fd == x.fd && y.status != Completed
    ensures Ledger(a + [y] + c, path, open, others)
  {
    SameFdInList(path, open, a + [x] + c, |a|, y);
    assert (a + [x] + c)[|a| := y] == a + [y] + c;
  }

  lemma LedgerBare(path: Path, open: map<nat, Slot>, a: seq<PBlock>, x: PBlock, c: seq<PBlock>, others: map<nat, Slot>)
    requires Ledger(a + c, path, open, others) && x.fd.None?
    ensures Ledger(a + [x] + c, path, open, others)
  {
    BareInList(path, open, a, x, c);
  }

  lemma LedgerSwap(path: Path, open: map<nat, Slot>, a: seq<PBlock>, b: seq<PBlock>, x: PBlock, c: seq<PBlock>,
                   others: map<nat, Slot>)
    requires Ledger(a + b + [x] + c, path, open, others)
    ensures Ledger(a + [x] + b + c, path, open, others)
  {
    LinearSwap(a, b, x, c, path, open);
  }

  /** Part of the way through a list: its first `i` blocks are sorted into those that stay and those
      that leave, and the flags say which places ahead of `id` the former cover. */
  ghost predicate Sorted(bs: seq<PBlock>, i: nat, kept: seq<PBlock>, removed: seq<PBlock>, id: nat, hasBlock: bool,
                         flags: seq<bool>, path: Path, open: map<nat, Slot>, others: map<nat, Slot>)
  {
    && i <= |bs| && Ledger(kept + removed + bs[i..], path, open, others)
    && (forall b :: b in removed <==> b in bs[..i] && Stale(|flags|, id, b.id))
    && (forall b :: b in kept <==> b in bs[..i] && !Stale(|flags|, id, b.id))
    && |kept| + |removed| == i && |kept| == (if hasBlock then 1 else 0) + Count(flags)
    && Covers(kept, id, hasBlock, flags)
  }

  lemma SortedStart(bs: seq<PBlock>, id: nat, flags: seq<bool>, path: Path, open: map<nat, Slot>,
                    others: map<nat, Slot>)
    requires Ledger(bs, path, open, others) && forall k :: 0 <= k < |flags| ==> !flags[k]
    ensures Sorted(bs, 0, [], [], id, false, flags, path, open, others)
  {
    hide Ledger, Covers, Count;
    CoversNothing(id, flags);
    CountNone(flags);
    assert [] + [] + bs[0..] == bs;
  }

  lemma SortedEnd(bs: seq<PBlock>, kept: seq<PBlock>, removed: seq<PBlock>, id: nat, hasBlock: bool,
                  flags: seq<bool>, path: Path, open: map<nat, Slot>, others: map<nat, Slot>)
    requires Sorted(bs, |bs|, kept, removed, id, hasBlock, flags, path, open, others)
    ensures Ledger(kept + removed, path, open, others) && Covers(kept, id, hasBlock, flags)
    ensures forall b :: b in removed <==> b in bs && Stale(|flags|, id, b.id)
    ensures forall b :: b in kept <==> b in bs && !Stale(|flags|, id, b.id)
    ensures |kept| + |removed| == |bs| && |kept| == (if hasBlock then 1 else 0) + Count(flags)
  {
    hide Ledger, Covers, Count;
    assert kept + removed + bs[|bs|..] == kept + removed;
  }

  lemma ReaderStays(n: nat, id: nat)
    ensures !Stale(n, id, id)
  {
  }

  lemma SortedMore(bs: seq<PBlock>, i: nat, kept: seq<PBlock>, removed: seq<PBlock>, id: nat, hasBlock: bool,
                   flags: seq<bool>, path: Path, open: map<nat, Slot>, others: map<nat, Slot>)
    requires Sorted(bs, i, kept, removed, id, hasBlock, flags, path, open, others)
    requires i < |bs| && DistinctIds(bs) && id < BLOCK_IDS && |flags| < BLOCK_IDS
    ensures var b := bs[i];
      && (Stale(|flags|, id, b.id) ==> Sorted(bs, i + 1, kept, removed + [b], id, hasBlock, flags, path, open, others))
      && (b.id == id ==> Sorted(bs, i + 1, kept + [b], removed, id, true, flags, path, open, others))
      && (!Stale(|flags|, id, b.id) && b.id != id ==>
            id < b.id <= id + |flags|
            && Sorted(bs, i + 1, kept + [b], removed, id, hasBlock, flags[b.id - id - 1 := true], path, open, others))
  {
    hide Ledger, Covers, DistinctIds, Stale, Count, Ids;
    var b := bs[i];
    ReaderStays(|flags|, id);
    assert bs[..i + 1] == bs[..i] + [b];
    AheadOrStale(|flags|, id, b.id);
    assert kept + removed + bs[i..] == kept + removed + [b] + bs[i + 1..];
    assert kept + (removed + [b]) + bs[i + 1..] == kept + removed + [b] + bs[i + 1..];
    LedgerSwap(path, open, kept, removed, b, bs[i + 1..], others);
    DistinctFromEarlier(bs, i, kept);
    CoversMore(kept, id, hasBlock, flags, b);
    if !Stale(|flags|, id, b.id) && b.id != id {
      CountSet(flags, b.id - id - 1);
    }
  }

  /** Part of the way through the start loop at `id`: the first `i` places are dealt with, no block
      number occurs twice, the list has room for the rest, and no descriptor is recycled in vain. */
  ghost predicate Filling(bs: seq<PBlock>, id: nat, flags: seq<bool>, i: nat, spare: nat)
  {
    && i <= |flags| && DistinctIds(bs) && Ids(bs) <= Places(id, flags, i)
    && |bs| <= 1 + Count(flags[i..]) + i
    && spare <= |flags| - i - Count(flags[i..])
    && forall b :: b in bs ==> WellFormed(b)
  }

  lemma FillingSkip(bs: seq<PBlock>, id: nat, flags: seq<bool>, i: nat, spare: nat)
    requires Filling(bs, id, flags, i, spare) && i < |flags| < BLOCK_IDS && id < BLOCK_IDS && flags[i]
    ensures Filling(bs, id, flags, i + 1, spare)
  {
    hide DistinctIds, Ids, Places, Ahead, WellFormed;
    CountDrop(flags, i);
    PlacesStep(id, flags, i);
  }

  lemma FillingFailed(bs: seq<PBlock>, id: nat, flags: seq<bool>, i: nat, spare: nat)
    requires Filling(bs, id, flags, i, spare) && i < |flags| < BLOCK_IDS && id < BLOCK_IDS && !flags[i]
    ensures Filling(bs, id, flags, i + 1, if spare > 0 then spare - 1 else 0)
  {
    hide DistinctIds, Ids, Places, Ahead, WellFormed;
    CountDrop(flags, i);
    PlacesStep(id, flags, i);
  }

  /** At the end nothing is spare, and the list is no longer than the window. */
  lemma FillingDone(bs: seq<PBlock>, id: nat, flags: seq<bool>, spare: nat)
    requires Filling(bs, id, flags, |flags|, spare)
    ensures spare == 0 && |bs| <= |flags| + 1 && DistinctIds(bs) && Ids(bs) <= Window(id, |flags|)
    ensures forall b :: b in bs ==> WellFormed(b)
  {
    PlacesEnd(id, flags);
  }

  lemma FillingStarted(bs: seq<PBlock>, id: nat, flags: seq<bool>, i: nat, spare: nat, b: PBlock)
    requires Filling(bs, id, flags, i, spare) && i < |flags| < BLOCK_IDS && id < BLOCK_IDS && !flags[i]
    requires WellFormed(b) && b.id == Ahead(id, i + 1)
    ensures Filling(bs + [b], id, flags, i + 1, if spare > 0 then spare - 1 else 0)
    ensures DistinctIds(bs) && b.id !in Ids(bs)
  {
    hide DistinctIds, Ids, Places, Ahead, WellFormed;
    CountDrop(flags, i);
    PlacesStep(id, flags, i);
    IdsAppend(bs, b);
  }

  /** The same block numbers in the same places. */
  predicate SameIds(bs: seq<PBlock>, cs: seq<PBlock>)
  {
    |bs| == |cs| && forall i :: 0 <= i < |bs| ==> bs[i].id == cs[i].id
  }

  lemma SameIdsSame(bs: seq<PBlock>, cs: seq<PBlock>)
    requires SameIds(bs, cs)
    ensures Ids(bs) == Ids(cs) && (DistinctIds(bs) <==> DistinctIds(cs))
  {
    forall x | x in Ids(bs) ensures x in Ids(cs) {
      var i :| 0 <= i < |bs| && bs[i].id == x;
      assert cs[i] in cs;
    }
    forall x | x in Ids(cs) ensures x in Ids(bs) {
      var i :| 0 <= i < |cs| && cs[i].id == x;
      assert bs[i] in bs;
    }
  }

  lemma FillingSame(bs: seq<PBlock>, cs: seq<PBlock>, id: nat, flags: seq<bool>, i: nat, spare: nat)
    requires Filling(bs, id, flags, i, spare) && SameIds(bs, cs) && forall b :: b in cs ==> WellFormed(b)
    ensures Filling(cs, id, flags, i, spare)
  {
    hide Ids, Places, DistinctIds;
    SameIdsSame(bs, cs);
  }

  /** When the reader's block is held, the start loop may begin. */
  lemma FillingHeld(kept: seq<PBlock>, id: nat, flags: seq<bool>, spare: nat, removed: nat)
    requires Covers(kept, id, true, flags) && id < BLOCK_IDS && (forall b :: b in kept ==> WellFormed(b))
    requires |kept| == 1 + Count(flags) && |kept| + removed <= |flags| + 1 && spare <= removed
    ensures Filling(kept, id, flags, 0, spare)
    ensures forall k :: 0 <= k < |flags| && flags[k] ==> Ahead(id, k + 1) in Ids(kept)
  {
    hide Ids, Places, DistinctIds;
    CoversIsDistinct(kept, id, true, flags);
    PlacesStart(kept, id, true, flags);
    assert flags[0..] == flags;
  }

  lemma CoversIsDistinct(bs: seq<PBlock>, id: nat, hasBlock: bool, flags: seq<bool>)
    requires Covers(bs, id, hasBlock, flags)
    ensures DistinctIds(bs) && (hasBlock <==> id in Ids(bs))
  {
  }

  /** When it is not, after its start was tried, with a recycled descriptor if there was one. */
  lemma FillingTried(kept: seq<PBlock>, id: nat, flags: seq<bool>, spare: nat, removed: nat, b: PBlock)
    requires Covers(kept, id, false, flags) && id < BLOCK_IDS && (forall b :: b in kept ==> WellFormed(b))
    requires |kept| == Count(flags) && |kept| + removed <= |flags| + 1
    requires spare <= if removed > 0 then removed - 1 else 0
    requires WellFormed(b) && b.id == id
    ensures Filling(kept, id, flags, 0, spare)
    ensures Filling(kept + [b], id, flags, 0, spare)
    ensures forall k :: 0 <= k < |flags| && flags[k] ==>
      Ahead(id, k + 1) in Ids(kept) && Ahead(id, k + 1) in Ids(kept + [b])
    ensures id !in Ids(kept)
  {
    hide Ids, Places, DistinctIds;
    CoversIsDistinct(kept, id, false, flags);
    PlacesStart(kept, id, false, flags);
    CoversMore(kept, id, false, flags, b);
    CoversIsDistinct(kept + [b], id, true, flags);
    PlacesStart(kept + [b], id, true, flags);
    assert flags[0..] == flags;
  }

  // ---------- all open files ----------

  datatype PList = PList(path: Path, blocks: seq<PBlock>)

  /** One file's prefetch blocks: distinct numbers, at most `n` and the reader's, each with at most one
      descriptor, none of them the file's own. */
  ghost predicate ListFine(k: nat, l: PList, open: map<nat, Slot>, n: nat)
  {
    && (forall b :: b in l.blocks ==> WellFormed(b)) && DistinctIds(l.blocks) && |l.blocks| <= n + 1
    && Linear(l.blocks, l.path, open)
    && k in open && open[k].desc.path == l.path && k !in Owned(l.blocks)
  }

  /** No descriptor serves two files' prefetching, or is both a file's own and a prefetch descriptor. */
  ghost predicate Fine(lists: map<nat, PList>, open: map<nat, Slot>, n: nat)
  {
    && (forall k :: k in lists ==> ListFine(k, lists[k], open, n))
    && (forall j, k :: j in lists && k in lists && j != k ==>
          Owned(lists[j].blocks) !! Owned(lists[k].blocks) && j !in Owned(lists[k].blocks))
  }

  lemma OthersKeep(open: map<nat, Slot>, bs: seq<PBlock>, open1: map<nat, Slot>, bs1: seq<PBlock>, k: nat, l: PList,
                   n: nat)
    requires Others(open, bs) == Others(open1, bs1)
    requires ListFine(k, l, open, n) && Owned(l.blocks) !! Owned(bs) && k !in Owned(bs)
    ensures ListFine(k, l, open1, n) && Owned(l.blocks) !! Owned(bs1) && k !in Owned(bs1)
  {
    forall f | f in open && f !in Owned(bs)
      ensures f in open1 && open1[f] == open[f] && f !in Owned(bs1)
    {
      assert f in Others(open, bs) && Others(open, bs)[f] == open[f];
      assert f in Others(open1, bs1);
    }
    forall f | f in Owned(l.blocks) ensures f !in Owned(bs1) {
      var b :| b in l.blocks && b.fd == Some(f);
      var i :| 0 <= i < |l.blocks| && l.blocks[i] == b;
      assert f in open;
    }
    forall i | 0 <= i < |l.blocks| && l.blocks[i].fd.Some?
      ensures l.blocks[i].fd.value in open1 && open1[l.blocks[i].fd.value] == open[l.blocks[i].fd.value]
    {
      assert l.blocks[i].fd.value in Owned(l.blocks) by { assert l.blocks[i] in l.blocks; }
    }
  }

  /** Reading through one file's prefetch blocks leaves every file's blocks fine. */
  lemma FineUpdate(lists: map<nat, PList>, open: map<nat, Slot>, n: nat, k: nat, bs1: seq<PBlock>,
                   open1: map<nat, Slot>)
    requires Fine(lists, open, n) && k in lists
    requires Ledger(bs1, lists[k].path, open1, Others(open, lists[k].blocks))
    requires (forall b :: b in bs1 ==> WellFormed(b)) && DistinctIds(bs1) && |bs1| <= n + 1
    ensures Fine(lists[k := lists[k].(blocks := bs1)], open1, n)
  {
    hide Linear, DistinctIds, WellFormed;
    var bs := lists[k].blocks;
    var lists1 := lists[k := lists[k].(blocks := bs1)];
    assert k in Others(open, bs) && Others(open, bs)[k] == open[k];
    assert k in open1 && open1[k] == open[k] && k !in Owned(bs1);
    forall j | j in lists1 && j != k
      ensures ListFine(j, lists1[j], open1, n) && Owned(lists1[j].blocks) !! Owned(bs1) && j !in Owned(bs1)
      ensures k !in Owned(lists1[j].blocks)
    {
      OthersKeep(open, bs, open1, bs1, j, lists[j], n);
    }
  }

  /** What the file's own descriptor has cached does not matter. */
  lemma FineOwn(lists: map<nat, PList>, open: map<nat, Slot>, n: nat, k: nat, open1: map<nat, Slot>)
    requires Fine(lists, open, n) && k in lists && k in open1 && open1 == open[k := open1[k]]
    requires open1[k].desc == open[k].desc
    ensures Fine(lists, open1, n)
  {
    hide DistinctIds, WellFormed;
    forall j | j in lists ensures ListFine(j, lists[j], open1, n) {
      assert ListFine(j, lists[j], open, n);
      assert ListFine(k, lists[k], open, n);
      assert k !in Owned(lists[j].blocks);
      forall i | 0 <= i < |lists[j].blocks| && lists[j].blocks[i].fd.Some? ensures lists[j].blocks[i].fd.value != k {
        assert lists[j].blocks[i] in lists[j].blocks;
      }
    }
  }

  lemma FineOne(lists: map<nat, PList>, open: map<nat, Slot>, n: nat, k: nat)
    requires Fine(lists, open, n) && k in lists
    ensures var bs := lists[k].blocks;
      && (forall b :: b in bs ==> WellFormed(b)) && DistinctIds(bs) && |bs| <= n + 1
      && Ledger(bs, lists[k].path, open, Others(open, bs))
      && k in open && open[k].desc.path == lists[k].path
  {
  }

  lemma LedgerOthers(bs: seq<PBlock>, path: Path, open: map<nat, Slot>, others: map<nat, Slot>)
    requires Ledger(bs, path, open, others)
    ensures Others(open, bs) == others
  {
  }

  lemma FillingIsFine(bs: seq<PBlock>, id: nat, flags: seq<bool>, spare: nat)
    requires Filling(bs, id, flags, 0, spare)
    ensures DistinctIds(bs) && forall b :: b in bs ==> WellFormed(b)
  {
  }

  lemma LedgerEmpty(path: Path, open: map<nat, Slot>, others: map<nat, Slot>)
    requires Ledger([], path, open, others)
    ensures open == others
  {
    assert Owned([]) == {};
  }

  lemma LedgerFresh(path: Path, open: map<nat, Slot>)
    ensures Ledger([], path, open, open) && Others(open, []) == open
  {
    assert Owned([]) == {};
  }

  /** The file's own descriptor is closed first; its prefetch blocks still own theirs. */
  lemma LedgerMinus(bs: seq<PBlock>, path: Path, open: map<nat, Slot>, k: nat, lists: map<nat, PList>, n: nat)
    requires Fine(lists, open, n) && k in lists && lists[k] == PList(path, bs)
    ensures Ledger(bs, path, open - {k}, Others(open, bs) - {k})
  {
    assert ListFine(k, lists[k], open, n);
    forall i | 0 <= i < |bs| && bs[i].fd.Some? ensures bs[i].fd.value != k { assert bs[i] in bs; }
  }

  lemma FineRemoved(lists: map<nat, PList>, open: map<nat, Slot>, n: nat, k: nat, open1: map<nat, Slot>)
    requires Fine(lists, open, n) && k in lists && open1 == Others(open, lists[k].blocks) - {k}
    ensures Fine(lists - {k}, open1, n)
  {
    hide Linear, DistinctIds, WellFormed, Others;
    forall j | j in lists && j != k ensures ListFine(j, lists[j], open1, n) {
      ListKept(j, lists[j], open, n, k, lists[k].blocks);
    }
  }

  lemma ListKept(j: nat, l: PList, open: map<nat, Slot>, n: nat, k: nat, bs: seq<PBlock>)
    requires ListFine(j, l, open, n) && j != k && k !in Owned(l.blocks)
    requires Owned(l.blocks) !! Owned(bs) && j !in Owned(bs)
    ensures ListFine(j, l, Others(open, bs) - {k}, n)
  {
    forall i | 0 <= i < |l.blocks| && l.blocks[i].fd.Some? ensures l.blocks[i].fd.value in Owned(l.blocks) {
      assert l.blocks[i] in l.blocks;
    }
  }

  /** A newly opened file with its first blocks. */
  lemma FineAdded(lists: map<nat, PList>, open: map<nat, Slot>, n: nat, k: nat, d: Slot, bs: seq<PBlock>,
                  open1: map<nat, Slot>)
    requires Fine(lists, open, n) && k !in open
    requires Ledger(bs, d.desc.path, open1, open[k := d])
    requires (forall b :: b in bs ==> WellFormed(b)) && DistinctIds(bs) && |bs| <= n + 1
    ensures k !in lists && Fine(lists[k := PList(d.desc.path, bs)], open1, n)
  {
    hide Linear, DistinctIds, WellFormed;
    var lists1 := lists[k := PList(d.desc.path, bs)];
    assert forall j :: j in lists ==> ListFine(j, lists[j], open, n);
    forall f | f in open[k := d] ensures f in open1 && open1[f] == open[k := d][f] && f !in Owned(bs) {
      assert f in Others(open1, bs);
    }
    forall j | j in lists
      ensures ListFine(j, lists[j], open1, n) && Owned(lists[j].blocks) !! Owned(bs) && j !in Owned(bs)
      ensures k !in Owned(lists[j].blocks)
    {
      ListWidened(j, lists[j], open, n, open1, bs, k);
    }
  }

  lemma ListWidened(j: nat, l: PList, open: map<nat, Slot>, n: nat, open1: map<nat, Slot>, bs: seq<PBlock>, k: nat)
    requires ListFine(j, l, open, n) && k !in open
    requires forall f :: f in open ==> f in open1 && open1[f] == open[f] && f !in Owned(bs)
    ensures ListFine(j, l, open1, n) && Owned(l.blocks) !! Owned(bs) && j !in Owned(bs) && k !in Owned(l.blocks)
  {
    forall f | f in Owned(l.blocks) ensures f in open {
      var b :| b in l.blocks && b.fd == Some(f);
      var i :| 0 <= i < |l.blocks| && l.blocks[i] == b;
    }
  }
}
