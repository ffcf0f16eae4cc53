/** Block arithmetic of the buffer cache. Block numbers are 32-bit unsigned integers, offsets are not. */
module Blocks {
  const BLOCK_IDS: nat := 0x1_0000_0000

  /** Offsets at and above this one share a block number with a smaller offset. */
  function Limit(bs: nat): nat { BLOCK_IDS * bs }

  function BlockId(bs: nat, off: nat): (id: nat)
    requires bs > 0
    ensures id < BLOCK_IDS
  {
    (off / bs) % BLOCK_IDS
  }

  function BlockStart(bs: nat, id: nat): nat { id * bs }

  function InBlock(bs: nat, off: nat): nat
    requires bs > 0
  {
    BlockStartBelow(bs, off);
    off - BlockStart(bs, BlockId(bs, off))
  }

  predicate SameBlock(bs: nat, off1: nat, off2: nat)
    requires bs > 0
  {
    BlockId(bs, off1) == BlockId(bs, off2)
  }

  /** The extent [off, off+size) is non-empty, lies below the limit and inside one block. */
  predicate OneBlock(bs: nat, off: nat, size: nat)
    requires bs > 0
  {
    size > 0 && off < Limit(bs) && InBlock(bs, off) + size <= bs
  }

  /** Products with a common positive factor compare as the other factors do. */
  lemma MulCompare(a: nat, b: nat, c: nat)
    requires c > 0
    ensures a < b <==> a * c < b * c
    ensures a < b ==> a * c + c <= b * c
    ensures (a + 1) * c == a * c + c
  {
    if a < b {
      var d := b - a;
      assert b * c == a * c + d * c;
    } else {
      var d := a - b;
      assert a * c == b * c + d * c;
    }
  }

  lemma DivBounds(bs: nat, off: nat)
    requires bs > 0
    ensures (off / bs) * bs <= off < (off / bs) * bs + bs
  {
  }

  lemma DivUnique(bs: nat, off: nat, k: nat)
    requires bs > 0 && k * bs <= off < k * bs + bs
    ensures off / bs == k
  {
    DivBounds(bs, off);
    MulCompare(off / bs, k, bs);
    MulCompare(k, off / bs, bs);
  }

  lemma DivBelow(bs: nat, off: nat, n: nat)
    requires bs > 0
    ensures off / bs < n <==> off < n * bs
  {
    DivBounds(bs, off);
    MulCompare(off / bs, n, bs);
    MulCompare(n, off / bs, bs);
  }

  lemma BlockStartBelow(bs: nat, off: nat)
    requires bs > 0
    ensures BlockStart(bs, BlockId(bs, off)) <= off
  {
    DivBounds(bs, off);
    var q := off / bs;
    MulCompare(q, q % BLOCK_IDS, bs);
    assert q % BLOCK_IDS <= q;
  }

  /** Below the limit the block of an offset is the one that contains it. */
  lemma BlockBelowLimit(bs: nat, off: nat)
    requires bs > 0 && off < Limit(bs)
    ensures BlockId(bs, off) == off / bs
    ensures InBlock(bs, off) < bs
  {
    DivBounds(bs, off);
    DivBelow(bs, off, BLOCK_IDS);
  }

  lemma RemainderBelow(q: nat, n: nat)
    requires 0 < n <= q
    ensures q % n + n <= q
  {
    DivBounds(n, q);
    MulCompare(q / n, 1, n);
    assert q == (q / n) * n + q % n;
  }

  lemma WrapDistance(bs: nat, q: nat, n: nat)
    requires bs > 0 && n > 0 && q >= n
    ensures q * bs >= (q % n) * bs + n * bs
    ensures (q % n) * bs + bs <= n * bs
  {
    var w := q % n;
    RemainderBelow(q, n);
    MulCompare(w, n, bs);
    MulCompare(q, w + n, bs);
    assert (w + n) * bs == w * bs + n * bs;
  }

  /** At and above the limit the block number is that of an offset at least a limit lower. */
  lemma BlockAboveLimit(bs: nat, off: nat)
    requires bs > 0 && off >= Limit(bs)
    ensures InBlock(bs, off) >= Limit(bs)
    ensures BlockStart(bs, BlockId(bs, off)) + bs <= Limit(bs)
  {
    DivBounds(bs, off);
    DivBelow(bs, off, BLOCK_IDS);
    WrapDistance(bs, off / bs, BLOCK_IDS);
  }

  /** The block number of a block's own start. */
  lemma BlockOfStart(bs: nat, id: nat)
    requires bs > 0 && id < BLOCK_IDS
    ensures BlockStart(bs, id) + bs <= Limit(bs)
    ensures BlockId(bs, BlockStart(bs, id)) == id
  {
    MulCompare(id, BLOCK_IDS, bs);
    DivUnique(bs, id * bs, id);
  }

  lemma BlockStartAligned(bs: nat, id: nat)
    requires bs > 0 && id < BLOCK_IDS
    ensures BlockStart(bs, id) < Limit(bs) && InBlock(bs, BlockStart(bs, id)) == 0
  {
    BlockOfStart(bs, id);
  }

  /** Distinct blocks occupy disjoint ranges. */
  lemma BlocksDisjoint(bs: nat, i: nat, j: nat)
    requires bs > 0 && i != j
    ensures BlockStart(bs, i) + bs <= BlockStart(bs, j) || BlockStart(bs, j) + bs <= BlockStart(bs, i)
  {
    MulCompare(i, j, bs);
    MulCompare(j, i, bs);
  }

  /** The offset just past a block starts the next block, or is the limit. */
  lemma NextBlock(bs: nat, off: nat)
    requires bs > 0 && off < Limit(bs)
    ensures var next := BlockStart(bs, BlockId(bs, off)) + bs;
      next == Limit(bs) || (next < Limit(bs) && InBlock(bs, next) == 0)
  {
    BlockBelowLimit(bs, off);
    var k := BlockId(bs, off);
    MulCompare(k, BLOCK_IDS, bs);
    BlockOfStart(bs, k);
    if k + 1 < BLOCK_IDS {
      BlockOfStart(bs, k + 1);
      MulCompare(k + 1, BLOCK_IDS, bs);
    }
  }

  /** A chunk that fills its block up ends at a multiple of the block size. */
  lemma BlockEnd(bs: nat, off: nat, n: nat)
    requires bs > 0 && InBlock(bs, off) + n == bs
    ensures (off + n) % bs == 0
  {
    hide BlockId;
    BlockStartBelow(bs, off);
    var k := BlockId(bs, off) + 1;
    MulCompare(k - 1, k, bs);
    assert off + n == k * bs;
    DivUnique(bs, k * bs, k);
    assert k * bs == (k * bs) / bs * bs + (k * bs) % bs;
  }
}
