/** What a server that is down costs: the pending extent has left the delta map and entered the caches
    before the server refuses it. */
module Outages {
  import opened Bytes
  import opened Blocks
  import opened BufferModel

  /** The server has the extent's bytes already. */
  predicate Arrived(file: seq<Byte>, d: Extent)
  {
    Slice(file, d.off, |d.data|) == d.data
  }

  /** Some descriptor on the path caches the block of the pending extent. */
  ghost predicate SharesBlock(s: State, p: Path)
    requires Shaped(s) && p in s.delta
  {
    exists g :: g in s.cache && Shares(s.bs, s.cache[g], p, s.delta[p])
  }

  predicate Shares(bs: nat, c: Cached, p: Path, d: Extent)
    requires bs > 0
  {
    c.path == p && SameBlock(bs, c.block.off, d.off)
  }

  lemma ArrivedExactly(file: seq<Byte>, d: Extent, start: nat, bs: nat)
    requires start <= d.off <= |file| && d.End() <= start + bs
    ensures Splice(file, d.off, d.data) == file <==> Arrived(file, d)
    ensures Slice(Splice(file, d.off, d.data), start, bs) == Slice(file, start, bs) <==> Arrived(file, d)
  {
    hide Splice, Slice, Arrived;
    if Arrived(file, d) { ArrivedChangesNothing(file, d); }
    if Slice(Splice(file, d.off, d.data), start, bs) == Slice(file, start, bs) { SameWindow(file, d, start, bs); }
  }

  lemma ArrivedChangesNothing(file: seq<Byte>, d: Extent)
    requires d.off <= |file| && Arrived(file, d)
    ensures Splice(file, d.off, d.data) == file
  {
    hide Splice, Slice;
    var there := Slice(file, d.off, |d.data|);
    assert forall i :: 0 <= i < |d.data| ==> file[d.off + i] == there[i];
    forall i | 0 <= i < |file| ensures Splice(file, d.off, d.data)[i] == file[i] {
      if d.off <= i < d.End() { assert there[i - d.off] == d.data[i - d.off]; }
    }
  }

  lemma SameWindow(file: seq<Byte>, d: Extent, start: nat, bs: nat)
    requires start <= d.off <= |file| && d.End() <= start + bs
    requires Slice(Splice(file, d.off, d.data), start, bs) == Slice(file, start, bs)
    ensures Arrived(file, d)
  {
    hide Splice, Slice;
    var a, b := Slice(Splice(file, d.off, d.data), start, bs), Slice(file, start, bs);
    var there := Slice(file, d.off, |d.data|);
    assert |there| == |d.data|;
    forall i | 0 <= i < |there| ensures there[i] == d.data[i] {
      assert a[d.off - start + i] == b[d.off - start + i];
    }
  }

  /** A cached block that took the refused extent over is still the server's block if and only if the
      server has those bytes already, or the block is another one. */
  lemma PatchRefused(s: State, p: Path, f: nat)
    requires Coherent(s) && p in s.delta && f in s.cache
    ensures var d, c := s.delta[p], s.cache[f];
      ServerBlock(s, Patch(s.bs, c, p, d)) <==> Arrived(s.files[p], d) || !Shares(s.bs, c, p, d)
  {
    hide Slice, Splice, Arrived, BlockId;
    var d, c := s.delta[p], s.cache[f];
    if Shares(s.bs, c, p, d) {
      BlockStartBelow(s.bs, d.off);
      SliceOfSpliceInside(s.files[p], d.off, d.data, c.block.off, s.bs);
      ArrivedExactly(s.files[p], d, c.block.off, s.bs);
    }
  }

  /** The refused extent leaves the caches true if and only if the server has its bytes already, or no
      descriptor caches its block. */
  lemma RefusedPush(s: State, p: Path)
    requires Coherent(s) && !s.up && p in s.delta
    ensures Coherent(Push(s, p)) <==> Arrived(s.files[p], s.delta[p]) || !SharesBlock(s, p)
  {
    hide Slice, Splice, Arrived, BlockId, Patch;
    var s1 := Push(s, p);
    PushShaped(s, p);
    forall f | f in s.cache
      ensures ServerBlock(s1, s1.cache[f]) <==>
        Arrived(s.files[p], s.delta[p]) || !Shares(s.bs, s.cache[f], p, s.delta[p])
    {
      PatchRefused(s, p, f);
    }
    forall q | q in s1.delta ensures HasWriter(s1, q) { assert HasWriter(s, q); }
  }

  /** A flush or close by a writer while the server is down answers an error, and the pending extent is
      gone for good. The file in view keeps its bytes if and only if the server had them already; if it
      had not, the view goes back, and the caches stay true if and only if none holds the block. */
  lemma OutageLosesDelta(s: State, f: nat)
    requires Coherent(s) && !s.up && f in s.open && s.open[f].writable && s.open[f].path in s.delta
    ensures var p := s.open[f].path; var (s1, st) := FlushDelta(s, f);
      && st == -ENOENT && Flush(s, f) == (s1, st) && Close(s, f) == (s1, st)
      && p !in s1.delta && s1.files == s.files && s1.open == s.open
      && (View(s1, p) == View(s, p) <==> Arrived(s.files[p], s.delta[p]))
      && (Coherent(s1) <==> Arrived(s.files[p], s.delta[p]) || !SharesBlock(s, p))
  {
    hide Slice, Splice, Arrived, SharesBlock;
    var p := s.open[f].path;
    RefusedPush(s, p);
    ArrivedExactly(s.files[p], s.delta[p], s.delta[p].off, |s.delta[p].data|);
  }

  /** What remains of the pending extent when a chunk at `off` took its place: the server has its bytes, a
      byte past the end of the file counting as zero, and the file reaches past it. */
  predicate Remains(file: seq<Byte>, d: Extent, off: nat)
  {
    && (d.End() <= |file| || d.End() <= off)
    && forall i :: 0 <= i < |d.data| ==> d.data[i] == if d.off + i < |file| then file[d.off + i] else 0
  }

  lemma RemainsExactly(file: seq<Byte>, d: Extent, off: nat, data: seq<Byte>)
    requires d.off <= |file| && d.data != [] && data != []
    requires d.End() <= off || off + |data| <= d.off
    ensures Splice(file, off, data) == Splice(Splice(file, d.off, d.data), off, data) <==> Remains(file, d, off)
  {
    hide Splice, Remains;
    if Remains(file, d, off) { RemainsSame(file, d, off, data); }
    if Splice(file, off, data) == Splice(Splice(file, d.off, d.data), off, data) { SameRemains(file, d, off, data); }
  }

  lemma SameRemains(file: seq<Byte>, d: Extent, off: nat, data: seq<Byte>)
    requires d.off <= |file| && d.data != [] && data != []
    requires d.End() <= off || off + |data| <= d.off
    requires Splice(file, off, data) == Splice(Splice(file, d.off, d.data), off, data)
    ensures Remains(file, d, off)
  {
    hide Splice;
    var a, b := Splice(file, off, data), Splice(Splice(file, d.off, d.data), off, data);
    assert |a| == |b|;
    forall i | 0 <= i < |d.data| ensures d.data[i] == if d.off + i < |file| then file[d.off + i] else 0 {
      assert b[d.off + i] == d.data[i] && a[d.off + i] == b[d.off + i];
    }
  }

  lemma RemainsSame(file: seq<Byte>, d: Extent, off: nat, data: seq<Byte>)
    requires d.off <= |file| && d.data != [] && data != [] && Remains(file, d, off)
    ensures Splice(file, off, data) == Splice(Splice(file, d.off, d.data), off, data)
  {
    hide Splice;
    var a, b := Splice(file, off, data), Splice(Splice(file, d.off, d.data), off, data);
    assert |a| == |b|;
    forall i | 0 <= i < |a| ensures a[i] == b[i] {
      if d.off <= i < d.End() {
        var k := i - d.off;
        assert d.data[k] == if d.off + k < |file| then file[d.off + k] else 0;
      }
    }
  }

  lemma ExtentsApart(bs: nat, d: Extent, off: nat, size: nat)
    requires bs > 0 && OneBlock(bs, d.off, |d.data|) && OneBlock(bs, off, size) && !Touches(bs, d, off, size)
    ensures d.End() <= off || off + size <= d.off
  {
    hide BlockId;
    if !SameBlock(bs, d.off, off) {
      BlocksDisjoint(bs, BlockId(bs, d.off), BlockId(bs, off));
      BlockStartBelow(bs, d.off);
      BlockStartBelow(bs, off);
    }
  }

  /** A chunk that displaces the pending extent while the server is down answers an error, but stays
      pending itself; the displaced bytes are gone. The view is as if both had been written if and only
      if the displaced bytes remain, and the cache stays coherent if and only if the chunk leaves no gap
      in the server's file and the displaced extent left the caches true. */
  lemma OutageDisplaces(s: State, f: nat, off: nat, data: seq<Byte>)
    requires Coherent(s) && !s.up && f in s.open && s.open[f].writable && OneBlock(s.bs, off, |data|)
    requires Displaces(s, s.open[f].path, off, |data|)
    ensures var p := s.open[f].path; var (s1, st) := WriteBlock(s, f, off, data);
      && st == -ENOENT && s1.files == s.files && p in s1.delta && s1.delta[p] == Extent(off, data)
      && (View(s1, p) == Splice(View(s, p), off, data) <==> Remains(s.files[p], s.delta[p], off))
      && (Coherent(s1) <==>
            off <= |s.files[p]| && (Arrived(s.files[p], s.delta[p]) || !SharesBlock(s, p)))
  {
    hide Slice, Splice, Arrived, SharesBlock, BlockId, Patch, Remains, Aligned;
    var p := s.open[f].path;
    RefusedPush(s, p);
    ExtentsApart(s.bs, s.delta[p], off, |data|);
    RemainsExactly(s.files[p], s.delta[p], off, data);
    PushShaped(s, p);
    PendingAgain(s, Push(s, p), p, f, Extent(off, data));
  }

  lemma PendingAgain(s: State, s1: State, p: Path, f: nat, e: Extent)
    requires Coherent(s) && f in s.open && s.open[f] == Desc(p, true) && p in s.delta && OneBlock(s.bs, e.off, |e.data|)
    requires Shaped(s1) && s1 == s.(delta := s.delta - {p}, cache := s1.cache)
    ensures var s2 := s1.(delta := s1.delta[p := e]);
      Coherent(s2) <==> e.off <= |s.files[p]| && Coherent(s1)
  {
    hide Slice, Aligned, OneBlock;
    var s2 := s1.(delta := s1.delta[p := e]);
    assert HasWriter(s2, p);
    forall q | q in s.delta ensures HasWriter(s1, q) && HasWriter(s2, q) { assert HasWriter(s, q); }
    assert forall q :: q in s1.delta ==> q in s2.delta && s2.delta[q] == s1.delta[q];
    assert p in s2.delta && s2.delta[p] == e;
  }

  lemma DownStatus(s: State, f: nat, off: nat, data: seq<Byte>)
    requires Shaped(s) && !s.up && f in s.open
    ensures WriteBlock(s, f, off, data).1 == if Displaces(s, s.open[f].path, off, |data|) then -ENOENT else 0
  {
  }

  lemma OutageFirstChunk(s: State, f: nat, off: nat, data: seq<Byte>)
    requires Shaped(s) && !s.up && f in s.open && off + |data| <= Limit(s.bs) && data != []
    requires OneBlock(s.bs, off, FirstChunk(s.bs, off, |data|))
    ensures var p, n := s.open[f].path, FirstChunk(s.bs, off, |data|);
      var s1 := WriteBlock(s, f, off, data[..n]).0;
      && (Displaces(s, p, off, n) ==> Write(s, f, off, data) == (s1, -ENOENT))
      && (!Displaces(s, p, off, n) && n == |data| ==> Write(s, f, off, data) == (s1, n))
  {
    hide Shaped, WriteBlock, BlockId, OneBlock, Displaces, Write, FirstChunk, Limit;
    CountPositive(s);
    var n := FirstChunk(s.bs, off, |data|);
    WriteUnfold(s, f, off, data);
    DownStatus(s, f, off, data[..n]);
    if n == |data| {
      assert data[n..] == [];
      WriteNone(WriteBlock(s, f, off, data[..n]).0, f, off + n);
    }
  }

  lemma OutageSecondChunk(s: State, f: nat, off: nat, data: seq<Byte>)
    requires Shaped(s) && !s.up && f in s.open && off + |data| <= Limit(s.bs) && data != []
    requires FirstChunk(s.bs, off, |data|) < |data|
    requires !Displaces(s, s.open[f].path, off, FirstChunk(s.bs, off, |data|))
    ensures var n := FirstChunk(s.bs, off, |data|);
      var s1 := WriteBlock(s, f, off, data[..n]).0;
      && Shaped(s1) && f in s1.open && s1.bs == s.bs && off + n < Limit(s.bs)
      && var m := FirstChunk(s.bs, off + n, |data| - n);
         Write(s, f, off, data) == (WriteBlock(s1, f, off + n, data[n..][..m]).0, -ENOENT)
  {
    hide Shaped, WriteBlock, BlockId, OneBlock, Displaces, Write, FirstChunk, Limit;
    var n := FirstChunk(s.bs, off, |data|);
    var s1 := WriteBlock(s, f, off, data[..n]).0;
    WriteUnfold(s, f, off, data);
    DownStatus(s, f, off, data[..n]);
    NextChunk(s.bs, off, |data|);
    var m := FirstChunk(s.bs, off + n, |data| - n);
    NextDisplaces(s, f, off, data[..n], off + n, m);
    OutageFirstChunk(s1, f, off + n, data[n..]);
  }

  /** While the server is down a write is accepted if and only if it stays in one block and displaces no
      pending extent; otherwise it stops with an error at the first chunk that displaces one, which is
      the first or the second. */
  lemma OutageWrite(s: State, f: nat, off: nat, data: seq<Byte>)
    requires Coherent(s) && !s.up && f in s.open && off + |data| <= Limit(s.bs) && data != []
    ensures s.bs > 0 && off < Limit(s.bs)
    ensures var n := FirstChunk(s.bs, off, |data|); var st := Write(s, f, off, data).1;
      st == if n == |data| && !Displaces(s, s.open[f].path, off, n) then |data| else -ENOENT
  {
    hide Coherent, Shaped, WriteBlock, BlockId, OneBlock, Displaces, Write, FirstChunk;
    CoherentIsShaped(s);
    var n := FirstChunk(s.bs, off, |data|);
    if n < |data| && !Displaces(s, s.open[f].path, off, n) {
      OutageSecondChunk(s, f, off, data);
    } else {
      OutageFirstChunk(s, f, off, data);
    }
  }

  /** While the server is down nothing is opened, created or flushed, and no size is known; a descriptor
      with nothing pending is closed all the same. */
  lemma DownRefuses(s: State, p: Path, f: nat, writable: bool)
    requires Shaped(s) && !s.up && f in s.open
    ensures Open(s, p, writable) == (s, -ENOENT) && Create(s, p) == (s, -ENOENT) && GetAttr(s, p) == -ENOENT
    ensures !(s.open[f].writable && s.open[f].path in s.delta) ==>
      && Flush(s, f) == (s, -ENOENT)
      && Close(s, f) == (s.(cache := s.cache - {f}, open := s.open - {f}), 0)
  {
    hide Shaped;
  }

  /** The read goes on after its first block. */
  predicate GoesOn(bs: nat, view: seq<Byte>, off: nat, size: nat)
    requires bs > 0
  {
    InBlock(bs, off) < bs < InBlock(bs, off) + size && |Slice(view, BlockStart(bs, BlockId(bs, off)), bs)| == bs
  }

  /** While the server is down a read is answered if and only if the descriptor has cached its first block
      and it needs no other; the bytes are those of `ReadExact`. */
  lemma ReadDown(s: State, f: nat, off: nat, size: nat, buf: seq<Byte>)
    requires Coherent(s) && !s.up && f in s.open && |buf| == s.bs
    ensures s.bs > 0
    ensures Read(s, f, off, size, buf).1 != ReadError <==>
      size == 0 || (Hit(s, f, BlockId(s.bs, off)) && !GoesOn(s.bs, View(s, s.open[f].path), off, size))
  {
    hide Coherent, Shaped, ReadBlock, View, BlockId, HoldsBlock, Slice, Read, Hit, Limit;
    CoherentIsShaped(s);
    CountPositive(s);
    if size == 0 {
      ReadNone(s, f, off, buf);
    } else {
      var id, at := BlockId(s.bs, off), InBlock(s.bs, off);
      ReadBlockView(s, f, id, buf);
      ReadUnfold(s, f, off, size, buf);
      var r := ReadBlock(s, f, id, buf);
      if r.Got? {
        HeldBytes(s, s.open[f].path, off, r.buf, r.n, 0);
        HeldFits(s, s.open[f].path, id, r.buf, r.n);
        if GoesOn(s.bs, View(s, s.open[f].path), off, size) {
          NextMisses(s, f, off, s.bs - at);
          ReadUnfold(s, f, off + (s.bs - at), size - (s.bs - at), r.buf);
          ReadBlockView(s, f, BlockId(s.bs, off + (s.bs - at)), r.buf);
        } else if r.n == s.bs && at < s.bs {
          ReadNone(s, f, off + size, r.buf);
        }
      }
    }
  }

  lemma NextMisses(s: State, f: nat, off: nat, c: nat)
    requires Shaped(s) && s.bs > 0 && Hit(s, f, BlockId(s.bs, off)) && InBlock(s.bs, off) < s.bs
    requires c == s.bs - InBlock(s.bs, off)
    ensures !Hit(s, f, BlockId(s.bs, off + c))
  {
    hide BlockId, Limit, Shaped;
    if off >= Limit(s.bs) { BlockAboveLimit(s.bs, off); FullLimit(s.bs); }
    NextId(s.bs, off, c);
    var i, j := BlockId(s.bs, off), BlockId(s.bs, off + c);
    BlocksDisjoint(s.bs, i, j);
  }

  lemma FullLimit(bs: nat)
    requires bs > 0
    ensures Limit(bs) >= bs
  {
  }

  lemma NextId(bs: nat, off: nat, c: nat)
    requires bs > 0 && off < Limit(bs) && c > 0 && InBlock(bs, off) + c == bs
    ensures BlockId(bs, off + c) != BlockId(bs, off)
  {
    hide Limit;
    DivBounds(bs, off);
    BlockBelowLimit(bs, off);
    var k := off / bs;
    MulCompare(k, k + 1, bs);
    DivUnique(bs, off + c, k + 1);
    DivBelow(bs, off, BLOCK_IDS);
    LimitIs(bs);
  }

  lemma LimitIs(bs: nat)
    ensures Limit(bs) == BLOCK_IDS * bs
  {
  }

  /** Two descriptors on a file of four bytes, the first with its block cached, a new first byte pending,
      and the server down. */
  function Down(): State
  {
    State(4, false, map["f" := [1, 1, 1, 1]], map[0 := Desc("f", true), 1 := Desc("f", false)], 2,
          map["f" := Extent(0, [2])], map[0 := Cached("f", Extent(0, [1, 1, 1, 1]))])
  }

  function Refused(): State
  {
    Down().(delta := map[], cache := map[0 := Cached("f", Extent(0, [2, 1, 1, 1]))])
  }

  lemma DownFlush()
    ensures Coherent(Down()) && FlushDelta(Down(), 0) == (Refused(), -ENOENT)
  {
    hide Splice, Slice, BlockId, InBlock, BlockStart, Zeros;
    FourBytes();
    assert Down().open[0] == Desc("f", true);
    assert Push(Down(), "f").cache == Refused().cache;
  }

  /** After the flush failed and the server is back, the two descriptors read different bytes. */
  lemma ReadersDisagree()
    ensures Coherent(Down()) && FlushDelta(Down(), 0) == (Refused(), -ENOENT)
    ensures var s := Refused().(up := true);
      && Shaped(s) && 0 in s.open && 1 in s.open && View(s, "f") == [1, 1, 1, 1]
      && ReadBlock(s, 0, 0, Zeros(4)) == Got(s, [2, 1, 1, 1], 4)
      && ReadBlock(s, 1, 0, Zeros(4)).Got? && ReadBlock(s, 1, 0, Zeros(4)).buf == [1, 1, 1, 1]
  {
    hide Splice, Slice, BlockId, InBlock, BlockStart, Zeros, FlushDelta;
    FourBytes();
    DownFlush();
  }

  /** Instead of the flush, a byte is written into the next block: an error is answered, the byte written
      stays pending, and the one that was pending is lost. */
  lemma ByteLost()
    ensures Coherent(Down()) && Splice(View(Down(), "f"), 4, [3]) == [2, 1, 1, 1, 3]
    ensures var (s, st) := WriteBlock(Down(), 0, 4, [3]);
      st == -ENOENT && s == Refused().(delta := map["f" := Extent(4, [3])]) && View(s, "f") == [1, 1, 1, 1, 3]
  {
    hide Splice, Slice, BlockId, InBlock, BlockStart, Zeros, FlushDelta;
    FourBytes();
    NextByte();
    DownFlush();
    assert Down().open[0] == Desc("f", true);
    assert Push(Down(), "f") == Refused() by { PushedIsFlushed(); }
  }

  lemma PushedIsFlushed()
    requires Shaped(Down()) && FlushDelta(Down(), 0) == (Refused(), -ENOENT)
    ensures Push(Down(), "f") == Refused()
  {
    hide Push;
  }

  lemma NextByte()
    ensures BlockId(4, 4) == 1 && InBlock(4, 4) == 0
    ensures Splice([2, 1, 1, 1], 4, [3]) == [2, 1, 1, 1, 3] && Splice([1, 1, 1, 1], 4, [3]) == [1, 1, 1, 1, 3]
  {
  }

  lemma FourBytes()
    ensures BlockId(4, 0) == 0 && InBlock(4, 0) == 0 && BlockStart(4, 0) == 0
    ensures Slice([1, 1, 1, 1], 0, 4) == [1, 1, 1, 1] && Splice([1, 1, 1, 1], 0, [2]) == [2, 1, 1, 1]
    ensures Splice(Zeros(4), 0, [1, 1, 1, 1]) == [1, 1, 1, 1] && Splice(Zeros(4), 0, [2, 1, 1, 1]) == [2, 1, 1, 1]
  {
  }
}
