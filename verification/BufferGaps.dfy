/** Writes that start past the end of the file: when a block read still shows the file with zeros in the gap. */
module BufferGaps {
  import opened Bytes
  import opened Blocks
  import opened BufferModel

  /** The byte at `i` of the block at `start` lies between the end of the file and the pending extent. */
  predicate InGap(file: seq<Byte>, d: Extent, start: nat, i: nat)
  {
    |file| <= start + i < d.off
  }

  /** The pending extent laid over a clean block gives the block of the view if and only if every byte of
      the gap that falls into the block is in the extent's own block, and the caller's buffer happened to
      hold a zero there. A delta that starts inside the file leaves no such byte. */
  lemma OverlayExact(s: State, p: Path, id: nat, buf: seq<Byte>)
    requires Shaped(s) && p in s.files && p in s.delta && id < BLOCK_IDS && |buf| == s.bs
    ensures var file, d, start := s.files[p], s.delta[p], BlockStart(s.bs, id);
      var (b, n) := Overlay(s, p, id, Slice(file, start, s.bs), buf);
      HoldsBlock(s, p, id, b, n) <==>
        forall i :: 0 <= i < s.bs && InGap(file, d, start, i) ==> id == BlockId(s.bs, d.off) && buf[i] == 0
  {
    hide BlockId, Splice, Slice, InGap, Limit;
    DeltaShape(s, p);
    var d := s.delta[p];
    BlockBelowLimit(s.bs, d.off);
    if id == BlockId(s.bs, d.off) {
      OwnBlock(s.files[p], d, BlockStart(s.bs, id), s.bs, buf);
    } else {
      BlocksDisjoint(s.bs, id, BlockId(s.bs, d.off));
      OtherBlock(s.files[p], d, BlockStart(s.bs, id), s.bs, buf);
    }
  }

  lemma DeltaShape(s: State, p: Path)
    requires Shaped(s) && p in s.delta
    ensures s.bs > 0 && OneBlock(s.bs, s.delta[p].off, |s.delta[p].data|)
  {
  }

  lemma OwnBlock(file: seq<Byte>, d: Extent, start: nat, bs: nat, buf: seq<Byte>)
    requires |buf| == bs && start <= d.off && d.End() <= start + bs && d.data != []
    ensures var block := Slice(file, start, bs);
      var b := Splice(Splice(buf, 0, block), d.off - start, d.data);
      var n := Max(|block|, d.End() - start);
      n <= |b| && (b[..n] == Slice(Splice(file, d.off, d.data), start, bs) <==>
        forall i :: 0 <= i < bs && InGap(file, d, start, i) ==> buf[i] == 0)
  {
    hide Splice, Slice;
    var block := Slice(file, start, bs);
    var b := Splice(Splice(buf, 0, block), d.off - start, d.data);
    var n := Max(|block|, d.End() - start);
    var want := Slice(Splice(file, d.off, d.data), start, bs);
    assert |want| == n;
    forall i | 0 <= i < n
      ensures if InGap(file, d, start, i) then b[i] == buf[i] && want[i] == 0 else b[i] == want[i]
    {
    }
    forall i | 0 <= i < bs && InGap(file, d, start, i) ensures i < n { }
    assert b[..n] == want <==> forall i :: 0 <= i < n ==> b[i] == want[i];
  }

  lemma OtherBlock(file: seq<Byte>, d: Extent, start: nat, bs: nat, buf: seq<Byte>)
    requires |buf| == bs > 0 && (start + bs <= d.off || d.End() <= start) && d.data != []
    ensures var block := Slice(file, start, bs);
      && |Splice(buf, 0, block)| == bs && Splice(buf, 0, block)[..|block|] == block
      && (block == Slice(Splice(file, d.off, d.data), start, bs) <==>
            forall i :: 0 <= i < bs ==> !InGap(file, d, start, i))
  {
    var block, want := Slice(file, start, bs), Slice(Splice(file, d.off, d.data), start, bs);
    if d.End() <= start || |file| >= start + bs {
      assert block == want;
    } else {
      assert |want| == bs && |block| < bs;
      assert InGap(file, d, start, bs - 1);
    }
  }

  // ---------- writes over several blocks ----------

  /** Some byte of the block at `start` lies in the gap between the end of the file and `off`. */
  predicate Gapped(file: seq<Byte>, start: nat, bs: nat, off: nat)
  {
    |file| < start + bs && start < off
  }

  /** Every descriptor's cached block of the path is the block of `off` or has no byte in the gap. */
  ghost predicate NoGapCached(s: State, p: Path, off: nat)
    requires s.bs > 0
  {
    forall g :: g in s.cache && s.cache[g].path == p ==> GapFree(s.bs, View(s, p), s.cache[g].block.off, off)
  }

  predicate GapFree(bs: nat, file: seq<Byte>, start: nat, off: nat)
    requires bs > 0
  {
    SameBlock(bs, start, off) || !Gapped(file, start, bs, off)
  }

  /** When an extent with a gap before it reaches the server, a cached block stays the server's block if
      and only if it is the extent's own or has no byte in the gap. */
  lemma PatchGap(bs: nat, file: seq<Byte>, c: Cached, p: Path, e: Extent)
    requires bs > 0 && Aligned(bs, c.block) && c.path == p && c.block.data == Slice(file, c.block.off, bs)
    requires OneBlock(bs, e.off, |e.data|) && |file| < e.off
    ensures var c1 := Patch(bs, c, p, e);
      c1.block.data == Slice(Splice(file, e.off, e.data), c1.block.off, bs) <==> GapFree(bs, file, c.block.off, e.off)
  {
    hide Splice, Slice, BlockId, Limit;
    var start := c.block.off;
    BlockStartBelow(bs, e.off);
    BlockBelowLimit(bs, e.off);
    BlockBelowLimit(bs, start);
    if SameBlock(bs, start, e.off) {
      SlicePatched(file, e, start, bs);
    } else {
      BlocksDisjoint(bs, BlockId(bs, start), BlockId(bs, e.off));
      SliceBeside(file, e, start, bs);
    }
  }

  lemma SlicePatched(file: seq<Byte>, e: Extent, start: nat, bs: nat)
    requires start <= e.off && e.End() <= start + bs && e.data != []
    ensures Splice(Slice(file, start, bs), e.off - start, e.data) == Slice(Splice(file, e.off, e.data), start, bs)
  {
    hide Splice, Slice;
  }

  lemma SliceBeside(file: seq<Byte>, e: Extent, start: nat, bs: nat)
    requires start + bs <= e.off || e.End() <= start
    requires |file| < e.off && bs > 0 && e.data != []
    ensures Slice(file, start, bs) == Slice(Splice(file, e.off, e.data), start, bs) <==> !Gapped(file, start, bs, e.off)
  {
    hide Splice, Slice;
    var a, b := Slice(file, start, bs), Slice(Splice(file, e.off, e.data), start, bs);
    if Gapped(file, start, bs, e.off) {
      assert |b| == bs && |a| < bs;
    } else {
      assert a == b;
    }
  }

  /** A cached block that is not the server's, before everything still to be written. */
  ghost predicate Stale(s: State, p: Path, g: nat, at: nat)
  {
    && Shaped(s) && p in s.files && g in s.cache && s.cache[g].path == p
    && s.cache[g].block.off + s.bs <= at && s.cache[g].block.off + s.bs <= |s.files[p]|
    && (p in s.delta ==> s.cache[g].block.off + s.bs <= s.delta[p].off)
    && s.cache[g].block.data != Slice(s.files[p], s.cache[g].block.off, s.bs)
  }

  lemma StaleChunk(s: State, f: nat, off: nat, data: seq<Byte>, g: nat)
    requires f in s.open && Stale(s, s.open[f].path, g, off) && OneBlock(s.bs, off, |data|)
    ensures Stale(WriteBlock(s, f, off, data).0, s.open[f].path, g, off + |data|)
    ensures WriteBlock(s, f, off, data).0.open == s.open
  {
    hide Splice, Slice, BlockId, Limit, Aligned;
    var p := s.open[f].path;
    WriteBlockShaped(s, f, off, data);
    if p in s.delta && Displaces(s, p, off, |data|) {
      var d, c := s.delta[p], s.cache[g];
      NotSame(s.bs, c.block.off, d.off);
      assert Patch(s.bs, c, p, d) == c;
      SliceKept(s.files[p], d, c.block.off, s.bs);
    }
  }

  lemma NotSame(bs: nat, start: nat, off: nat)
    requires bs > 0 && start + bs <= off && off < Limit(bs)
    ensures !SameBlock(bs, start, off)
  {
    BlockBelowLimit(bs, off);
    BlockBelowLimit(bs, start);
    BlockStartBelow(bs, start);
  }

  lemma SliceKept(file: seq<Byte>, d: Extent, start: nat, bs: nat)
    requires start + bs <= d.off && start + bs <= |file|
    ensures Slice(Splice(file, d.off, d.data), start, bs) == Slice(file, start, bs)
  {
    hide Splice, Slice;
  }

  lemma {:induction false} StaleStays(s: State, f: nat, off: nat, data: seq<Byte>, g: nat)
    requires f in s.open && Stale(s, s.open[f].path, g, off) && off + |data| <= Limit(s.bs)
    ensures !Coherent(Write(s, f, off, data).0)
    decreases |data|
  {
    hide Stale, WriteBlock, Write, OneBlock;
    StaleFacts(s, s.open[f].path, g, off);
    if data == [] {
      WriteNone(s, f, off);
    } else {
      var n := FirstChunk(s.bs, off, |data|);
      WriteUnfold(s, f, off, data);
      StaleChunk(s, f, off, data[..n], g);
      var (s1, st) := WriteBlock(s, f, off, data[..n]);
      StaleFacts(s1, s.open[f].path, g, off + n);
      if st >= 0 { StaleStays(s1, f, off + n, data[n..], g); }
    }
  }

  lemma StaleFacts(s: State, p: Path, g: nat, at: nat)
    requires Stale(s, p, g, at)
    ensures Shaped(s) && s.bs > 0 && !Coherent(s)
  {
  }

  /** The state under a chunk that left a gap is coherent and has the file that was in view. */
  lemma GapBase(s: State, f: nat, off: nat, data: seq<Byte>)
    requires Coherent(s) && s.up && f in s.open && off > |View(s, s.open[f].path)| && OneBlock(s.bs, off, |data|)
    ensures var p := s.open[f].path; var s1 := WriteBlock(s, f, off, data).0; var t := s1.(delta := s1.delta - {p});
      && Coherent(t) && p in t.files && t.files[p] == View(s, p) && s1 == t.(delta := t.delta[p := Extent(off, data)])
      && SamePlaces(s, t)
  {
    hide BlockId, Merge, Splice, Slice, OneBlock, Aligned;
    var p := s.open[f].path;
    GapIsPending(s, f, off, data);
    var s1 := WriteBlock(s, f, off, data).0;
    if p in s.delta {
      PushView(s, p);
      assert s1.(delta := s1.delta - {p}) == Push(s, p);
    } else {
      assert s1.delta - {p} == s.delta;
    }
  }

  /** Every descriptor's cached block is at the same place as before. */
  ghost predicate SamePlaces(s: State, t: State)
  {
    && t.open == s.open && t.bs == s.bs && t.up == s.up && t.cache.Keys == s.cache.Keys
    && forall g :: g in s.cache ==> t.cache[g].path == s.cache[g].path && t.cache[g].block.off == s.cache[g].block.off
  }

  /** The pending extent `e` of `p` was sent to the server, over the gap, and `e2` is pending now. */
  function Sent(t: State, p: Path, e: Extent, e2: Extent): State
    requires t.bs > 0 && p in t.files
  {
    t.(files := t.files[p := Splice(t.files[p], e.off, e.data)], cache := ApplyDelta(t.bs, t.cache, p, e),
       delta := t.delta[p := e2])
  }

  lemma SentIsPushed(t: State, p: Path, e: Extent, e2: Extent)
    requires Shaped(t) && t.up && p in t.files && p !in t.delta && OneBlock(t.bs, e.off, |e.data|)
    ensures var s1 := t.(delta := t.delta[p := e]);
      Shaped(s1) && var u := Push(s1, p); u.(delta := u.delta[p := e2]) == Sent(t, p, e, e2)
  {
    hide BlockId, Splice, OneBlock, Aligned, Patch;
    assert t.delta[p := e] - {p} == t.delta;
  }

  lemma SentShaped(t: State, p: Path, e: Extent, e2: Extent)
    requires Shaped(t) && p in t.files && OneBlock(t.bs, e.off, |e.data|) && OneBlock(t.bs, e2.off, |e2.data|)
    ensures Shaped(Sent(t, p, e, e2)) && Sent(t, p, e, e2).cache.Keys == t.cache.Keys
  {
    hide BlockId, Splice, OneBlock, Aligned, Patch;
    forall f | f in t.cache { PatchAligned(t.bs, t.cache[f], p, e); }
  }

  lemma SentBlocks(t: State, p: Path, e: Extent, e2: Extent, g: nat)
    requires Coherent(t) && p in t.files && OneBlock(t.bs, e.off, |e.data|) && |t.files[p]| < e.off && g in t.cache
    ensures var s2 := Sent(t, p, e, e2);
      && s2.cache[g].path == t.cache[g].path && s2.cache[g].block.off == t.cache[g].block.off
      && (ServerBlock(s2, s2.cache[g]) <==>
            t.cache[g].path != p || GapFree(t.bs, t.files[p], t.cache[g].block.off, e.off))
  {
    hide BlockId, Splice, Slice, Patch, SameBlock, Gapped, Aligned, OneBlock;
    PatchAligned(t.bs, t.cache[g], p, e);
    if t.cache[g].path == p {
      PatchGap(t.bs, t.files[p], t.cache[g], p, e);
    } else {
      OtherPatch(t.bs, t.cache[g], p, e);
    }
  }

  lemma OtherPatch(bs: nat, c: Cached, p: Path, e: Extent)
    requires bs > 0 && c.path != p
    ensures Patch(bs, c, p, e) == c
  {
  }

  /** Sending an extent over a gap leaves the state coherent, or a cached block stale for good. */
  lemma SentCoherent(t: State, p: Path, e: Extent, f: nat, e2: Extent)
    requires Coherent(t) && f in t.open && t.open[f] == Desc(p, true) && p !in t.delta
    requires OneBlock(t.bs, e.off, |e.data|) && |t.files[p]| < e.off
    requires OneBlock(t.bs, e2.off, |e2.data|) && e2.off == e.End() && NoGapCached(t, p, e.off)
    ensures Coherent(Sent(t, p, e, e2)) && e2.End() <= |View(Sent(t, p, e, e2), p)|
  {
    hide BlockId, Splice, Slice, Patch, ApplyDelta, Limit, GapFree, Aligned, OneBlock;
    var s2 := Sent(t, p, e, e2);
    SentShaped(t, p, e, e2);
    EndBelow(t.bs, e2);
    EndBelow(t.bs, e);
    forall g | g in s2.cache ensures ServerBlock(s2, s2.cache[g]) {
      SentBlocks(t, p, e, e2, g);
    }
    assert HasWriter(s2, p);
    forall q | q in s2.delta ensures HasWriter(s2, q) { if q != p { assert HasWriter(t, q); } }
  }

  lemma SentStale(t: State, p: Path, e: Extent, e2: Extent)
    requires Coherent(t) && p in t.files && p !in t.delta
    requires OneBlock(t.bs, e.off, |e.data|) && |t.files[p]| < e.off
    requires OneBlock(t.bs, e2.off, |e2.data|) && e2.off == e.End() && !NoGapCached(t, p, e.off)
    ensures exists g :: Stale(Sent(t, p, e, e2), p, g, e2.End())
  {
    hide BlockId, Splice, Slice, Patch, ApplyDelta, Limit, GapFree, Aligned, OneBlock;
    var s2 := Sent(t, p, e, e2);
    SentShaped(t, p, e, e2);
    var g :| g in t.cache && t.cache[g].path == p && !GapFree(t.bs, t.files[p], t.cache[g].block.off, e.off);
    SentBlocks(t, p, e, e2, g);
    PlaceFacts(t, g);
    EndBelow(t.bs, e);
    GapBefore(t.bs, t.files[p], t.cache[g].block.off, e.off);
    assert Stale(s2, p, g, e2.End());
  }

  lemma PlaceFacts(t: State, g: nat)
    requires Shaped(t) && g in t.cache
    ensures t.bs > 0 && t.cache[g].block.off < Limit(t.bs) && InBlock(t.bs, t.cache[g].block.off) == 0
  {
  }

  lemma EndBelow(bs: nat, e: Extent)
    requires bs > 0 && OneBlock(bs, e.off, |e.data|)
    ensures e.off < Limit(bs) && e.data != []
  {
  }

  lemma GapBefore(bs: nat, file: seq<Byte>, start: nat, off: nat)
    requires bs > 0 && start < Limit(bs) && InBlock(bs, start) == 0 && off < Limit(bs) && !GapFree(bs, file, start, off)
    ensures start + bs <= off
  {
    hide BlockId;
    BlockStartBelow(bs, off);
    BlockBelowLimit(bs, off);
    BlocksDisjoint(bs, BlockId(bs, start), BlockId(bs, off));
  }

  /** A write, over any number of blocks, through a writable descriptor: the state stays coherent if and
      only if there is no gap, or the write reaches past its first block and no descriptor has cached a
      block of the gap before it. */
  lemma WriteExact(s: State, f: nat, off: nat, data: seq<Byte>)
    requires Coherent(s) && s.up && f in s.open && s.open[f].writable && data != [] && off + |data| <= Limit(s.bs)
    ensures s.bs > 0 && off < Limit(s.bs)
    ensures var p := s.open[f].path;
      Coherent(Write(s, f, off, data).0) <==>
        off <= |View(s, p)| || (FirstChunk(s.bs, off, |data|) < |data| && NoGapCached(s, p, off))
  {
    hide Coherent, Shaped, WriteBlock, View, OneBlock, BlockId, NoGapCached, Limit, Write, FirstChunk, Stale, Push,
         SamePlaces;
    CoherentIsShaped(s);
    var p := s.open[f].path;
    if off <= |View(s, p)| {
      WriteView(s, f, off, data);
    } else {
      var n := FirstChunk(s.bs, off, |data|);
      var s1 := WriteBlock(s, f, off, data[..n]).0;
      WriteUnfold(s, f, off, data);
      WriteBlockView(s, f, off, data[..n]);
      if n == |data| {
        assert data[n..] == [];
        WriteNone(s1, f, off + n);
      } else {
        GapThenMore(s, f, off, data);
      }
    }
  }

  lemma GapThenChunk(s: State, f: nat, off: nat, head: seq<Byte>, next: seq<Byte>)
    requires Coherent(s) && s.up && f in s.open && s.open[f].writable && OneBlock(s.bs, off, |head|)
    requires off > |View(s, s.open[f].path)| && OneBlock(s.bs, off + |head|, |next|)
    requires BlockId(s.bs, off + |head|) != BlockId(s.bs, off)
    ensures var p := s.open[f].path; var s1 := WriteBlock(s, f, off, head).0;
      && Shaped(s1) && f in s1.open
      && var (s2, st) := WriteBlock(s1, f, off + |head|, next);
         var end := off + |head| + |next|;
         && st == 0 && s2.open == s.open && s2.up
         && (NoGapCached(s, p, off) ==> Coherent(s2) && end <= |View(s2, p)|)
         && (!NoGapCached(s, p, off) ==> exists g :: Stale(s2, p, g, end))
  {
    hide Coherent, Shaped, View, OneBlock, BlockId, NoGapCached, Limit, Stale, Sent, SameBlock, Touches, Merge;
    CoherentIsShaped(s);
    CountPositive(s);
    var p, s1 := s.open[f].path, WriteBlock(s, f, off, head).0;
    WriteBlockShaped(s, f, off, head);
    NextDisplaces(s, f, off, head, off + |head|, |next|);
    GapBase(s, f, off, head);
    var t, e, e2 := s1.(delta := s1.delta - {p}), Extent(off, head), Extent(off + |head|, next);
    CoherentIsShaped(t);
    SamePlacesGap(s, t, p, off);
    SentIsPushed(t, p, e, e2);
    assert WriteBlock(s1, f, off + |head|, next) == (Sent(t, p, e, e2), 0);
    if NoGapCached(s, p, off) {
      SentCoherent(t, p, e, f, e2);
    } else {
      SentStale(t, p, e, e2);
      var g :| Stale(Sent(t, p, e, e2), p, g, e2.End());
      assert e2.End() == off + |head| + |next|;
      assert Stale(WriteBlock(s1, f, off + |head|, next).0, p, g, off + |head| + |next|);
    }
  }

  lemma SamePlacesGap(s: State, t: State, p: Path, off: nat)
    requires SamePlaces(s, t) && s.bs > 0 && p in t.files && p !in t.delta && t.files[p] == View(s, p)
    ensures NoGapCached(t, p, off) <==> NoGapCached(s, p, off)
  {
    hide GapFree;
  }

  lemma GapThenMore(s: State, f: nat, off: nat, data: seq<Byte>)
    requires Coherent(s) && s.up && f in s.open && s.open[f].writable && data != [] && off + |data| <= Limit(s.bs)
    requires off > |View(s, s.open[f].path)| && FirstChunk(s.bs, off, |data|) < |data|
    ensures Coherent(Write(s, f, off, data).0) <==> NoGapCached(s, s.open[f].path, off)
  {
    hide Coherent, Shaped, WriteBlock, View, OneBlock, BlockId, NoGapCached, Limit, Write, FirstChunk, Stale;
    CoherentIsShaped(s);
    var p, n := s.open[f].path, FirstChunk(s.bs, off, |data|);
    var head, rest := data[..n], data[n..];
    var (s1, st1) := WriteBlock(s, f, off, head);
    WriteUnfold(s, f, off, data);
    WriteBlockView(s, f, off, head);
    NextChunk(s.bs, off, |data|);
    var m := FirstChunk(s.bs, off + n, |rest|);
    var (s2, st2) := WriteBlock(s1, f, off + n, rest[..m]);
    WriteUnfold(s1, f, off + n, rest);
    GapThenChunk(s, f, off, head, rest[..m]);
    if NoGapCached(s, p, off) {
      WriteView(s2, f, off + n + m, rest[m..]);
    } else {
      var g :| Stale(s2, p, g, off + n + m);
      StaleStays(s2, f, off + n + m, rest[m..], g);
    }
  }

  /** A file of five bytes in blocks of four. */
  function Small(): State
  {
    State(4, true, map["f" := [9, 9, 9, 9, 9]], map[0 := Desc("f", true)], 1, map[], map[])
  }

  /** A read that starts two past its end, inside its last block, copies with a wrapped length. */
  lemma ReadPastEnd()
    ensures Coherent(Small()) && Read(Small(), 0, 7, 1, Zeros(4)).1 == Overrun
    ensures Slice(View(Small(), "f"), 7, 1) == []
  {
    hide Splice, Slice, BlockId, InBlock, BlockStart, Zeros, Read;
    SmallBlocks();
    SmallBytes();
    assert Small().open[0] == Desc("f", true);
    ReadUnfold(Small(), 0, 7, 1, Zeros(4));
  }

  /** One byte written two past its end: a read of the whole file returns bytes of the first block where
      the gap should read as zeros. */
  lemma SparseReadWrong()
    ensures Coherent(Small())
    ensures var (s1, n) := Write(Small(), 0, 7, [5]);
      && n == 1 && View(s1, "f") == [9, 9, 9, 9, 9, 0, 0, 5]
      && Shaped(s1) && 0 in s1.open
      && Read(s1, 0, 0, 8, Zeros(4)).1 == Data([9, 9, 9, 9, 9, 9, 9, 5])
  {
    SmallWrite();
    SmallRead();
  }

  function Written(): State { Small().(delta := map["f" := Extent(7, [5])]) }

  function Cache(off: nat, block: seq<Byte>): map<nat, Cached> { map[0 := Cached("f", Extent(off, block))] }

  lemma SmallWrite()
    ensures Coherent(Small()) && Shaped(Written()) && Write(Small(), 0, 7, [5]) == (Written(), 1)
    ensures View(Written(), "f") == [9, 9, 9, 9, 9, 0, 0, 5]
  {
    var s: State, data: seq<Byte> := Small(), [5];
    assert BlockId(4, 7) == 1 && InBlock(4, 7) == 3;
    WriteUnfold(s, 0, 7, data);
    assert data[..1] == data && data[1..] == [];
    assert WriteBlock(s, 0, 7, data) == (Written(), 0);
    WriteNone(Written(), 0, 8);
  }

  lemma SmallBlocks()
    ensures BlockId(4, 0) == 0 && BlockId(4, 4) == 1 && BlockId(4, 7) == 1
    ensures InBlock(4, 0) == 0 && InBlock(4, 4) == 0 && InBlock(4, 7) == 3
    ensures BlockStart(4, 0) == 0 && BlockStart(4, 1) == 4
  {
  }

  lemma SmallBytes()
    ensures Slice([9, 9, 9, 9, 9], 0, 4) == [9, 9, 9, 9] && Slice([9, 9, 9, 9, 9], 4, 4) == [9]
    ensures Splice(Zeros(4), 0, [9, 9, 9, 9]) == [9, 9, 9, 9] && Splice([9, 9, 9, 9], 0, [9]) == [9, 9, 9, 9]
    ensures Splice([9, 9, 9, 9], 3, [5]) == [9, 9, 9, 5]
    ensures Slice([9, 9, 9, 9], 0, 4) == [9, 9, 9, 9] && Slice([9, 9, 9, 5], 0, 4) == [9, 9, 9, 5]
  {
  }

  lemma FirstRound()
    requires Shaped(Written())
    ensures ReadBlock(Written(), 0, 0, Zeros(4)) == Got(Written().(cache := Cache(0, [9, 9, 9, 9])), [9, 9, 9, 9], 4)
  {
    hide Splice, Slice, BlockId, InBlock, BlockStart, Shaped, Zeros;
    SmallBlocks();
    SmallBytes();
  }

  lemma SecondRound(s: State)
    requires Shaped(s) && s == Written().(cache := Cache(0, [9, 9, 9, 9]))
    ensures ReadBlock(s, 0, 1, [9, 9, 9, 9]) == Got(s.(cache := Cache(4, [9])), [9, 9, 9, 5], 4)
  {
    hide Splice, Slice, BlockId, InBlock, BlockStart, Shaped;
    SmallBlocks();
    SmallBytes();
  }

  lemma SmallTail(s: State)
    requires Shaped(s) && s == Written().(cache := Cache(0, [9, 9, 9, 9]))
    ensures Read(s, 0, 4, 4, [9, 9, 9, 9]).1 == Data([9, 9, 9, 5])
  {
    hide ReadBlock, Shaped, Read, Splice, Slice, BlockId, InBlock, BlockStart;
    SmallBlocks();
    SmallBytes();
    SecondRound(s);
    ReadUnfold(s, 0, 4, 4, [9, 9, 9, 9]);
    ReadNone(s.(cache := Cache(4, [9])), 0, 8, [9, 9, 9, 5]);
  }

  lemma SmallRead()
    requires Shaped(Written())
    ensures Read(Written(), 0, 0, 8, Zeros(4)).1 == Data([9, 9, 9, 9, 9, 9, 9, 5])
  {
    hide ReadBlock, Shaped, Read, Splice, Slice, BlockId, InBlock, BlockStart, Zeros;
    SmallBlocks();
    SmallBytes();
    FirstRound();
    ReadUnfold(Written(), 0, 0, 8, Zeros(4));
    SmallTail(Written().(cache := Cache(0, [9, 9, 9, 9])));
  }
}
