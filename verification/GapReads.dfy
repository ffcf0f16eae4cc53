/** Reads of a file with a gap: when a whole read is right while the pending extent starts past the end
    of the server's file. */
module GapReads {
  import opened Bytes
  import opened Blocks
  import opened BufferModel
  import opened BufferGaps

  function Without(s: State, p: Path): State { s.(delta := s.delta - {p}) }

  /** The state a chunk leaves that started past the end: coherent but for its extent. */
  ghost predicate Pending(s: State, p: Path)
  {
    && Coherent(Without(s, p)) && s.up && p in s.files && p in s.delta
    && OneBlock(s.bs, s.delta[p].off, |s.delta[p].data|) && |s.files[p]| < s.delta[p].off
  }

  function Start(s: State, p: Path): nat
    requires s.bs > 0 && p in s.delta
  {
    BlockStart(s.bs, BlockId(s.bs, s.delta[p].off))
  }

  lemma PendingFacts(s: State, p: Path)
    requires Pending(s, p)
    ensures Shaped(s) && s.bs > 0 && p in s.files && p in s.delta
    ensures var d, ds := s.delta[p], Start(s, p);
      ds <= d.off < d.End() <= ds + s.bs <= Limit(s.bs) && BlockId(s.bs, ds) == BlockId(s.bs, d.off)
      && View(s, p) == Splice(s.files[p], d.off, d.data) && |View(s, p)| == d.End()
      && |s.files[p]| < d.off && d.data != []
  {
    hide BlockId, Splice;
    var t, d := Without(s, p), s.delta[p];
    forall q | q in s.delta && q != p ensures q in t.delta && t.delta[q] == s.delta[q] { }
    BlockBelowLimit(s.bs, d.off);
    BlockStartBelow(s.bs, d.off);
    BlockOfStart(s.bs, BlockId(s.bs, d.off));
  }

  /** What a block read of the path shows, over the server's block. */
  function Shown(s: State, p: Path, id: nat, buf: seq<Byte>): (seq<Byte>, nat)
    requires Shaped(s) && p in s.files
  {
    Overlay(s, p, id, Slice(s.files[p], BlockStart(s.bs, id), s.bs), buf)
  }

  lemma BlockShown(s: State, p: Path, f: nat, id: nat, buf: seq<Byte>)
    requires Pending(s, p) && f in s.open && s.open[f].path == p && id < BLOCK_IDS && |buf| == s.bs
    ensures Shaped(s)
    ensures var r := ReadBlock(s, f, id, buf); var (b, n) := Shown(s, p, id, buf);
      && r.Got? && (r.buf, r.n) == (b, n) && |b| == s.bs && n <= s.bs
      && r.s == s.(cache := r.s.cache) && Pending(r.s, p)
    ensures id != BlockId(s.bs, s.delta[p].off) ==>
      var t := Without(s, p);
      var (b, n) := Shown(s, p, id, buf);
      ReadBlock(t, f, id, buf) == Got(Without(ReadBlock(s, f, id, buf).s, p), b, n)
  {
    hide BlockId, Splice, Slice, Coherent;
    PendingFacts(s, p);
    var t := Without(s, p);
    CoherentIsShaped(t);
    ReadBlockView(t, f, id, buf);
    CachedIsServers(t, f, id);
    ShownFits(s, p, id, buf);
  }

  lemma CachedIsServers(t: State, f: nat, id: nat)
    requires Coherent(t) && f in t.open
    ensures Hit(t, f, id) ==>
      t.cache[f].path == t.open[f].path
      && t.cache[f].block.data == Slice(t.files[t.open[f].path], BlockStart(t.bs, id), t.bs)
  {
  }

  lemma ShownFits(s: State, p: Path, id: nat, buf: seq<Byte>)
    requires Pending(s, p) && Shaped(s) && |buf| == s.bs
    ensures |Shown(s, p, id, buf).0| == s.bs && Shown(s, p, id, buf).1 <= s.bs
  {
    hide BlockId, Splice, Slice, Coherent;
    PendingFacts(s, p);
  }

  /** A chunk that starts past the end leaves such a state. */
  lemma GapLeavesPending(s: State, f: nat, off: nat, data: seq<Byte>)
    requires Coherent(s) && s.up && f in s.open && off > |View(s, s.open[f].path)| && OneBlock(s.bs, off, |data|)
    ensures Pending(WriteBlock(s, f, off, data).0, s.open[f].path)
  {
    hide BlockId, Coherent, Shaped, View, OneBlock;
    CoherentIsShaped(s);
    GapBase(s, f, off, data);
    WriteBlockShaped(s, f, off, data);
  }

  // ---------- rounds ----------

  lemma BlockOf(bs: nat, ds: nat, off: nat)
    requires bs > 0 && ds < Limit(bs) && off < Limit(bs) && ds == BlockStart(bs, BlockId(bs, ds))
    ensures BlockStart(bs, BlockId(bs, off)) <= off < BlockStart(bs, BlockId(bs, off)) + bs
    ensures off < ds ==> BlockId(bs, off) != BlockId(bs, ds) && BlockStart(bs, BlockId(bs, off)) + bs <= ds
    ensures ds <= off < ds + bs ==> BlockId(bs, off) == BlockId(bs, ds)
    ensures off >= ds + bs ==> BlockId(bs, off) != BlockId(bs, ds) && BlockStart(bs, BlockId(bs, off)) >= ds + bs
  {
    hide BlockId, Limit;
    BlockBelowLimit(bs, off);
    BlockStartBelow(bs, off);
    if BlockId(bs, off) != BlockId(bs, ds) {
      BlocksDisjoint(bs, BlockId(bs, off), BlockId(bs, ds));
    }
  }

  /** Past the extent's block nothing is shown. */
  lemma ReadAfter(s: State, p: Path, f: nat, off: nat, size: nat, buf: seq<Byte>)
    requires Pending(s, p) && f in s.open && s.open[f].path == p && |buf| == s.bs && off + size <= Limit(s.bs)
    requires s.bs > 0 && off >= Start(s, p) + s.bs
    ensures Shaped(s) && Read(s, f, off, size, buf).1 == Data([])
  {
    hide BlockId, Splice, Slice, Read, ReadBlock, Limit, Pending;
    PendingFacts(s, p);
    if size == 0 {
      ReadNone(s, f, off, buf);
    } else {
      BlockOf(s.bs, Start(s, p), off);
      BlockShown(s, p, f, BlockId(s.bs, off), buf);
      ReadUnfold(s, f, off, size, buf);
      NothingShown(s, p, BlockId(s.bs, off), buf);
    }
  }

  lemma NothingShown(s: State, p: Path, id: nat, buf: seq<Byte>)
    requires Shaped(s) && Pending(s, p) && id != BlockId(s.bs, s.delta[p].off)
    requires BlockStart(s.bs, id) >= Start(s, p) + s.bs
    ensures Shown(s, p, id, buf).1 == 0
  {
    hide BlockId, Splice;
    PendingFacts(s, p);
  }

  /** From inside the extent's block the read ends with what that block shows. */
  lemma ReadOwn(s: State, p: Path, f: nat, off: nat, size: nat, buf: seq<Byte>)
    requires Pending(s, p) && f in s.open && s.open[f].path == p && |buf| == s.bs && off + size <= Limit(s.bs)
    requires s.bs > 0 && Start(s, p) <= off < Start(s, p) + s.bs && size > 0
    ensures Shaped(s)
    ensures var (b, n) := Shown(s, p, BlockId(s.bs, s.delta[p].off), buf); var at := off - Start(s, p);
      Read(s, f, off, size, buf).1 == if at > n then Overrun else Data(Slice(b, at, Min(size, n - at)))
  {
    hide BlockId, Splice, Slice, Read, ReadBlock, Limit, Pending;
    PendingFacts(s, p);
    var ds, id := Start(s, p), BlockId(s.bs, s.delta[p].off);
    BlockOf(s.bs, ds, off);
    BlockShown(s, p, f, id, buf);
    OwnShown(s, p, buf);
    ReadUnfold(s, f, off, size, buf);
    var (b, n) := Shown(s, p, id, buf);
    var at, c := off - ds, if off - ds <= n then Min(size, n - (off - ds)) else 0;
    if n == s.bs && at < n {
      var s1 := ReadBlock(s, f, id, buf).s;
      ReadAfterOwn(s, s1, p, f, off + c, size - c, b);
    }
  }

  lemma OwnShown(s: State, p: Path, buf: seq<Byte>)
    requires Shaped(s) && Pending(s, p)
    ensures Shown(s, p, BlockId(s.bs, s.delta[p].off), buf).1 == s.delta[p].End() - Start(s, p) > 0
  {
    hide BlockId, Splice;
    PendingFacts(s, p);
  }

  lemma ReadAfterOwn(s: State, s1: State, p: Path, f: nat, off: nat, size: nat, buf: seq<Byte>)
    requires Pending(s, p) && Pending(s1, p) && s1 == s.(cache := s1.cache) && f in s.open && s.open[f].path == p
    requires s.bs > 0 && |buf| == s.bs && off + size <= Limit(s.bs) && (size > 0 ==> off >= Start(s, p) + s.bs)
    ensures Shaped(s1) && Read(s1, f, off, size, buf).1 == Data([])
  {
    hide BlockId, Read, Limit, Pending;
    PendingFacts(s1, p);
    if size == 0 { ReadNone(s1, f, off, buf); } else { ReadAfter(s1, p, f, off, size, buf); }
  }

  /** Before the extent's block, a full block of the file. */
  lemma FullShown(s: State, p: Path, id: nat, buf: seq<Byte>)
    requires Shaped(s) && p in s.files && |buf| == s.bs
    requires p in s.delta ==> id != BlockId(s.bs, s.delta[p].off)
    ensures var block := Slice(s.files[p], BlockStart(s.bs, id), s.bs); var (b, n) := Shown(s, p, id, buf);
      n == |block| <= s.bs && (n == s.bs ==> b == block)
  {
    hide BlockId, Splice, Slice;
  }

  /** One round before the extent's block, where the file reaches into it. */
  lemma RoundBefore(s: State, p: Path, f: nat, off: nat, size: nat, buf: seq<Byte>)
    requires Pending(s, p) && f in s.open && s.open[f].path == p && |buf| == s.bs && off + size <= Limit(s.bs)
    requires s.bs > 0 && off < Start(s, p) < off + size && Start(s, p) <= |s.files[p]|
    ensures Shaped(s)
    ensures var r := ReadBlock(s, f, BlockId(s.bs, off), buf);
      var file, start := s.files[p], BlockStart(s.bs, BlockId(s.bs, off));
      var next := start + s.bs;
      && off < next <= Start(s, p) && r.Got? && Pending(r.s, p) && r.s == s.(cache := r.s.cache) && Shaped(r.s)
      && r.buf == Slice(file, start, s.bs) && |r.buf| == s.bs
      && Read(s, f, off, size, buf).1
           == Prepend(Slice(file, off, next - off), Read(r.s, f, next, off + size - next, r.buf).1)
  {
    hide BlockId, Splice, Slice, Read, ReadBlock, Limit, Pending;
    PendingFacts(s, p);
    var file, id := s.files[p], BlockId(s.bs, off);
    var start := BlockStart(s.bs, id);
    BlockOf(s.bs, Start(s, p), off);
    BlockShown(s, p, f, id, buf);
    FullShown(s, p, id, buf);
    var r := ReadBlock(s, f, id, buf);
    PendingFacts(r.s, p);
    FullBlockRound(s, f, off, size, buf);
    PartOfBlock(file, start, s.bs, off);
  }

  lemma FullBlockRound(s: State, f: nat, off: nat, size: nat, buf: seq<Byte>)
    requires Shaped(s) && f in s.open && s.bs > 0 && size > 0
    requires var r := ReadBlock(s, f, BlockId(s.bs, off), buf); r.Got? && r.n == s.bs
    requires BlockStart(s.bs, BlockId(s.bs, off)) + s.bs < off + size && InBlock(s.bs, off) < s.bs
    ensures var r := ReadBlock(s, f, BlockId(s.bs, off), buf); var start := BlockStart(s.bs, BlockId(s.bs, off));
      var c := start + s.bs - off;
      && Shaped(r.s) && f in r.s.open && off < start + s.bs
      && Read(s, f, off, size, buf).1
           == Prepend(Slice(r.buf, off - start, c), Read(r.s, f, start + s.bs, size - c, r.buf).1)
  {
    hide BlockId, Slice, Read, ReadBlock, Limit, Shaped;
    ReadUnfold(s, f, off, size, buf);
  }

  lemma PartOfBlock(file: seq<Byte>, start: nat, bs: nat, off: nat)
    requires start <= off < start + bs <= |file|
    ensures Slice(Slice(file, start, bs), off - start, start + bs - off) == Slice(file, off, start + bs - off)
  {
    hide Slice;
  }

  /** A read that starts before the extent's block, where the file reaches into it, comes to that block
      with the bytes before, and with the block before it in the caller's buffer. */
  lemma {:induction false} ReadUpTo(s: State, p: Path, f: nat, off: nat, size: nat, buf: seq<Byte>) returns (s1: State)
    requires Pending(s, p) && f in s.open && s.open[f].path == p && |buf| == s.bs && off + size <= Limit(s.bs)
    requires s.bs > 0 && off < Start(s, p) < off + size && Start(s, p) <= |s.files[p]|
    ensures Pending(s1, p) && s1 == s.(cache := s1.cache) && Shaped(s) && Shaped(s1)
    ensures s.bs <= Start(s, p)
    ensures var ds, file := Start(s, p), s.files[p];
      Read(s, f, off, size, buf).1
        == Prepend(Slice(file, off, ds - off), Read(s1, f, ds, off + size - ds, Slice(file, ds - s.bs, s.bs)).1)
    decreases size
  {
    hide BlockId, Splice, Slice, Read, ReadBlock, Limit, Pending;
    PendingFacts(s, p);
    RoundBefore(s, p, f, off, size, buf);
    var ds, file := Start(s, p), s.files[p];
    var r := ReadBlock(s, f, BlockId(s.bs, off), buf);
    var next := BlockStart(s.bs, BlockId(s.bs, off)) + s.bs;
    if next == ds {
      s1 := r.s;
    } else {
      s1 := ReadUpTo(r.s, p, f, next, off + size - next, r.buf);
      var rest := Read(s1, f, ds, off + size - ds, Slice(file, ds - s.bs, s.bs)).1;
      PrependTwice(Slice(file, off, next - off), Slice(file, next, ds - next), rest);
      SliceSplit(file, off, next - off, ds - next);
    }
  }

  /** A read that never gets to the extent's block is a read of the server's file. */
  lemma {:induction false} ReadBelow(s: State, p: Path, f: nat, off: nat, size: nat, buf: seq<Byte>)
    requires Pending(s, p) && f in s.open && s.open[f].path == p && |buf| == s.bs && off + size <= Limit(s.bs)
    requires s.bs > 0 && (size > 0 ==> off < Start(s, p))
    requires off + size <= Start(s, p) || |s.files[p]| < Start(s, p)
    ensures Shaped(s) && Shaped(Without(s, p))
    ensures Read(s, f, off, size, buf).1 == Read(Without(s, p), f, off, size, buf).1
    decreases size
  {
    hide BlockId, Splice, Slice, Read, ReadBlock, Limit, Pending, Shaped, View, Overlay, OneBlock;
    PendingFacts(s, p);
    var t := Without(s, p);
    assert Shaped(t) by { WithoutShaped(s, p); }
    if size == 0 {
      ReadNone(s, f, off, buf);
      ReadNone(t, f, off, buf);
    } else {
      var ds, id := Start(s, p), BlockId(s.bs, off);
      BlockOf(s.bs, ds, off);
      BlockShown(s, p, f, id, buf);
      FullShown(s, p, id, buf);
      ReadUnfold(s, f, off, size, buf);
      ReadUnfold(t, f, off, size, buf);
      var r := ReadBlock(s, f, id, buf);
      var at := off - BlockStart(s.bs, id);
      var c := if at <= r.n then Min(Chunk(s.bs, at, size), r.n - at) else 0;
      if r.n == s.bs && c > 0 {
        PendingFacts(r.s, p);
        ReadBelow(r.s, p, f, off + c, size - c, r.buf);
      }
    }
  }

  lemma WithoutShaped(s: State, p: Path)
    requires Pending(s, p)
    ensures Shaped(Without(s, p))
  {
  }

  // ---------- when a read is right ----------

  /** What the caller's buffer holds of the gap, left there by the block before, are zeros. */
  predicate GapReadsZero(file: seq<Byte>, d: Extent, bs: nat, end: nat)
  {
    forall j :: 0 <= j < |file| && |file| <= j + bs < d.off && j + bs < end ==> file[j] == 0
  }

  /** A read of nothing; of the server's bytes only; from behind the extent's block; from inside that
      block, no later than the extent's end; or from before it, where the file reaches into that block
      and the block before has zeros wherever the gap is read. */
  predicate RightOverGap(file: seq<Byte>, d: Extent, ds: nat, bs: nat, off: nat, size: nat)
  {
    || size == 0 || off + size <= |file| || off >= ds + bs || ds <= off <= d.End()
    || (off < ds <= |file| && GapReadsZero(file, d, bs, off + size))
  }

  lemma BehindRight(s: State, p: Path, f: nat, off: nat, size: nat, buf: seq<Byte>)
    requires Pending(s, p) && f in s.open && s.open[f].path == p && |buf| == s.bs && off + size <= Limit(s.bs)
    requires s.bs > 0 && off >= Start(s, p) + s.bs
    ensures Shaped(s) && Read(s, f, off, size, buf).1 == Data(Slice(View(s, p), off, size))
  {
    hide BlockId, Splice, Read, Limit, Pending, View;
    PendingFacts(s, p);
    ReadAfter(s, p, f, off, size, buf);
  }

  lemma OwnRight(s: State, p: Path, f: nat, off: nat, size: nat)
    requires Pending(s, p) && f in s.open && s.open[f].path == p && off + size <= Limit(s.bs)
    requires s.bs > 0 && Start(s, p) <= off < Start(s, p) + s.bs && size > 0
    ensures Shaped(s)
    ensures Read(s, f, off, size, Zeros(s.bs)).1 == Data(Slice(View(s, p), off, size)) <==> off <= s.delta[p].End()
  {
    hide BlockId, Splice, Slice, Read, Limit, Pending, View;
    PendingFacts(s, p);
    var id, ds := BlockId(s.bs, s.delta[p].off), Start(s, p);
    var buf := Zeros(s.bs);
    ReadOwn(s, p, f, off, size, buf);
    OwnShown(s, p, buf);
    ShownFits(s, p, id, buf);
    ShownIsView(s, p, buf);
    var (b, n) := Shown(s, p, id, buf);
    var view, at := View(s, p), off - ds;
    if at <= n {
      var got, want := Slice(b, at, Min(size, n - at)), Slice(view, off, size);
      forall i | 0 <= i < |got| ensures got[i] == want[i] { assert got[i] == b[..n][at + i]; }
      assert got == want;
    }
  }

  lemma ShownIsView(s: State, p: Path, buf: seq<Byte>)
    requires Pending(s, p) && s.bs > 0 && buf == Zeros(s.bs)
    ensures Shaped(s)
    ensures var (b, n) := Shown(s, p, BlockId(s.bs, s.delta[p].off), buf);
      n <= |b| && b[..n] == Slice(View(s, p), Start(s, p), s.bs)
  {
    hide BlockId, Splice, Slice, Pending, View, Overlay;
    PendingFacts(s, p);
    OverlayExact(s, p, BlockId(s.bs, s.delta[p].off), buf);
  }

  /** The extent's block, shown over the block before it. */
  lemma ShownBytes(s: State, p: Path, buf: seq<Byte>)
    requires Pending(s, p) && s.bs > 0 && |buf| == s.bs
    ensures Shaped(s)
    ensures var (b, n) := Shown(s, p, BlockId(s.bs, s.delta[p].off), buf);
      var ds, file, d := Start(s, p), s.files[p], s.delta[p];
      && n == d.End() - ds <= |b| && |View(s, p)| == d.End()
      && forall i :: 0 <= i < n ==>
           if |file| <= ds + i < d.off then b[i] == buf[i] && View(s, p)[ds + i] == 0 else b[i] == View(s, p)[ds + i]
  {
    hide BlockId, Splice, Slice, Pending;
    PendingFacts(s, p);
    ShownFits(s, p, BlockId(s.bs, s.delta[p].off), buf);
    OwnShown(s, p, buf);
  }

  /** The read from before the extent's block: the file up to that block, and then what it shows. */
  lemma AcrossRead(s: State, p: Path, f: nat, off: nat, size: nat)
    requires Pending(s, p) && f in s.open && s.open[f].path == p && off + size <= Limit(s.bs)
    requires s.bs > 0 && off < Start(s, p) < off + size && Start(s, p) <= |s.files[p]|
    ensures Shaped(s) && s.bs <= Start(s, p)
    ensures var ds, file := Start(s, p), s.files[p];
      var (b, n) := Shown(s, p, BlockId(s.bs, s.delta[p].off), Slice(file, ds - s.bs, s.bs));
      Read(s, f, off, size, Zeros(s.bs)).1 == Data(Slice(file, off, ds - off) + Slice(b, 0, Min(off + size - ds, n)))
  {
    hide BlockId, Splice, Slice, Read, Limit, Pending, View, Overlay, Shown;
    PendingFacts(s, p);
    var ds := Start(s, p);
    var s1 := ReadUpTo(s, p, f, off, size, Zeros(s.bs));
    var before := Slice(s.files[p], ds - s.bs, s.bs);
    PendingFacts(s1, p);
    SameShown(s, s1, p, before);
    ReadOwn(s1, p, f, ds, off + size - ds, before);
  }

  lemma AcrossRight(s: State, p: Path, f: nat, off: nat, size: nat)
    requires Pending(s, p) && f in s.open && s.open[f].path == p && off + size <= Limit(s.bs)
    requires s.bs > 0 && off < Start(s, p) < off + size && Start(s, p) <= |s.files[p]|
    ensures Shaped(s)
    ensures Read(s, f, off, size, Zeros(s.bs)).1 == Data(Slice(View(s, p), off, size)) <==>
      GapReadsZero(s.files[p], s.delta[p], s.bs, off + size)
  {
    hide BlockId, Splice, Slice, Read, Limit, Pending, View, GapReadsZero, Overlay, Shown, Start;
    PendingFacts(s, p);
    AcrossRead(s, p, f, off, size);
    var file, d, ds, view := s.files[p], s.delta[p], Start(s, p), View(s, p);
    var before := Slice(file, ds - s.bs, s.bs);
    ShownBytes(s, p, before);
    var (b, n) := Shown(s, p, BlockId(s.bs, d.off), before);
    ViewSplit(file, d, off, ds, size);
    TailRight(file, d, ds, s.bs, view, b, n, off + size);
    SamePrefix(Slice(file, off, ds - off), Slice(b, 0, Min(off + size - ds, n)), Slice(view, ds, off + size - ds));
  }

  lemma ViewSplit(file: seq<Byte>, d: Extent, off: nat, ds: nat, size: nat)
    requires off < ds <= |file| < d.off && ds < off + size && d.data != []
    ensures var view := Splice(file, d.off, d.data);
      Slice(view, off, size) == Slice(file, off, ds - off) + Slice(view, ds, off + size - ds)
  {
    hide Slice, Splice;
    FileInView(file, d, off, ds - off);
    SliceSplit(Splice(file, d.off, d.data), off, ds - off, off + size - ds);
  }

  lemma SamePrefix(a: seq<Byte>, b: seq<Byte>, c: seq<Byte>)
    ensures a + b == a + c <==> b == c
  {
    if a + b == a + c { assert (a + b)[|a|..] == b && (a + c)[|a|..] == c; }
  }

  lemma SameShown(s: State, s1: State, p: Path, buf: seq<Byte>)
    requires Shaped(s) && Shaped(s1) && s1 == s.(cache := s1.cache) && p in s.files && p in s.delta
    ensures var id := BlockId(s.bs, s.delta[p].off); Shown(s1, p, id, buf) == Shown(s, p, id, buf)
    ensures Start(s1, p) == Start(s, p)
  {
  }

  lemma FileInView(file: seq<Byte>, d: Extent, off: nat, size: nat)
    requires off + size <= |file| < d.off && d.data != []
    ensures Slice(file, off, size) == Slice(Splice(file, d.off, d.data), off, size)
  {
    hide Splice, Slice;
  }

  /** The last block of the read: it is the view's if and only if the stale bytes in the gap are zeros. */
  lemma TailRight(file: seq<Byte>, d: Extent, ds: nat, bs: nat, view: seq<Byte>, b: seq<Byte>, n: nat, end: nat)
    requires bs <= ds <= |file| < d.off && ds < end && n == d.End() - ds <= |b| && |view| == d.End() <= ds + bs
    requires forall i :: 0 <= i < n ==>
      if |file| <= ds + i < d.off then b[i] == Slice(file, ds - bs, bs)[i] && view[ds + i] == 0
      else b[i] == view[ds + i]
    ensures Slice(b, 0, Min(end - ds, n)) == Slice(view, ds, end - ds) <==> GapReadsZero(file, d, bs, end)
  {
    hide Slice;
    var before, got, want := Slice(file, ds - bs, bs), Slice(b, 0, Min(end - ds, n)), Slice(view, ds, end - ds);
    assert |got| == |want|;
    if GapReadsZero(file, d, bs, end) {
      forall i | 0 <= i < |got| ensures got[i] == want[i] {
        if |file| <= ds + i < d.off { assert before[i] == file[ds - bs + i]; }
      }
    }
    if got == want {
      forall j | 0 <= j < |file| && |file| <= j + bs < d.off && j + bs < end ensures file[j] == 0 {
        var i := j + bs - ds;
        assert before[i] == file[j] && got[i] == b[i] && want[i] == view[ds + i];
      }
    }
  }

  lemma BelowRight(s: State, p: Path, f: nat, off: nat, size: nat)
    requires Pending(s, p) && f in s.open && s.open[f].path == p && off + size <= Limit(s.bs)
    requires s.bs > 0 && size > 0 && off < Start(s, p)
    requires off + size <= Start(s, p) || |s.files[p]| < Start(s, p)
    ensures Shaped(s)
    ensures Read(s, f, off, size, Zeros(s.bs)).1 == Data(Slice(View(s, p), off, size)) <==> off + size <= |s.files[p]|
  {
    hide BlockId, Splice, Slice, Read, Limit, View, Coherent, ReadSafe;
    PendingFacts(s, p);
    var t, file, d := Without(s, p), s.files[p], s.delta[p];
    ReadBelow(s, p, f, off, size, Zeros(s.bs));
    WithoutView(s, p);
    ReadExact(t, f, off, size, Zeros(s.bs));
    if off + size <= |file| {
      InsideSafe(s.bs, file, off, size);
      FileInView(file, d, off, size);
    } else {
      assert |Slice(file, off, size)| < |Slice(View(s, p), off, size)|;
    }
  }

  lemma WithoutView(s: State, p: Path)
    requires p in s.files && p in s.delta
    ensures View(Without(s, p), p) == s.files[p]
  {
  }

  lemma InsideSafe(bs: nat, file: seq<Byte>, off: nat, size: nat)
    requires bs > 0 && off + size <= |file| && off + size <= Limit(bs) && size > 0
    ensures ReadSafe(bs, file, off, size)
  {
    hide BlockId, Limit;
    BlockBelowLimit(bs, off);
    BlockStartBelow(bs, off);
  }

  /** With a gap before the pending extent, a read below the offset limit returns the bytes in view if and
      only if it falls under one of the cases of `RightOverGap`. */
  lemma GapReadExact(s: State, p: Path, f: nat, off: nat, size: nat)
    requires Pending(s, p) && f in s.open && s.open[f].path == p && off + size <= Limit(s.bs)
    ensures Shaped(s) && s.bs > 0 && p in s.delta && p in s.files
    ensures Read(s, f, off, size, Zeros(s.bs)).1 == Data(Slice(View(s, p), off, size)) <==>
      RightOverGap(s.files[p], s.delta[p], Start(s, p), s.bs, off, size)
  {
    hide BlockId, Splice, Slice, Read, Limit, Pending, View, GapReadsZero;
    PendingFacts(s, p);
    var file, d, ds := s.files[p], s.delta[p], Start(s, p);
    if size == 0 {
      ReadNone(s, f, off, Zeros(s.bs));
      assert Slice(View(s, p), off, 0) == [];
    } else if off >= ds + s.bs {
      BehindRight(s, p, f, off, size, Zeros(s.bs));
    } else if off >= ds {
      OwnRight(s, p, f, off, size);
    } else if ds < off + size && ds <= |file| {
      AcrossRight(s, p, f, off, size);
      if off + size <= |file| { NoGapRead(file, d, s.bs, off + size); }
    } else {
      BelowRight(s, p, f, off, size);
    }
  }

  lemma NoGapRead(file: seq<Byte>, d: Extent, bs: nat, end: nat)
    requires end <= |file|
    ensures GapReadsZero(file, d, bs, end)
  {
  }

  // ---------- when the gap is sent ----------

  /** The pending extent reaches the server over the gap: the file stays as it is in view, and the caches
      stay true if and only if none holds another block with a byte of the gap. */
  lemma GapPushed(s: State, p: Path)
    requires Pending(s, p)
    ensures Shaped(s) && s.bs > 0 && p in s.delta && p in s.files
    ensures var s1 := Push(s, p);
      && s1.files == s.files[p := View(s, p)] && View(s1, p) == View(s, p)
      && (Coherent(s1) <==> NoGapCached(Without(s, p), p, s.delta[p].off))
  {
    hide BlockId, Splice, Slice, Patch, Limit, GapFree, Aligned, OneBlock;
    PendingFacts(s, p);
    var t, e, s1 := Without(s, p), s.delta[p], Push(s, p);
    PushShaped(s, p);
    SentKept(t, p, e, s1);
    forall g | g in t.cache
      ensures ServerBlock(s1, s1.cache[g]) <==>
        t.cache[g].path != p || GapFree(t.bs, t.files[p], t.cache[g].block.off, e.off)
    {
      SentBlocks(t, p, e, e, g);
      SameServerBlock(Sent(t, p, e, e), s1, s1.cache[g]);
    }
    forall q | q in s1.delta ensures HasWriter(s1, q) { assert HasWriter(t, q); }
  }

  lemma SentKept(t: State, p: Path, e: Extent, s1: State)
    requires t.bs > 0 && p in t.files && p !in t.delta
    requires s1 == t.(files := t.files[p := Splice(t.files[p], e.off, e.data)],
                      cache := ApplyDelta(t.bs, t.cache, p, e))
    ensures s1.files == Sent(t, p, e, e).files && s1.cache == Sent(t, p, e, e).cache && s1.bs == Sent(t, p, e, e).bs
  {
  }

  lemma SameServerBlock(s: State, s1: State, c: Cached)
    requires s1.files == s.files && s1.bs == s.bs
    ensures ServerBlock(s1, c) <==> ServerBlock(s, c)
  {
  }

  /** A flush over a gap: the server has the file that was in view, and the state is coherent if and only
      if no descriptor has cached another block with a byte of the gap. */
  lemma GapFlushExact(s: State, f: nat)
    requires f in s.open && s.open[f].writable && Pending(s, s.open[f].path)
    ensures var p := s.open[f].path; Shaped(s) && s.bs > 0 && p in s.delta && p in s.files
    ensures var p := s.open[f].path; var (s1, st) := Flush(s, f);
      && st == 0 && p !in s1.delta && s1.files == s.files[p := View(s, p)] && View(s1, p) == View(s, p)
      && (Coherent(s1) <==> NoGapCached(Without(s, p), p, s.delta[p].off))
  {
    hide Pending, View, NoGapCached, Coherent, Shaped;
    GapPushed(s, s.open[f].path);
    PendingUp(s, s.open[f].path);
  }

  lemma PendingUp(s: State, p: Path)
    requires Pending(s, p)
    ensures s.up
  {
  }

  /** A close over a gap: the same, but the block that the closed descriptor cached does not count. */
  lemma GapCloseExact(s: State, f: nat)
    requires f in s.open && s.open[f].writable && Pending(s, s.open[f].path)
    ensures var p := s.open[f].path; Shaped(s) && s.bs > 0 && p in s.delta && p in s.files
    ensures var p := s.open[f].path; var t := Without(s, p); var (s1, st) := Close(s, f);
      && st == 0 && f !in s1.open && s1.files == s.files[p := View(s, p)] && View(s1, p) == View(s, p)
      && (Coherent(s1) <==> NoGapCached(t.(cache := t.cache - {f}), p, s.delta[p].off))
  {
    hide View, NoGapCached, Coherent, Shaped, Slice, Aligned, OneBlock, Push, Splice;
    var p := s.open[f].path;
    PendingFacts(s, p);
    PendingUp(s, p);
    DropsCached(s, p, f);
    var s0 := s.(cache := s.cache - {f});
    GapPushed(s, p);
    GapPushed(s0, p);
    PushedApart(s, p, f);
    Pushed(s, p);
    ClosedApart(Push(s, p), f);
    var u := Push(s, p);
    SameFile(u, u.(cache := u.cache - {f}, open := u.open - {f}), p);
    assert Without(s0, p) == Without(s, p).(cache := Without(s, p).cache - {f});
    assert Close(s, f) == (u.(cache := u.cache - {f}, open := u.open - {f}), 0);
  }

  lemma SameFile(s: State, s1: State, p: Path)
    requires s1.files == s.files && s1.delta == s.delta
    ensures View(s1, p) == View(s, p)
  {
  }

  lemma DropsCached(s: State, p: Path, f: nat)
    requires Pending(s, p)
    ensures Pending(s.(cache := s.cache - {f}), p)
  {
    hide OneBlock, Aligned, Slice;
    var t, s0 := Without(s, p), s.(cache := s.cache - {f});
    forall q | q in t.delta ensures HasWriter(Without(s0, p), q) { assert HasWriter(t, q); }
  }

  lemma PushedApart(s: State, p: Path, f: nat)
    requires Pending(s, p) && Pending(s.(cache := s.cache - {f}), p)
    ensures Shaped(s) && Shaped(s.(cache := s.cache - {f}))
    ensures Push(s.(cache := s.cache - {f}), p) == Push(s, p).(cache := Push(s, p).cache - {f})
  {
    hide Patch, Pending, Shaped;
    PendingFacts(s, p);
    PendingFacts(s.(cache := s.cache - {f}), p);
    PendingUp(s, p);
    var d := s.delta[p];
    assert ApplyDelta(s.bs, s.cache - {f}, p, d) == ApplyDelta(s.bs, s.cache, p, d) - {f};
  }

  lemma Pushed(s: State, p: Path)
    requires Shaped(s) && p in s.delta
    ensures Shaped(Push(s, p)) && Push(s, p).open == s.open && p !in Push(s, p).delta
  {
    hide Shaped;
    PushShaped(s, p);
  }

  /** Without its cached block, the descriptor does not matter to coherence. */
  lemma ClosedApart(s: State, f: nat)
    requires Shaped(s) && f in s.open && s.open[f].path !in s.delta
    ensures Coherent(s.(cache := s.cache - {f}, open := s.open - {f})) <==> Coherent(s.(cache := s.cache - {f}))
  {
    hide OneBlock, Aligned, Slice;
    var s0 := s.(cache := s.cache - {f});
    var s1 := s0.(open := s.open - {f});
    forall q | q in s.delta ensures HasWriter(s1, q) <==> HasWriter(s0, q) {
      if HasWriter(s0, q) {
        var g :| g in s0.open && s0.open[g] == Desc(q, true);
        assert g in s1.open;
      }
      if HasWriter(s1, q) {
        var g :| g in s1.open && s1.open[g] == Desc(q, true);
        assert g in s0.open;
      }
    }
  }
}
