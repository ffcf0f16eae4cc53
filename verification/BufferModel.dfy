/** The write-back block cache on values: one pending extent (delta) per path, one clean block per
    descriptor, and the server's bytes below. `View` is the file a client must see. */
module BufferModel {
  import opened Bytes
  import opened Blocks

  type Path = string

  const ENOENT := 2

  datatype Extent = Extent(off: nat, data: seq<Byte>) {
    function End(): nat { off + |data| }
  }

  /** A cached block carries the path of the descriptor it belongs to. */
  datatype Cached = Cached(path: Path, block: Extent)

  datatype Desc = Desc(path: Path, writable: bool)

  /** `up` is false while every call to the server fails. */
  datatype State = State(
    bs: nat, up: bool,
    files: map<Path, seq<Byte>>,
    open: map<nat, Desc>, nextFd: nat,
    delta: map<Path, Extent>,
    cache: map<nat, Cached>)

  // ---------- what every state keeps ----------

  predicate Aligned(bs: nat, c: Extent)
    requires bs > 0
  {
    c.off < Limit(bs) && InBlock(bs, c.off) == 0 && |c.data| <= bs
  }

  /** Shape only: nothing is said about the bytes. */
  ghost predicate Shaped(s: State)
  {
    && s.bs > 0
    && (forall f :: f in s.open ==> f < s.nextFd && s.open[f].path in s.files)
    && (forall p :: p in s.delta ==> p in s.files && OneBlock(s.bs, s.delta[p].off, |s.delta[p].data|))
    && (forall f :: f in s.cache ==>
          f in s.open && s.cache[f].path == s.open[f].path && Aligned(s.bs, s.cache[f].block))
  }

  ghost predicate HasWriter(s: State, p: Path) { exists f :: f in s.open && s.open[f] == Desc(p, true) }

  /** A delta starts at or before the end of the server's file, every cached block is the server's
      block, and a delta exists only while its path has a writable descriptor. */
  ghost predicate Coherent(s: State)
  {
    && Shaped(s)
    && (forall p :: p in s.delta ==> s.delta[p].off <= |s.files[p]| && HasWriter(s, p))
    && (forall f :: f in s.cache ==>
          s.cache[f].block.data == Slice(s.files[s.cache[f].path], s.cache[f].block.off, s.bs))
  }

  /** The cached block is the server's block. */
  predicate ServerBlock(s: State, c: Cached)
  {
    c.path in s.files && c.block.data == Slice(s.files[c.path], c.block.off, s.bs)
  }

  /** The file a client sees: the server's bytes with the pending extent laid over them. */
  function View(s: State, p: Path): seq<Byte>
  {
    var file := if p in s.files then s.files[p] else [];
    if p in s.delta then Splice(file, s.delta[p].off, s.delta[p].data) else file
  }

  // ---------- the operations ----------

  /** A cached block of the path that contains the extent's start takes the extent over. */
  function Patch(bs: nat, c: Cached, p: Path, d: Extent): Cached
    requires bs > 0
  {
    if c.path == p && SameBlock(bs, c.block.off, d.off) && c.block.off <= d.off then
      Cached(p, Extent(c.block.off, Splice(c.block.data, d.off - c.block.off, d.data)))
    else c
  }

  function ApplyDelta(bs: nat, cache: map<nat, Cached>, p: Path, d: Extent): map<nat, Cached>
    requires bs > 0
  {
    map f | f in cache :: Patch(bs, cache[f], p, d)
  }

  /** The pending extent of `p` leaves the delta map and enters the caches. */
  function Detach(s: State, p: Path): State
    requires Shaped(s) && p in s.delta
  {
    s.(delta := s.delta - {p}, cache := ApplyDelta(s.bs, s.cache, p, s.delta[p]))
  }

  /** ... and then reaches the server, which fails while it is down. */
  function Push(s: State, p: Path): State
    requires Shaped(s) && p in s.delta
  {
    if s.up then Detach(s, p).(files := s.files[p := View(s, p)]) else Detach(s, p)
  }

  predicate Touches(bs: nat, d: Extent, off: nat, size: nat)
    requires bs > 0
  {
    SameBlock(bs, d.off, off) && d.End() >= off && d.off <= off + size
  }

  function Merge(d: Extent, off: nat, data: seq<Byte>): Extent
    requires d.End() >= off && d.off <= off + |data|
  {
    var start := Min(off, d.off);
    var zeros := Zeros(Max(off + |data|, d.End()) - start);
    Extent(start, Splice(Splice(zeros, d.off - start, d.data), off - start, data))
  }

  /** _writeBlock: the new chunk is merged into the pending extent, displaces it, or becomes it. */
  function WriteBlock(s: State, f: nat, off: nat, data: seq<Byte>): (State, int)
    requires Shaped(s) && f in s.open
  {
    var p := s.open[f].path;
    if p in s.delta then
      var d := s.delta[p];
      if Touches(s.bs, d, off, |data|) then
        (s.(delta := s.delta[p := Merge(d, off, data)]), 0)
      else
        var s1 := Push(s, p);
        (s1.(delta := s1.delta[p := Extent(off, data)]), if s.up then 0 else -ENOENT)
    else
      (s.(delta := s.delta[p := Extent(off, data)]), 0)
  }

  /** The part of a transfer at in-block offset `at` that stays inside its block; past the limit
      the subtraction wraps around and the whole transfer counts as one chunk. */
  function Chunk(bs: nat, at: nat, remain: nat): nat
  {
    if at <= bs then Min(bs - at, remain) else remain
  }

  /** iFuseBufferedFsWrite: chunk by chunk; the answer is the byte count or an error. */
  function Write(s: State, f: nat, off: nat, data: seq<Byte>): (State, int)
    requires Shaped(s) && f in s.open
    requires off + |data| <= Limit(s.bs)
    decreases |data|
  {
    if data == [] then (s, 0)
    else
      var n := FirstChunk(s.bs, off, |data|);
      var (s1, st) := WriteBlock(s, f, off, data[..n]);
      WriteBlockShaped(s, f, off, data[..n]);
      if st < 0 then (s1, st)
      else
        var (s2, rest) := Write(s1, f, off + n, data[n..]);
        (s2, if rest < 0 then rest else n + rest)
  }

  function Fetch(s: State, f: nat, id: nat): Extent
    requires Shaped(s) && f in s.open
  {
    var start := BlockStart(s.bs, id);
    Extent(start, Slice(s.files[s.open[f].path], start, s.bs))
  }

  predicate Hit(s: State, f: nat, id: nat)
  {
    f in s.cache && s.cache[f].block.off == BlockStart(s.bs, id)
  }

  /** What _readBlock leaves in the caller's buffer `buf` once it holds the clean block: that block,
      with the pending extent laid over it, and the number of valid bytes. */
  function Overlay(s: State, p: Path, id: nat, block: seq<Byte>, buf: seq<Byte>): (seq<Byte>, nat)
    requires Shaped(s)
  {
    var buf1 := Splice(buf, 0, block);
    if p in s.delta && BlockId(s.bs, s.delta[p].off) == id then
      var d := s.delta[p];
      var at := InBlock(s.bs, d.off);
      (Splice(buf1, at, d.data), Max(|block|, at + |d.data|))
    else (buf1, |block|)
  }

  datatype BlockRead = Failed(s: State) | Got(s: State, buf: seq<Byte>, n: nat)

  /** _readBlock. On a miss the descriptor's old block is dropped before the server is asked. */
  function ReadBlock(s: State, f: nat, id: nat, buf: seq<Byte>): BlockRead
    requires Shaped(s) && f in s.open
  {
    var p := s.open[f].path;
    if Hit(s, f, id) then
      var (b, n) := Overlay(s, p, id, s.cache[f].block.data, buf);
      Got(s, b, n)
    else if !s.up then Failed(s.(cache := s.cache - {f}))
    else
      var block := Fetch(s, f, id);
      var (b, n) := Overlay(s, p, id, block.data, buf);
      Got(s.(cache := s.cache[f := Cached(p, block)]), b, n)
  }

  datatype ReadReply = Data(bytes: seq<Byte>) | Overrun | ReadError

  function Prepend(chunk: seq<Byte>, r: ReadReply): ReadReply
  {
    if r.Data? then Data(chunk + r.bytes) else r
  }

  /** iFuseBufferedFsRead from `off` on, with `buf` the block buffer shared by all rounds.
      `Overrun` stands for a copy whose unsigned length wrapped below zero. */
  function Read(s: State, f: nat, off: nat, size: nat, buf: seq<Byte>): (State, ReadReply)
    requires Shaped(s) && f in s.open
    decreases size
  {
    if size == 0 then (s, Data([]))
    else
      var at := InBlock(s.bs, off);
      var chunk := Chunk(s.bs, at, size);
      match ReadBlock(s, f, BlockId(s.bs, off), buf)
      case Failed(s1) => (s1, ReadError)
      case Got(s1, b, n) =>
        if n == 0 then (s1, Data([]))
        else if at + chunk > n && at > n then (s1, Overrun)
        else
          var c := if at + chunk > n then n - at else chunk;
          var bytes := Slice(b, at, c);
          if c == 0 then (s1, Data([]))
          else if n < s.bs then (s1, Data(bytes))
          else
            ReadBlockShaped(s, f, BlockId(s.bs, off), buf);
            var (s2, rest) := Read(s1, f, off + c, size - c, b);
            (s2, Prepend(bytes, rest))
  }

  /** _flushDelta: the extent leaves the map and enters the caches before the server has it. */
  function FlushDelta(s: State, f: nat): (State, int)
    requires Shaped(s) && f in s.open
  {
    var p := s.open[f].path;
    if s.open[f].writable && p in s.delta then
      (Push(s, p), if s.up then 0 else -ENOENT)
    else (s, 0)
  }

  /** iFuseBufferedFsFlush: the delta, then close and reopen on the server. */
  function Flush(s: State, f: nat): (State, int)
    requires Shaped(s) && f in s.open
  {
    var (s1, st) := FlushDelta(s, f);
    (s1, if st < 0 || !s.up then -ENOENT else 0)
  }

  function Close(s: State, f: nat): (State, int)
    requires Shaped(s) && f in s.open
  {
    var (s1, st) := FlushDelta(s, f);
    if st < 0 then (s1, -ENOENT) else (s1.(cache := s1.cache - {f}, open := s1.open - {f}), 0)
  }

  /** The answer is the new descriptor or an error. */
  function Open(s: State, p: Path, writable: bool): (State, int)
  {
    if s.up && p in s.files then
      (s.(open := s.open[s.nextFd := Desc(p, writable)], nextFd := s.nextFd + 1), s.nextFd)
    else (s, -ENOENT)
  }

  /** iFuseFsCreate: the server refuses an existing name. */
  function Create(s: State, p: Path): (State, int)
  {
    if s.up && p !in s.files then (s.(files := s.files[p := []]), 0) else (s, -ENOENT)
  }

  /** iFuseBufferedFsGetAttr without the metadata cache: the size, or an error. */
  function GetAttr(s: State, p: Path): int
  {
    if s.up && p in s.files then
      if p in s.delta then Max(s.delta[p].End(), |s.files[p]|) else |s.files[p]|
    else -ENOENT
  }

  // ---------- shape ----------

  lemma PatchAligned(bs: nat, c: Cached, p: Path, d: Extent)
    requires bs > 0 && Aligned(bs, c.block) && OneBlock(bs, d.off, |d.data|)
    ensures Aligned(bs, Patch(bs, c, p, d).block) && Patch(bs, c, p, d).path == c.path
    ensures Patch(bs, c, p, d).block.off == c.block.off
  {
    BlockStartBelow(bs, d.off);
  }

  lemma PushShaped(s: State, p: Path)
    requires Shaped(s) && p in s.delta
    ensures Shaped(Push(s, p))
  {
    forall f | f in s.cache { PatchAligned(s.bs, s.cache[f], p, s.delta[p]); }
  }

  lemma MergeOneBlock(bs: nat, d: Extent, off: nat, data: seq<Byte>)
    requires bs > 0 && OneBlock(bs, d.off, |d.data|) && OneBlock(bs, off, |data|)
    requires Touches(bs, d, off, |data|)
    ensures var m := Merge(d, off, data); OneBlock(bs, m.off, |m.data|)
  {
  }

  lemma WriteBlockShaped(s: State, f: nat, off: nat, data: seq<Byte>)
    requires Shaped(s) && f in s.open && OneBlock(s.bs, off, |data|)
    ensures var s1 := WriteBlock(s, f, off, data).0;
      Shaped(s1) && s1.bs == s.bs && s1.up == s.up && s1.open == s.open && s1.nextFd == s.nextFd
  {
    hide Splice, BlockId, Merge;
    var p := s.open[f].path;
    if p in s.delta {
      var d := s.delta[p];
      if Touches(s.bs, d, off, |data|) {
        MergeOneBlock(s.bs, d, off, data);
      } else {
        PushShaped(s, p);
      }
    }
  }

  lemma FlushDeltaShaped(s: State, f: nat)
    requires Shaped(s) && f in s.open
    ensures var s1 := FlushDelta(s, f).0;
      Shaped(s1) && s1.open == s.open && s1.up == s.up && s1.files.Keys == s.files.Keys
  {
    if s.open[f].writable && s.open[f].path in s.delta {
      PushShaped(s, s.open[f].path);
    }
  }

  lemma CloseShaped(s: State, f: nat)
    requires Shaped(s) && f in s.open
    ensures Shaped(Close(s, f).0)
  {
    hide FlushDelta, Aligned, OneBlock;
    FlushDeltaShaped(s, f);
  }

  lemma OpenShaped(s: State, p: Path, writable: bool)
    requires Shaped(s)
    ensures Shaped(Open(s, p, writable).0)
  {
    hide Aligned, OneBlock;
  }

  lemma ReadBlockShaped(s: State, f: nat, id: nat, buf: seq<Byte>)
    requires Shaped(s) && f in s.open && id < BLOCK_IDS
    ensures var s1 := ReadBlock(s, f, id, buf).s;
      Shaped(s1) && s1 == s.(cache := s1.cache) && s1.cache - {f} == s.cache - {f}
    ensures var r := ReadBlock(s, f, id, buf);
      r.Got? && |buf| == s.bs ==> |r.buf| == s.bs && r.n <= s.bs
  {
    BlockOfStart(s.bs, id);
  }

  // ---------- one block written ----------

  /** A displaced or flushed extent reaches every cached block: if the cached blocks were the
      server's before, they are the server's after. */
  lemma ApplyDeltaCoherent(s: State, p: Path, d: Extent, f: nat)
    requires Coherent(s) && p in s.files && f in s.cache
    requires OneBlock(s.bs, d.off, |d.data|) && d.off <= |s.files[p]|
    ensures var c := Patch(s.bs, s.cache[f], p, d);
      var files := s.files[p := Splice(s.files[p], d.off, d.data)];
      c.block.data == Slice(files[c.path], c.block.off, s.bs)
  {
    var c := s.cache[f];
    var start := c.block.off;
    BlockStartBelow(s.bs, d.off);
    if c.path == p {
      if SameBlock(s.bs, start, d.off) {
        SliceOfSpliceInside(s.files[p], d.off, d.data, start, s.bs);
      } else {
        BlocksDisjoint(s.bs, BlockId(s.bs, start), BlockId(s.bs, d.off));
        SliceOfSpliceOutside(s.files[p], d.off, d.data, start, s.bs);
      }
    }
  }

  /** Handing the delta of `p` to caches and server keeps the state coherent and the view of every path. */
  lemma PushView(s: State, p: Path)
    requires Coherent(s) && s.up && p in s.delta
    ensures var s1 := Push(s, p);
      && Coherent(s1) && p !in s1.delta && s1.files[p] == View(s, p)
      && forall q {:trigger View(s1, q)} :: View(s1, q) == View(s, q)
  {
    var s1 := Push(s, p);
    PushShaped(s, p);
    forall f | f in s1.cache
      ensures s1.cache[f].block.data == Slice(s1.files[s1.cache[f].path], s1.cache[f].block.off, s1.bs)
    {
      ApplyDeltaCoherent(s, p, s.delta[p], f);
    }
    forall q | q in s1.delta ensures HasWriter(s1, q) {
      assert HasWriter(s, q);
    }
  }

  /** `s1` is `s` after `data` was written at `off` of `p`, and nothing else. */
  ghost predicate Wrote(s: State, s1: State, p: Path, off: nat, data: seq<Byte>)
  {
    && Shaped(s1)
    && s1 == s.(files := s1.files, delta := s1.delta, cache := s1.cache)
    && s1.files.Keys == s.files.Keys
    && View(s1, p) == Splice(View(s, p), off, data)
    && forall q {:trigger View(s1, q)} :: q != p ==> View(s1, q) == View(s, q)
  }

  lemma CoherentIsShaped(s: State)
    requires Coherent(s)
    ensures Shaped(s) && s.bs > 0
  {
  }

  lemma WroteFacts(s: State, s1: State, p: Path, off: nat, data: seq<Byte>)
    requires Wrote(s, s1, p, off, data)
    ensures Shaped(s1) && s1.bs == s.bs && s1.up == s.up && s1.open == s.open
    ensures data != [] ==> off + |data| <= |View(s1, p)|
  {
  }

  lemma WroteNothing(s: State, p: Path, off: nat)
    requires Shaped(s)
    ensures Wrote(s, s, p, off, [])
  {
  }

  lemma WroteTransitive(s: State, s1: State, s2: State, p: Path, off: nat, a: seq<Byte>, b: seq<Byte>)
    requires Wrote(s, s1, p, off, a) && Wrote(s1, s2, p, off + |a|, b)
    ensures Wrote(s, s2, p, off, a + b)
  {
    SpliceAppend(View(s, p), off, a, b);
  }

  /** Replacing the pending extent of `p` by `e` when that keeps the state coherent. */
  lemma SetDelta(s: State, p: Path, f: nat, e: Extent)
    requires Coherent(s) && f in s.open && s.open[f] == Desc(p, true)
    requires OneBlock(s.bs, e.off, |e.data|) && e.off <= |s.files[p]|
    ensures var s1 := s.(delta := s.delta[p := e]);
      && Coherent(s1) && View(s1, p) == Splice(s.files[p], e.off, e.data)
      && forall q {:trigger View(s1, q)} :: q != p ==> View(s1, q) == View(s, q)
  {
    var s1 := s.(delta := s.delta[p := e]);
    assert HasWriter(s1, p);
    forall q | q in s.delta ensures HasWriter(s1, q) { assert HasWriter(s, q); }
  }

  lemma MergeSplice(file: seq<Byte>, d: Extent, off: nat, data: seq<Byte>)
    requires d.data != [] && data != [] && d.End() >= off && d.off <= off + |data|
    ensures var m := Merge(d, off, data);
      Splice(file, m.off, m.data) == Splice(Splice(file, d.off, d.data), off, data)
  {
    hide Splice;
    SpliceMerge(file, d.off, d.data, off, data);
  }

  /** Whether the chunk has to push an earlier extent to the server first. */
  predicate Displaces(s: State, p: Path, off: nat, size: nat)
    requires s.bs > 0
  {
    p in s.delta && !Touches(s.bs, s.delta[p], off, size)
  }

  /** A chunk changes the view of its path by exactly that chunk, gaps included, whichever branch is
      taken; it fails only if it displaces an extent while the server is down. */
  lemma WriteBlockWrites(s: State, f: nat, off: nat, data: seq<Byte>)
    requires Shaped(s) && f in s.open && OneBlock(s.bs, off, |data|)
    ensures var p := s.open[f].path; var (s1, st) := WriteBlock(s, f, off, data);
      && st == (if !s.up && Displaces(s, p, off, |data|) then -ENOENT else 0)
      && (st == 0 ==> Wrote(s, s1, p, off, data))
  {
    hide Splice, BlockId, Aligned;
    var p := s.open[f].path;
    WriteBlockShaped(s, f, off, data);
    if p in s.delta && Touches(s.bs, s.delta[p], off, |data|) {
      MergeSplice(s.files[p], s.delta[p], off, data);
    }
  }

  /** Writing back: the server sees a chunk's bytes no sooner than another chunk displaces them. Until then
      they are one extent, which grows by the chunks that touch it. */
  lemma WriteBlockDefers(s: State, f: nat, off: nat, data: seq<Byte>)
    requires Shaped(s) && f in s.open && OneBlock(s.bs, off, |data|)
    ensures var p := s.open[f].path; var s1 := WriteBlock(s, f, off, data).0; var size := |data|;
      && s1.files == (if s.up && Displaces(s, p, off, size) then s.files[p := View(s, p)] else s.files)
      && (!Displaces(s, p, off, size) ==> s1.cache == s.cache)
      && p in s1.delta && s1.delta - {p} == s.delta - {p}
      && if p in s.delta && !Displaces(s, p, off, size) then
           s1.delta[p].off == Min(s.delta[p].off, off) && s1.delta[p].End() == Max(s.delta[p].End(), off + size)
         else s1.delta[p] == Extent(off, data)
  {
    hide Splice, BlockId, Patch;
  }

  /** Written through a writable descriptor, it keeps the state coherent if and only if it starts no
      later than the end of the file in view. */
  lemma WriteBlockView(s: State, f: nat, off: nat, data: seq<Byte>)
    requires Coherent(s) && f in s.open && s.open[f].writable && OneBlock(s.bs, off, |data|)
    ensures var p := s.open[f].path; var (s1, st) := WriteBlock(s, f, off, data);
      && st == (if !s.up && Displaces(s, p, off, |data|) then -ENOENT else 0)
      && (st == 0 ==> Wrote(s, s1, p, off, data) && (Coherent(s1) <==> off <= |View(s, p)|))
  {
    hide Wrote;
    var p := s.open[f].path;
    WriteBlockWrites(s, f, off, data);
    if off > |View(s, p)| {
      if s.up || !Displaces(s, p, off, |data|) { GapIsPending(s, f, off, data); }
    } else if p !in s.delta {
      SetDelta(s, p, f, Extent(off, data));
    } else if Touches(s.bs, s.delta[p], off, |data|) {
      MergeOneBlock(s.bs, s.delta[p], off, data);
      SetDelta(s, p, f, Merge(s.delta[p], off, data));
    } else if s.up {
      PushView(s, p);
      SetDelta(Push(s, p), p, f, Extent(off, data));
    }
  }

  /** A chunk that leaves a gap becomes the pending extent, over the file that was in view. */
  lemma GapIsPending(s: State, f: nat, off: nat, data: seq<Byte>)
    requires Coherent(s) && f in s.open && off > |View(s, s.open[f].path)|
    requires s.up || !Displaces(s, s.open[f].path, off, |data|)
    ensures var p := s.open[f].path; var (s1, st) := WriteBlock(s, f, off, data);
      && st == 0 && p in s1.delta && s1.delta[p] == Extent(off, data) && p in s1.files
      && s1.files[p] == View(s, p)
  {
    hide BlockId, Merge, Patch;
    var p := s.open[f].path;
    if p in s.delta { assert s.delta[p].End() <= |View(s, p)|; }
  }

  function FirstChunk(bs: nat, off: nat, size: nat): (n: nat)
    requires bs > 0 && size > 0 && off < Limit(bs)
    ensures 0 < n <= size && OneBlock(bs, off, n)
    ensures InBlock(bs, off) + n == bs || n == size
  {
    BlockBelowLimit(bs, off);
    Chunk(bs, InBlock(bs, off), size)
  }

  lemma NextChunk(bs: nat, off: nat, size: nat)
    requires bs > 0 && size > 0 && off < Limit(bs) && off + size <= Limit(bs) && FirstChunk(bs, off, size) < size
    ensures var next := off + FirstChunk(bs, off, size);
      next < Limit(bs) && BlockId(bs, next) != BlockId(bs, off)
  {
    hide BlockId;
    NextBlock(bs, off);
  }

  /** The pending extent is in the first chunk's block afterwards, so the next chunk misses it. */
  lemma NextDisplaces(s: State, f: nat, off: nat, data: seq<Byte>, next: nat, size: nat)
    requires Shaped(s) && f in s.open && OneBlock(s.bs, off, |data|) && BlockId(s.bs, next) != BlockId(s.bs, off)
    ensures var s1 := WriteBlock(s, f, off, data).0;
      s1.bs == s.bs && s1.up == s.up && f in s1.open && s1.open[f] == s.open[f] && s1.bs > 0
      && Displaces(s1, s.open[f].path, next, size)
  {
    hide BlockId, OneBlock, Splice;
    WriteBlockShaped(s, f, off, data);
  }

  lemma WriteNone(s: State, f: nat, off: nat)
    requires Shaped(s) && f in s.open && off <= Limit(s.bs)
    ensures Write(s, f, off, []) == (s, 0)
  {
  }

  lemma WriteUnfold(s: State, f: nat, off: nat, data: seq<Byte>)
    requires Shaped(s) && f in s.open && off + |data| <= Limit(s.bs) && data != []
    requires OneBlock(s.bs, off, FirstChunk(s.bs, off, |data|))
    ensures var n := FirstChunk(s.bs, off, |data|);
      var (s1, st) := WriteBlock(s, f, off, data[..n]);
      && Shaped(s1) && s1.bs == s.bs && s1.open == s.open
      && Write(s, f, off, data) ==
         if st < 0 then (s1, st)
         else var (s2, rest) := Write(s1, f, off + n, data[n..]); (s2, if rest < 0 then rest else n + rest)
  {
    hide Shaped, WriteBlock, OneBlock;
    WriteBlockShaped(s, f, off, data[..FirstChunk(s.bs, off, |data|)]);
  }

  lemma ReadUnfold(s: State, f: nat, off: nat, size: nat, buf: seq<Byte>)
    requires Shaped(s) && f in s.open && size > 0
    ensures Shaped(ReadBlock(s, f, BlockId(s.bs, off), buf).s) && f in ReadBlock(s, f, BlockId(s.bs, off), buf).s.open
    ensures var at, chunk := InBlock(s.bs, off), Chunk(s.bs, InBlock(s.bs, off), size);
      Read(s, f, off, size, buf) ==
      match ReadBlock(s, f, BlockId(s.bs, off), buf)
      case Failed(s1) => (s1, ReadError)
      case Got(s1, b, n) =>
        var c := if at + chunk > n then n - at else chunk;
        if n == 0 then (s1, Data([]))
        else if c < 0 then (s1, Overrun)
        else if c == 0 then (s1, Data([]))
        else if n < s.bs then (s1, Data(Slice(b, at, c)))
        else var (s2, rest) := Read(s1, f, off + c, size - c, b); (s2, Prepend(Slice(b, at, c), rest))
  {
    hide Shaped, ReadBlock, BlockId;
    CountPositive(s);
    ReadBlockShaped(s, f, BlockId(s.bs, off), buf);
  }

  lemma CountPositive(s: State)
    requires Shaped(s)
    ensures s.bs > 0
  {
  }

  lemma ReadNone(s: State, f: nat, off: nat, buf: seq<Byte>)
    requires Shaped(s) && f in s.open
    ensures Read(s, f, off, 0, buf) == (s, Data([]))
  {
  }

  lemma PrependTwice(a: seq<Byte>, b: seq<Byte>, r: ReadReply)
    ensures Prepend(a, Prepend(b, r)) == Prepend(a + b, r)
  {
    if r.Data? { assert a + (b + r.bytes) == (a + b) + r.bytes; }
  }

  /** Any number of blocks, gaps included: a write is one splice of the whole buffer, it answers its
      size, and other files keep their bytes. Only while the server is down can it fail. */
  lemma {:induction false} WriteWrites(s: State, f: nat, off: nat, data: seq<Byte>)
    requires Shaped(s) && f in s.open && off + |data| <= Limit(s.bs)
    ensures var (s1, n) := Write(s, f, off, data);
      && (n == |data| || (!s.up && n < 0))
      && (n >= 0 ==> Wrote(s, s1, s.open[f].path, off, data))
    decreases |data|
  {
    hide Wrote, Shaped, WriteBlock, View, OneBlock, Splice, Displaces;
    CountPositive(s);
    var p := s.open[f].path;
    if data == [] {
      WroteNothing(s, p, off);
    } else {
      var n := FirstChunk(s.bs, off, |data|);
      var head, tail := data[..n], data[n..];
      assert head + tail == data;
      var (s1, st) := WriteBlock(s, f, off, head);
      WriteBlockWrites(s, f, off, head);
      WriteUnfold(s, f, off, data);
      if st == 0 {
        WroteFacts(s, s1, p, off, head);
        WriteWrites(s1, f, off + n, tail);
        var (s2, m) := Write(s1, f, off + n, tail);
        if m >= 0 {
          WroteTransitive(s, s1, s2, p, off, head, tail);
        }
      }
    }
  }

  /** Without a gap it keeps the state coherent. */
  lemma {:induction false} WriteView(s: State, f: nat, off: nat, data: seq<Byte>)
    requires Coherent(s) && f in s.open && s.open[f].writable && off + |data| <= Limit(s.bs)
    ensures var p := s.open[f].path; var (s1, n) := Write(s, f, off, data);
      && (n == |data| || (!s.up && n < 0))
      && (n >= 0 ==> Wrote(s, s1, p, off, data) && (off <= |View(s, p)| ==> Coherent(s1)))
    decreases |data|
  {
    hide Wrote, Coherent, Shaped, WriteBlock, View, OneBlock, Splice, Displaces;
    CoherentIsShaped(s);
    WriteWrites(s, f, off, data);
    var p := s.open[f].path;
    if data == [] {
      WriteNone(s, f, off);
    } else if off <= |View(s, p)| {
      var n := FirstChunk(s.bs, off, |data|);
      var s1 := WriteBlock(s, f, off, data[..n]).0;
      WriteBlockView(s, f, off, data[..n]);
      WriteUnfold(s, f, off, data);
      if WriteBlock(s, f, off, data[..n]).1 == 0 {
        WroteFacts(s, s1, p, off, data[..n]);
        WriteView(s1, f, off + n, data[n..]);
      }
    }
  }

  // ---------- reading ----------

  /** `b` holds block `id` of the view in its first `n` bytes. */
  predicate HoldsBlock(s: State, p: Path, id: nat, b: seq<Byte>, n: nat)
  {
    n <= |b| && b[..n] == Slice(View(s, p), BlockStart(s.bs, id), s.bs)
  }

  lemma OverlayView(s: State, p: Path, id: nat, buf: seq<Byte>)
    requires Coherent(s) && p in s.files && id < BLOCK_IDS && |buf| == s.bs
    ensures var (b, n) := Overlay(s, p, id, Slice(s.files[p], BlockStart(s.bs, id), s.bs), buf);
      |b| == s.bs && HoldsBlock(s, p, id, b, n)
  {
    hide Splice, Slice, BlockId, Limit;
    var file, start := s.files[p], BlockStart(s.bs, id);
    BlockOfStart(s.bs, id);
    if p in s.delta {
      var d := s.delta[p];
      if BlockId(s.bs, d.off) == id {
        SliceOfSpliceInside(file, d.off, d.data, start, s.bs);
      } else {
        BlocksDisjoint(s.bs, id, BlockId(s.bs, d.off));
        SliceOfSpliceOutside(file, d.off, d.data, start, s.bs);
      }
    }
  }

  /** A block read changes nothing but the reader's own cached block. While the server is up it
      succeeds; whenever it succeeds it delivers the block of the view. */
  lemma ReadBlockView(s: State, f: nat, id: nat, buf: seq<Byte>)
    requires Coherent(s) && f in s.open && id < BLOCK_IDS && |buf| == s.bs
    ensures var r := ReadBlock(s, f, id, buf);
      && Coherent(r.s) && r.s == s.(cache := r.s.cache) && r.s.cache - {f} == s.cache - {f}
      && View(r.s, s.open[f].path) == View(s, s.open[f].path)
      && (s.up || Hit(s, f, id) <==> r.Got?)
      && (r.Got? ==> |r.buf| == s.bs && HoldsBlock(s, s.open[f].path, id, r.buf, r.n))
      && (if r.Got? then Hit(r.s, f, id) else f !in r.s.cache) && (Hit(s, f, id) ==> r.s == s)
  {
    var r := ReadBlock(s, f, id, buf);
    ReadBlockShaped(s, f, id, buf);
    forall q | q in r.s.delta ensures HasWriter(r.s, q) { assert HasWriter(s, q); }
    if r.Got? {
      OverlayView(s, s.open[f].path, id, buf);
    }
  }

  /** The chunk at `off` is addressed inside its block, or the block is empty. */
  predicate FirstChunkSafe(bs: nat, view: seq<Byte>, off: nat)
    requires bs > 0
  {
    var n := |Slice(view, BlockStart(bs, BlockId(bs, off)), bs)|;
    n == 0 || InBlock(bs, off) <= n
  }

  /** When a read is served as a plain file would serve it: it does not start between the end of
      the file and the end of the file's last block, and it stays below the offset limit. */
  predicate ReadSafe(bs: nat, view: seq<Byte>, off: nat, size: nat)
    requires bs > 0
  {
    size == 0 || (FirstChunkSafe(bs, view, off) && (off < Limit(bs) <= |view| ==> off + size <= Limit(bs)))
  }

  lemma NoRound(bs: nat, view: seq<Byte>, off: nat)
    requires bs > 0
    ensures ReadSafe(bs, view, off, 0) && Slice(view, off, 0) == []
  {
  }

  /** The last round of a read: the block at `off` is short. */
  lemma LastRound(bs: nat, view: seq<Byte>, off: nat, size: nat)
    requires bs > 0 && size > 0 && off < Limit(bs)
    ensures var n := |Slice(view, BlockStart(bs, BlockId(bs, off)), bs)|; var at := InBlock(bs, off);
      && (n == 0 ==> ReadSafe(bs, view, off, size) && Slice(view, off, size) == [])
      && (0 < n < at ==> !ReadSafe(bs, view, off, size))
      && (at <= n < bs ==> ReadSafe(bs, view, off, size)
                           && Slice(view, off, size) == Slice(view, off, Min(Chunk(bs, at, size), n - at)))
  {
    hide BlockId;
    BlockBelowLimit(bs, off);
    BlockOfStart(bs, BlockId(bs, off));
  }

  /** A round that is not the last: the block is full. */
  lemma FullRound(bs: nat, view: seq<Byte>, off: nat, size: nat)
    requires bs > 0 && size > 0 && off < Limit(bs)
    requires |Slice(view, BlockStart(bs, BlockId(bs, off)), bs)| == bs
    ensures var c := Chunk(bs, InBlock(bs, off), size);
      && 0 < c <= size && InBlock(bs, off) + c <= bs && off + c <= |view|
      && (ReadSafe(bs, view, off, size) <==> ReadSafe(bs, view, off + c, size - c))
  {
    hide BlockId;
    BlockBelowLimit(bs, off);
    BlockOfStart(bs, BlockId(bs, off));
    NextBlock(bs, off);
    var c := Chunk(bs, InBlock(bs, off), size);
    if size > c && off + c == Limit(bs) {
      BlockAboveLimit(bs, off + c);
    }
  }

  /** Past the limit the block number names an earlier block: either it is empty too, or the copy wraps. */
  lemma WrappedRound(bs: nat, view: seq<Byte>, off: nat, size: nat)
    requires bs > 0 && size > 0 && off >= Limit(bs)
    ensures var n := |Slice(view, BlockStart(bs, BlockId(bs, off)), bs)|;
      && n < InBlock(bs, off)
      && (n == 0 ==> ReadSafe(bs, view, off, size) && Slice(view, off, size) == [])
      && (n > 0 ==> !ReadSafe(bs, view, off, size))
  {
    hide BlockId;
    BlockAboveLimit(bs, off);
    BlockStartBelow(bs, off);
  }

  lemma HeldBytes(s: State, p: Path, off: nat, b: seq<Byte>, n: nat, c: nat)
    requires s.bs > 0 && HoldsBlock(s, p, BlockId(s.bs, off), b, n)
    ensures n == |Slice(View(s, p), BlockStart(s.bs, BlockId(s.bs, off)), s.bs)|
    ensures var at := InBlock(s.bs, off);
      at + c <= n ==> Slice(b, at, c) == Slice(View(s, p), off, c)
  {
    hide BlockId, View;
    var view, start, at := View(s, p), BlockStart(s.bs, BlockId(s.bs, off)), InBlock(s.bs, off);
    if at + c <= n {
      assert forall i :: 0 <= i < c ==> Slice(b, at, c)[i] == b[..n][at + i];
    }
  }

  /** What a reader may conclude from a delivered block about the read of `size` bytes at `off`; `chunk`
      is the part of the block to copy, negative where the copy length wraps. */
  ghost predicate RoundSound(bs: nat, view: seq<Byte>, off: nat, size: nat, b: seq<Byte>, n: nat, at: nat, chunk: int)
    requires bs > 0
  {
    if n == 0 || chunk == 0 then ReadSafe(bs, view, off, size) && Slice(view, off, size) == []
    else if chunk < 0 then !ReadSafe(bs, view, off, size)
    else
      && chunk <= size && at + chunk <= n <= |b| == bs && off + chunk <= |view|
      && b[at..at + chunk] == Slice(view, off, chunk)
      && (n < bs ==> ReadSafe(bs, view, off, size) && Slice(view, off, size) == Slice(view, off, chunk))
      && (n == bs ==> (ReadSafe(bs, view, off, size) <==> ReadSafe(bs, view, off + chunk, size - chunk)))
  }

  lemma RoundFacts(s: State, p: Path, off: nat, size: nat, b: seq<Byte>, n: nat)
    requires s.bs > 0 && size > 0 && |b| == s.bs && HoldsBlock(s, p, BlockId(s.bs, off), b, n)
    ensures var at := InBlock(s.bs, off); var c := Chunk(s.bs, at, size);
      RoundSound(s.bs, View(s, p), off, size, b, n, at, if at + c > n then n - at else c)
  {
    hide BlockId, View, HoldsBlock, ReadSafe, Splice;
    var view, at := View(s, p), InBlock(s.bs, off);
    var c := Chunk(s.bs, at, size);
    var k := if at <= n then Min(c, n - at) else 0;
    HeldBytes(s, p, off, b, n, k);
    HeldFits(s, p, BlockId(s.bs, off), b, n);
    if off >= Limit(s.bs) {
      WrappedRound(s.bs, view, off, size);
    } else if n < s.bs {
      LastRound(s.bs, view, off, size);
    } else {
      FullRound(s.bs, view, off, size);
    }
  }

  lemma HeldFits(s: State, p: Path, id: nat, b: seq<Byte>, n: nat)
    requires HoldsBlock(s, p, id, b, n)
    ensures n <= |b|
  {
  }

  /** A read of any range by any descriptor returns exactly the bytes of the view if `ReadSafe`, and
      otherwise its copy length wraps; only while the server is down can it fail instead. Nothing
      but the reader's own cached block changes. */
  lemma {:induction false} ReadExact(s: State, f: nat, off: nat, size: nat, buf: seq<Byte>)
    requires Coherent(s) && f in s.open && |buf| == s.bs
    ensures var (s1, r) := Read(s, f, off, size, buf); var view := View(s, s.open[f].path);
      && Coherent(s1) && s1 == s.(cache := s1.cache) && s1.cache - {f} == s.cache - {f}
      && (r == (if ReadSafe(s.bs, view, off, size) then Data(Slice(view, off, size)) else Overrun)
          || (!s.up && r == ReadError))
    decreases size
  {
    hide Coherent, Shaped, ReadBlock, ReadSafe, View, BlockId, HoldsBlock, Slice, Read, Chunk, Hit;
    CoherentIsShaped(s);
    CountPositive(s);
    var view := View(s, s.open[f].path);
    if size == 0 {
      NoRound(s.bs, view, off);
      ReadNone(s, f, off, buf);
    } else {
      var r := ReadBlock(s, f, BlockId(s.bs, off), buf);
      ReadBlockView(s, f, BlockId(s.bs, off), buf);
      ReadUnfold(s, f, off, size, buf);
      if r.Got? {
        var at, chunk := InBlock(s.bs, off), Chunk(s.bs, InBlock(s.bs, off), size);
        var c := if at + chunk > r.n then r.n - at else chunk;
        RoundFacts(s, s.open[f].path, off, size, r.buf, r.n);
        if r.n > 0 && c > 0 {
          assert Slice(r.buf, at, c) == r.buf[at..at + c];
          if r.n == s.bs {
            ReadExact(r.s, f, off + c, size - c, r.buf);
            SliceSplit(view, off, c, size - c);
          }
        }
      }
    }
  }

  // ---------- flush, close, open, create, size ----------

  /** A flush by a writable descriptor leaves the server with exactly the bytes that were in view. */
  lemma FlushView(s: State, f: nat)
    requires Coherent(s) && s.up && f in s.open
    ensures var p := s.open[f].path; var (s1, st) := Flush(s, f);
      && st == 0 && Coherent(s1) && s1 == s.(files := s1.files, delta := s1.delta, cache := s1.cache)
      && s1.files.Keys == s.files.Keys
      && (forall q {:trigger View(s1, q)} :: View(s1, q) == View(s, q))
      && (s.open[f].writable ==> p !in s1.delta && s1.files[p] == View(s, p))
      && (!s.open[f].writable ==> s1 == s)
  {
    if s.open[f].writable && s.open[f].path in s.delta {
      PushView(s, s.open[f].path);
    }
  }

  /** A close does that too, and removes the descriptor with its cached block. */
  lemma CloseView(s: State, f: nat)
    requires Coherent(s) && s.up && f in s.open
    ensures var p := s.open[f].path; var (s1, st) := Close(s, f);
      && st == 0 && Coherent(s1) && s1.bs == s.bs && s1.up && s1.nextFd == s.nextFd
      && s1.open == s.open - {f} && f !in s1.cache
      && s1.files.Keys == s.files.Keys
      && (forall q {:trigger View(s1, q)} :: View(s1, q) == View(s, q))
      && (s.open[f].writable ==> p !in s1.delta && s1.files[p] == View(s, p))
  {
    var s0 := FlushDelta(s, f).0;
    if s.open[f].writable && s.open[f].path in s.delta {
      PushView(s, s.open[f].path);
    }
    CloseFlushed(s0, f);
  }

  lemma CloseFlushed(s: State, f: nat)
    requires Coherent(s) && f in s.open
    requires s.open[f].writable ==> s.open[f].path !in s.delta
    ensures Coherent(s.(cache := s.cache - {f}, open := s.open - {f}))
  {
    hide OneBlock, Aligned, Slice;
    var s1 := s.(cache := s.cache - {f}, open := s.open - {f});
    forall p | p in s1.delta ensures HasWriter(s1, p) {
      assert HasWriter(s, p);
      var g :| g in s.open && s.open[g] == Desc(p, true);
      assert g in s1.open;
    }
  }

  lemma OpenView(s: State, p: Path, writable: bool)
    requires Coherent(s) && s.up && p in s.files
    ensures var (s1, fd) := Open(s, p, writable);
      && fd == s.nextFd && fd !in s.open && Coherent(s1)
      && s1 == s.(open := s.open[s.nextFd := Desc(p, writable)], nextFd := s.nextFd + 1)
      && forall q {:trigger View(s1, q)} :: View(s1, q) == View(s, q)
  {
    hide OneBlock, Aligned, Slice;
    var s1 := Open(s, p, writable).0;
    assert s.nextFd !in s.open;
    forall q | q in s1.delta ensures HasWriter(s1, q) {
      assert HasWriter(s, q);
      var g :| g in s.open && s.open[g] == Desc(q, true);
      assert g in s1.open && s1.open[g] == Desc(q, true);
    }
  }

  lemma CreateView(s: State, p: Path)
    requires Coherent(s) && s.up && p !in s.files
    ensures var (s1, st) := Create(s, p);
      && st == 0 && Coherent(s1) && s1 == s.(files := s.files[p := []])
      && View(s1, p) == []
      && forall q {:trigger View(s1, q)} :: q != p ==> View(s1, q) == View(s, q)
  {
    hide OneBlock, Aligned, Slice;
    var s1 := Create(s, p).0;
    forall q | q in s1.delta ensures HasWriter(s1, q) { assert HasWriter(s, q); }
  }

  /** The reported size is the size of the view, with or without a gap before the pending extent. */
  lemma GetAttrView(s: State, p: Path)
    requires Shaped(s)
    ensures GetAttr(s, p) == if s.up && p in s.files then |View(s, p)| else -ENOENT
  {
  }
}
