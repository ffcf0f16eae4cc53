/** The write-back block cache as the client runs it, over real buffers, proved call by call against
    the operations of BufferModel. Descriptors are named by their ids. */
module Buffered {
  import opened Bytes
  import opened Blocks
  import opened BufferModel
  import opened Remote
  import opened Tables

  class BufferedFs {
    const fs: FuseFs
    const table: BufferTable

    ghost var Repr: set<object>

    ghost predicate Wf()
      reads this, Repr
    {
      && this in Repr && fs in Repr && table in Repr && fs.Repr() <= Repr && table.Repr <= Repr
      && fs.Valid() && table.Valid()
      && this !in fs.Repr() && this !in table.Repr && fs.Repr() !! table.Repr
    }

    ghost function Abs(): State
      requires Wf()
      reads this, Repr
    {
      State(table.blocksize, fs.server.up, fs.server.files, fs.OpenFds(), fs.fdIdGen,
            table.Deltas(), table.Cacheds())
    }

    ghost predicate Valid()
      reads this, Repr
    {
      Wf() && Shaped(Abs())
    }

    constructor (blocksize: nat, fs: FuseFs)
      requires blocksize > 0 && fs.Valid() && fs.fds == map[]
      ensures Valid() && this.fs == fs && fresh(Repr - fs.Repr())
      ensures Abs().delta == map[] && Abs().cache == map[] && Abs().bs == blocksize
    {
      this.fs := fs;
      table := new BufferTable(blocksize);
      new;
      Repr := {this, table} + table.Repr + fs.Repr();
    }

    lemma PathFacts(f: nat)
      requires Valid() && f in fs.fds
      ensures f in Abs().open && Abs().open[f].path == fs.fds[f].path && fs.fds[f].path in fs.server.files
      ensures table.blocksize > 0 && table in table.Repr && fs.fds[f] in fs.Repr()
    {
    }

    lemma DeltaFacts(p: Path)
      requires Valid()
      ensures p in table.deltaMap <==> p in Abs().delta
      ensures p in table.deltaMap ==> var c := table.deltaMap[p];
        && c in table.Repr && c.size <= c.buffer.Length
        && Abs().delta[p] == table.Delta(p) == Extent(c.offset, c.buffer[..c.size])
        && OneBlock(table.blocksize, c.offset, c.size)
    {
    }

    /** An extent goes to the server. */
    method SendExtent(f: nat, buf: array<Byte>, off: nat, size: nat) returns (st: int)
      requires Wf() && f in fs.fds && fs.fds[f].path in fs.server.files && size <= buf.Length
      modifies fs.server`handles, fs.server`files, fs.fds[f]
      ensures Wf() && st == if old(Abs()).up then 0 else -ENOENT
      ensures Abs() == var s := old(Abs()); var p := fs.fds[f].path;
        if s.up then s.(files := s.files[p := Splice(s.files[p], off, buf[..size])]) else s
    {
      hide Splice, FuseFs.Valid, BufferTable.Valid, BufferTable.Deltas, BufferTable.Cacheds;
      assert fs !in table.Repr && fs.server !in table.Repr && fs.fds[f] !in table.Repr;
      st := fs.Write(f, buf, off, size);
      st := if st < 0 then -ENOENT else 0;
    }

    /** _writeBlock, the pending extent goes to the caches and to the server. */
    method DisplaceBlock(f: nat, p: Path, buf: array<Byte>, at: nat, off: nat, size: nat) returns (st: int)
      requires Valid() && f in fs.fds && p == fs.fds[f].path && p in table.deltaMap
      requires 0 < size && at + size <= buf.Length && buf !in Repr
      modifies Repr
      ensures Wf() && fresh(Repr - old(Repr))
      ensures st == if old(Abs()).up then 0 else -ENOENT
      ensures var s1 := Push(old(Abs()), p); Abs() == s1.(delta := s1.delta[p := Extent(off, buf[at..at + size])])
    {
      hide Splice, OneBlock, ApplyDelta, Shaped, FuseFs.Valid, BufferTable.Valid, BufferTable.Deltas,
           BufferTable.Cacheds;
      DeltaFacts(p);
      PathFacts(f);
      ghost var data := buf[at..at + size];
      var bufFlush, offFlush, sizeFlush := table.DisplaceDelta(p, buf, at, off, size);
      Repr := Repr + table.Repr;
      st := SendExtent(f, bufFlush, offFlush, sizeFlush);
      assert old(Abs()).delta[p := Extent(off, data)] == (old(Abs()).delta - {p})[p := Extent(off, data)];
    }

    /** _writeBlock. */
    method WriteBlock(f: nat, buf: array<Byte>, at: nat, off: nat, size: nat) returns (st: int)
      requires Valid() && f in fs.fds && at + size <= buf.Length && buf !in Repr
      requires OneBlock(table.blocksize, off, size)
      modifies Repr
      ensures Valid() && fresh(Repr - old(Repr))
      ensures (Abs(), st) == BufferModel.WriteBlock(old(Abs()), f, off, buf[at..at + size])
    {
      hide Splice, ApplyDelta, Merge, SameBlock, Shaped;
      hide FuseFs.Valid, BufferTable.Valid, BufferTable.Deltas, BufferTable.Cacheds;
      WriteBlockShaped(Abs(), f, off, buf[at..at + size]);
      PathFacts(f);
      var p := fs.fds[f].path;
      DeltaFacts(p);
      st := 0;
      if p in table.deltaMap {
        var c := table.deltaMap[p];
        if SameBlock(table.blocksize, c.offset, off) && c.offset + c.size >= off && c.offset <= off + size {
          table.MergeDelta(p, buf, at, off, size);
          Repr := Repr + table.Repr;
        } else {
          st := DisplaceBlock(f, p, buf, at, off, size);
        }
      } else {
        table.NewDelta(f, p, buf, at, off, size);
        Repr := Repr + table.Repr;
      }
    }

    /** iFuseBufferedFsWrite. */
    method Write(f: nat, buf: array<Byte>, off: nat, size: nat) returns (n: int)
      requires Valid() && f in fs.fds && size <= buf.Length && buf !in Repr
      requires off + size <= Limit(table.blocksize)
      modifies Repr
      ensures Valid() && fresh(Repr - old(Repr))
      ensures (Abs(), n) == BufferModel.Write(old(Abs()), f, off, buf[..size])
    {
      hide FuseFs.Repr, Wf, Shaped, OneBlock, BufferModel.WriteBlock, BufferModel.Write;
      ghost var data, goal := buf[..size], BufferModel.Write(Abs(), f, off, buf[..size]);
      var written: nat, remain: nat, cur: nat := 0, size, off;
      assert data[0..] == data;
      while remain > 0
        invariant Valid() && fresh(Repr - old(Repr)) && f in fs.fds && buf !in Repr
        invariant written + remain == size && cur == off + written && buf[..size] == data
        invariant Ahead(Abs(), f, cur, data[written..], written, goal)
      {
        var chunk := FirstChunk(table.blocksize, cur, remain);
        ghost var rest := data[written..];
        assert rest[..chunk] == buf[written..written + chunk] && rest[chunk..] == data[written + chunk..];
        WriteUnfold(Abs(), f, cur, rest);
        var st := WriteBlock(f, buf, written, cur, chunk);
        if st < 0 { return st; }
        written, remain, cur := written + chunk, remain - chunk, cur + chunk;
      }
      WriteNone(Abs(), f, cur);
      n := written;
    }

    /** What is left of a write ends as the whole write was to end. */
    static ghost predicate Ahead(s: State, f: nat, cur: nat, rest: seq<Byte>, written: nat, goal: (State, int))
    {
      && Shaped(s) && f in s.open && cur + |rest| <= Limit(s.bs)
      && var (s1, n) := BufferModel.Write(s, f, cur, rest); goal == (s1, if n < 0 then n else written + n)
    }

    /** A block's bytes from the server, in a buffer of their own. */
    method LoadBlock(f: nat, start: nat) returns (st: int, blockBuffer: array<Byte>)
      requires fs.Valid() && f in fs.fds
      modifies fs.Repr()
      ensures fs.Valid() && fresh(blockBuffer) && blockBuffer.Length == table.blocksize
      ensures fs.server.files == old(fs.server.files) && fs.server.up == old(fs.server.up)
      ensures fs.fds == old(fs.fds) && fs.fdIdGen == old(fs.fdIdGen)
      ensures var data := Slice(fs.server.files[fs.fds[f].path], start, table.blocksize);
        if fs.server.up then
          st == |data| && blockBuffer[..st] == data
          && forall i :: st <= i < table.blocksize ==> blockBuffer[i] == 0
        else st == -ENOENT
    {
      blockBuffer := Alloc(table.blocksize);
      st := fs.Read(f, blockBuffer, start, table.blocksize);
    }

    /** _readBlock, a miss: the wanted block is fetched, kept and copied out. */
    method FetchBlock(f: nat, buf: array<Byte>, id: nat) returns (n: int)
      requires Wf() && f in fs.fds && f !in table.cacheMap && fs.fds[f].path in fs.server.files
      requires buf !in Repr && buf.Length == table.blocksize > 0 && id < BLOCK_IDS
      modifies Repr, buf
      ensures Wf() && fresh(Repr - old(Repr)) && buf !in Repr
      ensures fs.fds == old(fs.fds) && table.deltaMap == old(table.deltaMap)
      ensures var s := old(Abs()); var p := old(fs.fds)[f].path;
        var start := BlockStart(table.blocksize, id);
        var data := Slice(old(fs.server.files)[p], start, table.blocksize);
        if s.up then
          Abs() == s.(cache := s.cache[f := Cached(p, Extent(start, data))])
          && buf[..] == Splice(old(buf[..]), 0, data) && n == |data|
        else Abs() == s && buf[..] == old(buf[..]) && n == -ENOENT
    {
      hide Splice, Slice, FuseFs.Valid, BufferTable.Valid, BufferTable.Deltas, BufferTable.Cacheds, BlockId, InBlock;
      BlockStartAligned(table.blocksize, id);
      var p, start := fs.fds[f].path, BlockStart(table.blocksize, id);
      var blockBuffer;
      n, blockBuffer := LoadBlock(f, start);
      if n < 0 { return; }
      table.FillCache(f, p, start, blockBuffer, n, buf);
      Repr := Repr + table.Repr;
      assert fs.Repr() == old(fs.Repr()) && fs.Valid();
    }

    /** _readBlock, the clean block: from the cache or from the server. */
    method CleanBlock(f: nat, buf: array<Byte>, id: nat) returns (n: int)
      requires Valid() && f in fs.fds && buf !in Repr && buf.Length == table.blocksize && id < BLOCK_IDS
      modifies Repr, buf
      ensures Wf() && fresh(Repr - old(Repr)) && buf !in Repr && fs.fds == old(fs.fds)
      ensures var s := old(Abs());
        if Hit(s, f, id) then
          Abs() == s && buf[..] == Splice(old(buf[..]), 0, s.cache[f].block.data) && n == |s.cache[f].block.data|
        else if s.up then
          Abs() == s.(cache := s.cache[f := Cached(s.open[f].path, Fetch(s, f, id))])
          && buf[..] == Splice(old(buf[..]), 0, Fetch(s, f, id).data) && n == |Fetch(s, f, id).data|
        else Abs() == s.(cache := s.cache - {f}) && n == -ENOENT
    {
      hide Splice, Slice, Shaped, FuseFs.Valid, BufferTable.Valid, BufferTable.Deltas, BufferTable.Cacheds, BlockId,
           InBlock;
      ghost var s := Abs();
      PathFacts(f);
      var hit;
      hit, n := table.CopyCached(f, BlockStart(table.blocksize, id), buf);
      if !hit {
        table.RemoveCache(f);
        n := FetchBlock(f, buf, id);
        assert n >= 0 ==> Abs().cache == s.cache[f := Cached(s.open[f].path, Fetch(s, f, id))];
      }
    }

    /** _readBlock. */
    method ReadBlock(f: nat, buf: array<Byte>, id: nat) returns (n: int)
      requires Valid() && f in fs.fds && buf !in Repr && buf.Length == table.blocksize && id < BLOCK_IDS
      modifies Repr, buf
      ensures Valid() && fresh(Repr - old(Repr)) && buf !in Repr && f in fs.fds
      ensures Abs() == BufferModel.ReadBlock(old(Abs()), f, id, old(buf[..])).s
      ensures match BufferModel.ReadBlock(old(Abs()), f, id, old(buf[..]))
        case Failed(_) => n == -ENOENT
        case Got(_, b, m) => buf[..] == b && n == m
    {
      hide Splice, Slice, FuseFs.Valid, BufferTable.Valid, BufferTable.Deltas, BufferTable.Cacheds, BlockId, InBlock;
      ReadBlockShaped(Abs(), f, id, buf[..]);
      PathFacts(f);
      var p := fs.fds[f].path;
      n := CleanBlock(f, buf, id);
      if n >= 0 {
        n := table.OverlayDelta(p, id, buf, n);
      }
    }

    /** One round of iFuseBufferedFsRead up to its copy: the block, and the part of it to copy. */
    method ReadChunk(f: nat, blockBuffer: array<Byte>, cur: nat, remain: nat) returns (st: int, at: nat, chunk: int)
      requires Valid() && f in fs.fds && blockBuffer !in Repr && blockBuffer.Length == table.blocksize && remain > 0
      modifies Repr, blockBuffer
      ensures Valid() && fresh(Repr - old(Repr)) && blockBuffer !in Repr && f in fs.fds
      ensures st > 0 && chunk > 0 ==> chunk <= remain && at + chunk <= st <= table.blocksize
      ensures var whole := BufferModel.Read(old(Abs()), f, cur, remain, old(blockBuffer[..]));
        if st < 0 then whole == (Abs(), ReadError)
        else if st == 0 || chunk == 0 then whole == (Abs(), Data([]))
        else if chunk < 0 then whole == (Abs(), Overrun)
        else if st < table.blocksize then whole == (Abs(), Data(blockBuffer[at..at + chunk]))
        else Ends(Abs(), f, cur + chunk, remain - chunk, blockBuffer[..], blockBuffer[at..at + chunk], whole)
    {
      hide Shaped, Wf, BufferModel.ReadBlock, BufferModel.Read, BlockId, FuseFs.Valid, BufferTable.Valid;
      PathFacts(f);
      at := InBlock(table.blocksize, cur);
      chunk := Chunk(table.blocksize, at, remain);
      ReadUnfold(Abs(), f, cur, remain, blockBuffer[..]);
      ReadBlockShaped(Abs(), f, BlockId(table.blocksize, cur), blockBuffer[..]);
      st := ReadBlock(f, blockBuffer, BlockId(table.blocksize, cur));
      if at + chunk > st {
        chunk := st - at;
      }
    }

    /** iFuseBufferedFsRead: the count of bytes read into `buf`, or an error. `wrapped` reports a copy
        whose length wrapped below zero; the call is abandoned there. */
    method Read(f: nat, buf: array<Byte>, off: nat, size: nat) returns (n: int, wrapped: bool)
      requires Valid() && f in fs.fds && size <= buf.Length && buf !in Repr
      modifies Repr, buf
      ensures Valid() && fresh(Repr - old(Repr)) && buf !in Repr
      ensures var (s1, r) := BufferModel.Read(old(Abs()), f, off, size, Zeros(table.blocksize));
        Abs() == s1 && match r
          case Data(bytes) => !wrapped && n == |bytes| <= size && buf[..] == Splice(old(buf[..]), 0, bytes)
          case Overrun => wrapped
          case ReadError => !wrapped && n < 0
    {
      hide Shaped, Wf, Abs, BufferModel.Read, FuseFs.Valid, BufferTable.Valid, Splice;
      PathFacts(f);
      var blockBuffer := Alloc(table.blocksize);
      ghost var goal := BufferModel.Read(Abs(), f, off, size, blockBuffer[..]);
      var read: nat, remain: nat, cur: nat := 0, size, off;
      ghost var done: seq<Byte> := [];
      PrependNothing(goal.1);
      SpliceNothing(buf[..], 0);
      while remain > 0
        invariant Valid() && fresh(Repr - old(Repr)) && f in fs.fds
        invariant buf !in Repr && blockBuffer !in Repr && blockBuffer.Length == table.blocksize
        invariant read + remain == size && read == |done| && buf[..] == Splice(old(buf[..]), 0, done)
        invariant Ends(Abs(), f, cur, remain, blockBuffer[..], done, goal)
      {
        ghost var s0, b0 := Abs(), blockBuffer[..];
        var st, at, chunk := ReadChunk(f, blockBuffer, cur, remain);
        if st < 0 { return st, false; }
        if st == 0 { return read, false; }
        if chunk < 0 { return st, true; }
        if chunk == 0 { return read, false; }
        ghost var bytes := blockBuffer[at..at + chunk];
        EndsChain(s0, f, cur, remain, b0, done, goal, Abs(), cur + chunk, remain - chunk, blockBuffer[..], bytes);
        MemCopy(buf, read, blockBuffer[at..at + chunk]);
        SpliceAppend(old(buf[..]), 0, done, bytes);
        done := done + bytes;
        read, remain, cur := read + chunk, remain - chunk, cur + chunk;
        if st < table.blocksize { return read, false; }
      }
      ReadNone(Abs(), f, cur, blockBuffer[..]);
      return read, false;
    }

    static lemma PrependNothing(r: ReadReply)
      ensures Prepend([], r) == r
    {
    }

    static lemma SpliceNothing(b: seq<Byte>, off: nat)
      ensures Splice(b, off, []) == b
    {
    }

    /** After the bytes `done`, a round that answers `bytes` and then stops, or goes on at `cur1`. */
    static lemma EndsChain(s: State, f: nat, cur: nat, remain: nat, b: seq<Byte>, done: seq<Byte>,
                           goal: (State, ReadReply), s1: State, cur1: nat, remain1: nat, b1: seq<Byte>,
                           bytes: seq<Byte>)
      requires Ends(s, f, cur, remain, b, done, goal)
      ensures var whole := BufferModel.Read(s, f, cur, remain, b);
        && (Ends(s1, f, cur1, remain1, b1, bytes, whole) ==> Ends(s1, f, cur1, remain1, b1, done + bytes, goal))
        && (whole == (s1, Data(bytes)) ==> goal == (s1, Data(done + bytes)))
    {
      hide BufferModel.Read, Shaped;
      var whole := BufferModel.Read(s, f, cur, remain, b);
      if Ends(s1, f, cur1, remain1, b1, bytes, whole) {
        PrependTwice(done, bytes, BufferModel.Read(s1, f, cur1, remain1, b1).1);
      }
    }

    /** What is left of a read, after the bytes `done`, ends as the whole read was to end. */
    static ghost predicate Ends(s: State, f: nat, cur: nat, remain: nat, buf: seq<Byte>, done: seq<Byte>,
                                goal: (State, ReadReply))
    {
      && Shaped(s) && f in s.open
      && var (s1, r) := BufferModel.Read(s, f, cur, remain, buf); goal == (s1, Prepend(done, r))
    }

    /** _flushDelta. */
    method FlushDelta(f: nat) returns (st: int)
      requires Valid() && f in fs.fds
      modifies Repr
      ensures Valid() && Repr == old(Repr) && fs.fds == old(fs.fds)
      ensures (Abs(), st) == BufferModel.FlushDelta(old(Abs()), f)
    {
      hide Splice, ApplyDelta, Shaped, OneBlock;
      hide FuseFs.Valid, BufferTable.Valid, BufferTable.Deltas, BufferTable.Cacheds;
      PathFacts(f);
      var p := fs.fds[f].path;
      DeltaFacts(p);
      st := 0;
      if fs.fds[f].writable {
        if p in table.deltaMap {
          PushShaped(Abs(), p);
          var bufFlush, offFlush, sizeFlush := table.DetachDelta(p);
          st := SendExtent(f, bufFlush, offFlush, sizeFlush);
        }
      }
    }

    /** iFuseBufferedFsFlush. */
    method Flush(f: nat) returns (st: int)
      requires Valid() && f in fs.fds
      modifies Repr
      ensures Valid() && Repr == old(Repr)
      ensures (Abs(), st) == BufferModel.Flush(old(Abs()), f)
    {
      hide BufferModel.FlushDelta, Shaped, FuseFs.Valid, BufferTable.Valid, BufferTable.Deltas, BufferTable.Cacheds;
      FlushDeltaShaped(Abs(), f);
      st := FlushDelta(f);
      if st < 0 { return -ENOENT; }
      st := fs.Flush(f);
    }

    /** iFuseBufferedFsClose. */
    method Close(f: nat) returns (st: int)
      requires Valid() && f in fs.fds
      modifies Repr
      ensures Valid() && Repr == old(Repr)
      ensures (Abs(), st) == BufferModel.Close(old(Abs()), f)
    {
      hide BufferModel.FlushDelta, Shaped, FuseFs.Valid, BufferTable.Valid, BufferTable.Deltas, BufferTable.Cacheds;
      CloseShaped(Abs(), f);
      st := FlushDelta(f);
      if st < 0 { return -ENOENT; }
      table.RemoveCache(f);
      fs.Close(f);
      st := 0;
    }

    /** iFuseBufferedFsOpen. */
    method Open(p: Path, writable: bool) returns (id: int)
      requires Valid()
      modifies Repr
      ensures Valid() && fresh(Repr - old(Repr))
      ensures (Abs(), id) == BufferModel.Open(old(Abs()), p, writable)
    {
      hide Shaped, FuseFs.Valid, BufferTable.Valid, BufferTable.Deltas, BufferTable.Cacheds;
      OpenShaped(Abs(), p, writable);
      ghost var s := Abs();
      assert fs !in table.Repr && fs.server !in table.Repr;
      id := fs.Open(p, writable);
      assert table.Valid();
      assert table.Deltas() == s.delta && table.Cacheds() == s.cache;
      Repr := Repr + fs.Repr();
      assert Wf() && Abs() == BufferModel.Open(s, p, writable).0;
    }

    /** iFuseFsCreate. */
    method Create(p: Path) returns (st: int)
      requires Valid()
      modifies Repr
      ensures Valid() && Repr == old(Repr)
      ensures (Abs(), st) == BufferModel.Create(old(Abs()), p)
    {
      hide BufferTable.Valid, BufferTable.Deltas, BufferTable.Cacheds;
      st := fs.server.Create(p);
    }

    /** iFuseBufferedFsGetAttr, size only, without the metadata cache. */
    method GetAttr(p: Path) returns (size: int)
      requires Valid()
      ensures size == BufferModel.GetAttr(Abs(), p)
    {
      DeltaFacts(p);
      if !fs.server.up || p !in fs.server.files { return -ENOENT; }
      size := |fs.server.files[p]|;
      if p in table.deltaMap {
        var c := table.deltaMap[p];
        var newSize := c.offset + c.size;
        if newSize > size { size := newSize; }
      }
    }
  }
}
