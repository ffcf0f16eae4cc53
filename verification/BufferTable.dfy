/** The maps of the buffer cache over real buffers: the delta record of each path and the cached block
    of each descriptor. */
module Tables {
  import opened Bytes
  import opened Blocks
  import opened BufferModel
  import opened Remote

  method Alloc(n: nat) returns (a: array<Byte>)
    ensures fresh(a) && a[..] == Zeros(n)
  {
    a := new Byte[n](_ => 0);
  }

  method CopyOf(buf: array<Byte>, at: nat, size: nat) returns (newBuf: array<Byte>)
    requires at + size <= buf.Length
    ensures fresh(newBuf) && newBuf[..] == buf[at..at + size]
  {
    newBuf := Alloc(size);
    MemCopy(newBuf, 0, buf[at..at + size]);
  }

  class BufferCache {
    const fdId: nat
    const path: Path
    var offset: nat
    var size: nat
    var buffer: array<Byte>

    constructor (fdId: nat, path: Path, offset: nat, size: nat, buffer: array<Byte>)
      ensures this.fdId == fdId && this.path == path
      ensures this.offset == offset && this.size == size && this.buffer == buffer
    {
      this.fdId, this.path, this.offset, this.size, this.buffer := fdId, path, offset, size, buffer;
    }

    /** The bytes past `size` are still those of calloc. */
    ghost predicate Fits()
      reads this, buffer
    {
      size <= buffer.Length && forall i :: size <= i < buffer.Length ==> buffer[i] == 0
    }

    ghost function Content(): Extent
      reads this, buffer
    {
      Extent(offset, buffer[..Min(size, buffer.Length)])
    }

    method Apply(src: array<Byte>, off: nat, n: nat)
      requires Fits() && src != buffer && n <= src.Length && n > 0
      requires offset <= off && off - offset + n <= buffer.Length
      modifies this`size, buffer
      ensures Fits()
      ensures Content() == Extent(offset, Splice(old(Content()).data, off - offset, src[..n]))
    {
      var end := Max(off + n, offset + size);
      MemCopy(buffer, off - offset, src[..n]);
      size := end - offset;
      assert buffer[..size] == Splice(old(buffer[..size]), off - offset, src[..n]);
    }
  }

  class BufferTable {
    const blocksize: nat
    var deltaMap: map<Path, BufferCache>
    var cacheMap: map<nat, BufferCache>
    ghost var Repr: set<object>

    ghost predicate DeltaOk(p: Path, c: BufferCache)
      reads c, c.buffer
    {
      c.path == p && c.Fits() && c.size == c.buffer.Length
    }

    ghost predicate CacheOk(f: nat, c: BufferCache)
      reads c, c.buffer
    {
      blocksize > 0 && c.fdId == f && c.Fits() && c.buffer.Length == blocksize && Aligned(blocksize, c.Content())
    }

    ghost predicate Valid()
      reads this, Repr
    {
      && this in Repr && blocksize > 0
      && (forall p :: p in deltaMap ==> deltaMap[p] in Repr && deltaMap[p].buffer in Repr)
      && (forall f :: f in cacheMap ==> cacheMap[f] in Repr && cacheMap[f].buffer in Repr)
      && (forall p :: p in deltaMap ==> DeltaOk(p, deltaMap[p]))
      && (forall f :: f in cacheMap ==> CacheOk(f, cacheMap[f]))
      && (forall p, f :: p in deltaMap && f in cacheMap ==>
            deltaMap[p] != cacheMap[f] && deltaMap[p].buffer != cacheMap[f].buffer)
      && (forall f, g :: f in cacheMap && g in cacheMap && f != g ==> cacheMap[f].buffer != cacheMap[g].buffer)
    }

    ghost function Delta(p: Path): Extent
      requires p in deltaMap
      reads this, deltaMap[p], deltaMap[p].buffer
    {
      deltaMap[p].Content()
    }

    ghost function Cache(f: nat): Cached
      requires f in cacheMap
      reads this, cacheMap[f], cacheMap[f].buffer
    {
      Cached(cacheMap[f].path, cacheMap[f].Content())
    }

    /** One round of the loop below. */
    method PatchOne(f: nat, p: Path, buf: array<Byte>, off: nat, size: nat)
      requires blocksize > 0 && f in cacheMap && CacheOk(f, cacheMap[f])
      requires 0 < size <= buf.Length && OneBlock(blocksize, off, size)
      requires buf != cacheMap[f].buffer
      modifies cacheMap[f], cacheMap[f].buffer
      ensures cacheMap[f].buffer == old(cacheMap[f].buffer) && CacheOk(f, cacheMap[f])
      ensures Cache(f) == Patch(blocksize, old(Cache(f)), p, Extent(off, buf[..size]))
    {
      var c := cacheMap[f];
      if c.path == p && SameBlock(blocksize, c.offset, off) {
        BlockStartBelow(blocksize, off);
        c.Apply(buf, off, size);
      }
    }

    ghost function Blocks(): set<object>
      reads this, cacheMap.Values
    {
      (set f | f in cacheMap :: cacheMap[f].buffer) + cacheMap.Values
    }

    /** Patching cached blocks in place disturbs nothing else in the table. */
    twostate lemma PatchedIsValid()
      requires old(Valid()) && unchanged(this)
      requires forall f :: f in cacheMap ==> cacheMap[f].buffer == old(cacheMap[f].buffer) && CacheOk(f, cacheMap[f])
      requires forall p :: p in deltaMap ==> unchanged(deltaMap[p]) && unchanged(deltaMap[p].buffer)
      ensures Valid() && SameDeltas({})
    {
    }

    /** _applyDeltaToCache. */
    method ApplyDeltaToCache(p: Path, buf: array<Byte>, off: nat, size: nat)
      requires Valid() && 0 < size <= buf.Length && OneBlock(blocksize, off, size)
      requires forall f :: f in cacheMap ==> cacheMap[f].buffer != buf
      modifies Blocks()
      ensures Valid() && Deltas() == old(Deltas())
      ensures Cacheds() == ApplyDelta(blocksize, old(Cacheds()), p, Extent(off, buf[..size]))
    {
      hide OneBlock, CacheOk, DeltaOk, Cache, Delta, Patch;
      ghost var d := Extent(off, buf[..size]);
      var todo := cacheMap.Keys;
      while todo != {}
        invariant todo <= cacheMap.Keys && buf[..size] == d.data
        invariant forall f :: f in cacheMap ==>
          cacheMap[f].buffer == old(cacheMap[f].buffer) && CacheOk(f, cacheMap[f])
        invariant forall f :: f in todo ==> Cache(f) == old(Cache(f))
        invariant forall f :: f in cacheMap && f !in todo ==> Cache(f) == Patch(blocksize, old(Cache(f)), p, d)
      {
        var f :| f in todo;
        PatchOne(f, p, buf, off, size);
        todo := todo - {f};
      }
      hide Valid;
      PatchedIsValid();
      DeltasKept();
    }

    twostate predicate SameDeltas(except: set<Path>)
      reads this, Repr
      requires Valid()
    {
      && (forall p :: p !in except ==> (p in deltaMap <==> p in old(deltaMap)))
      && (forall p :: p in deltaMap && p !in except ==> Delta(p) == old(Delta(p)))
    }

    twostate predicate SameCaches(except: set<nat>)
      reads this, Repr
      requires Valid()
    {
      && (forall f :: f !in except ==> (f in cacheMap <==> f in old(cacheMap)))
      && (forall f :: f in cacheMap && f !in except ==> Cache(f) == old(Cache(f)))
    }

    ghost function Deltas(): map<Path, Extent>
      requires Valid()
      reads this, Repr
    {
      map p | p in deltaMap :: Delta(p)
    }

    ghost function Cacheds(): map<nat, Cached>
      requires Valid()
      reads this, Repr
    {
      map f | f in cacheMap :: Cache(f)
    }

    twostate lemma DeltasChanged(p: Path)
      requires old(Valid()) && Valid() && SameDeltas({p})
      ensures Deltas() == if p in deltaMap then old(Deltas())[p := Delta(p)] else old(Deltas()) - {p}
    {
      hide Valid, Delta, Cache;
    }

    twostate lemma DeltasKept()
      requires old(Valid()) && Valid() && SameDeltas({})
      ensures Deltas() == old(Deltas())
    {
      hide Valid, Delta, Cache;
    }

    twostate lemma CachesChanged(f: nat)
      requires old(Valid()) && Valid() && SameCaches({f})
      ensures Cacheds() == if f in cacheMap then old(Cacheds())[f := Cache(f)] else old(Cacheds()) - {f}
    {
      hide Valid, Delta, Cache;
    }

    twostate lemma CachesKept()
      requires old(Valid()) && Valid() && SameCaches({})
      ensures Cacheds() == old(Cacheds())
    {
      hide Valid, Delta, Cache;
    }

    constructor (blocksize: nat)
      requires blocksize > 0
      ensures Valid() && this.blocksize == blocksize && fresh(Repr)
      ensures deltaMap == map[] && cacheMap == map[]
    {
      this.blocksize, deltaMap, cacheMap, Repr := blocksize, map[], map[], {this};
    }

    /** A new delta record. */
    method AddDelta(p: Path, c: BufferCache)
      requires Valid() && p !in deltaMap && c !in Repr && c.buffer !in Repr && DeltaOk(p, c)
      modifies this`deltaMap, this`Repr
      ensures Valid() && Repr == old(Repr) + {c, c.buffer} && deltaMap == old(deltaMap)[p := c]
      ensures Deltas() == old(Deltas())[p := c.Content()] && Cacheds() == old(Cacheds())
    {
      hide CacheOk, DeltaOk, BufferCache.Content;
      Repr := Repr + {c, c.buffer};
      deltaMap := deltaMap[p := c];
      DeltasChanged(p);
      CachesKept();
    }

    lemma DeltaIs(p: Path)
      requires p in deltaMap && deltaMap[p].size == deltaMap[p].buffer.Length
      ensures Delta(p) == Extent(deltaMap[p].offset, deltaMap[p].buffer[..])
    {
    }

    method RemoveDelta(p: Path)
      requires Valid() && p in deltaMap
      modifies this`deltaMap
      ensures Valid() && p !in deltaMap
      ensures Deltas() == old(Deltas()) - {p} && Cacheds() == old(Cacheds())
    {
      hide DeltaOk, CacheOk, BufferCache.Content;
      deltaMap := deltaMap - {p};
      DeltasChanged(p);
      CachesKept();
    }

    method MergedBuffer(c: BufferCache, buf: array<Byte>, at: nat, off: nat, size: nat) returns (newBuf: array<Byte>)
      requires c.size == c.buffer.Length && at + size <= buf.Length
      requires c.Content().End() >= off && c.offset <= off + size
      ensures fresh(newBuf) && newBuf[..] == Merge(c.Content(), off, buf[at..at + size]).data
    {
      hide Splice;
      var start := Min(off, c.offset);
      newBuf := Alloc(Max(off + size, c.offset + c.size) - start);
      MemCopy(newBuf, c.offset - start, c.buffer[..c.size]);
      MemCopy(newBuf, off - start, buf[at..at + size]);
      assert c.buffer[..c.size] == c.Content().data;
    }

    /** _writeBlock where the pending extent touches the chunk. */
    method MergeDelta(p: Path, buf: array<Byte>, at: nat, off: nat, size: nat)
      requires Valid() && p in deltaMap && at + size <= buf.Length
      requires Touches(blocksize, Delta(p), off, size)
      modifies deltaMap[p], this`Repr
      ensures Valid() && fresh(Repr - old(Repr)) && old(Repr) <= Repr
      ensures Deltas() == old(Deltas())[p := Merge(old(Delta(p)), off, buf[at..at + size])]
      ensures Cacheds() == old(Cacheds())
    {
      var c := deltaMap[p];
      var newBuf := MergedBuffer(c, buf, at, off, size);
      SetDelta(p, Min(off, c.offset), newBuf);
    }

    /** _writeBlock where it does not: the cached blocks take the pending extent over, and the caller
        gets its buffer to send to the server. */
    method DisplaceDelta(p: Path, buf: array<Byte>, at: nat, off: nat, size: nat)
        returns (bufFlush: array<Byte>, offFlush: nat, sizeFlush: nat)
      requires Valid() && p in deltaMap && 0 < size && at + size <= buf.Length
      requires OneBlock(blocksize, Delta(p).off, |Delta(p).data|)
      modifies Repr
      ensures Valid() && fresh(Repr - old(Repr)) && old(Repr) <= Repr
      ensures sizeFlush <= bufFlush.Length && Extent(offFlush, bufFlush[..sizeFlush]) == old(Delta(p))
      ensures Deltas() == old(Deltas())[p := Extent(off, old(buf[at..at + size]))]
      ensures Cacheds() == ApplyDelta(blocksize, old(Cacheds()), p, old(Delta(p)))
    {
      hide Patch, CacheOk, Deltas, Cacheds, ApplyDelta;
      var newBuf := CopyOf(buf, at, size);
      var c := deltaMap[p];
      bufFlush, offFlush, sizeFlush := c.buffer, c.offset, c.size;
      ApplyDeltaToCache(p, c.buffer, c.offset, c.size);
      SetDelta(p, off, newBuf);
    }

    /** _writeBlock where the path has no pending extent. */
    method NewDelta(f: nat, p: Path, buf: array<Byte>, at: nat, off: nat, size: nat)
      requires Valid() && p !in deltaMap && at + size <= buf.Length
      modifies this`deltaMap, this`Repr
      ensures Valid() && fresh(Repr - old(Repr)) && old(Repr) <= Repr
      ensures Deltas() == old(Deltas())[p := Extent(off, buf[at..at + size])]
      ensures Cacheds() == old(Cacheds())
    {
      hide Valid, Deltas, Cacheds;
      var newBuf := CopyOf(buf, at, size);
      var c := new BufferCache(f, p, off, size, newBuf);
      assert c.Content() == Extent(off, buf[at..at + size]);
      AddDelta(p, c);
    }

    /** The first half of _flushDelta. */
    method DetachDelta(p: Path) returns (bufFlush: array<Byte>, offFlush: nat, sizeFlush: nat)
      requires Valid() && p in deltaMap
      requires OneBlock(blocksize, Delta(p).off, |Delta(p).data|)
      modifies Repr
      ensures Valid() && Repr == old(Repr)
      ensures sizeFlush <= bufFlush.Length && Extent(offFlush, bufFlush[..sizeFlush]) == old(Delta(p))
      ensures Deltas() == old(Deltas()) - {p}
      ensures Cacheds() == ApplyDelta(blocksize, old(Cacheds()), p, old(Delta(p)))
    {
      var c := deltaMap[p];
      bufFlush, offFlush, sizeFlush := c.buffer, c.offset, c.size;
      RemoveDelta(p);
      ApplyDeltaToCache(p, c.buffer, c.offset, c.size);
    }

    /** The delta record of `p` moves to another extent, on a buffer of its own. */
    method SetDelta(p: Path, off: nat, buf: array<Byte>)
      requires Valid() && p in deltaMap && buf !in Repr
      modifies deltaMap[p], this`Repr
      ensures Valid() && Repr == old(Repr) + {buf}
      ensures Deltas() == old(Deltas())[p := Extent(off, buf[..])] && Cacheds() == old(Cacheds())
    {
      hide CacheOk;
      var c := deltaMap[p];
      c.buffer, c.offset, c.size := buf, off, buf.Length;
      Repr := Repr + {buf};
      assert forall q :: q in deltaMap && q != p ==> deltaMap[q] != c;
      DeltaIs(p);
      DeltasChanged(p);
      CachesKept();
    }

    /** A new cached block. */
    method AddCache(f: nat, c: BufferCache)
      requires Valid() && f !in cacheMap && c !in Repr && c.buffer !in Repr && CacheOk(f, c)
      modifies this`cacheMap, this`Repr
      ensures Valid() && Repr == old(Repr) + {c, c.buffer} && cacheMap == old(cacheMap)[f := c]
      ensures Deltas() == old(Deltas()) && Cacheds() == old(Cacheds())[f := Cached(c.path, c.Content())]
    {
      hide CacheOk, DeltaOk, BufferCache.Content;
      Repr := Repr + {c, c.buffer};
      cacheMap := cacheMap[f := c];
      DeltasKept();
      CachesChanged(f);
    }

    method RemoveCache(f: nat)
      requires Valid()
      modifies this`cacheMap
      ensures Valid() && f !in cacheMap
      ensures Deltas() == old(Deltas()) && Cacheds() == old(Cacheds()) - {f}
    {
      hide DeltaOk, CacheOk, BufferCache.Content;
      if f in cacheMap {
        cacheMap := cacheMap - {f};
      }
      DeltasKept();
      CachesChanged(f);
    }

    /** _readBlock, the lookup: the descriptor's cached block, if it is the wanted one. */
    method CopyCached(f: nat, start: nat, buf: array<Byte>) returns (hit: bool, n: nat)
      requires Valid() && buf !in Repr && buf.Length == blocksize
      modifies buf
      ensures hit <==> f in Cacheds() && Cacheds()[f].block.off == start
      ensures if hit then n == |Cacheds()[f].block.data| && buf[..] == Splice(old(buf[..]), 0, Cacheds()[f].block.data)
              else buf[..] == old(buf[..])
    {
      hit, n := false, 0;
      if f in cacheMap {
        var c := cacheMap[f];
        if c.offset == start {
          assert c.buffer[..c.size] == Cache(f).block.data;
          MemCopy(buf, 0, c.buffer[..c.size]);
          hit, n := true, c.size;
        }
      }
    }

    /** _readBlock, a block fetched from the server becomes the cached block and is copied out. */
    method FillCache(f: nat, p: Path, start: nat, blockBuffer: array<Byte>, size: nat, buf: array<Byte>)
      requires Valid() && f !in cacheMap && blockBuffer !in Repr && blockBuffer.Length == blocksize
      requires buf !in Repr && buf != blockBuffer && buf.Length == blocksize
      requires size <= blocksize && start < Limit(blocksize) && InBlock(blocksize, start) == 0
      requires forall i :: size <= i < blocksize ==> blockBuffer[i] == 0
      modifies this`cacheMap, this`Repr, buf
      ensures Valid() && fresh(Repr - old(Repr) - {blockBuffer}) && old(Repr) <= Repr && buf !in Repr
      ensures Deltas() == old(Deltas())
      ensures Cacheds() == old(Cacheds())[f := Cached(p, Extent(start, blockBuffer[..size]))]
      ensures buf[..] == Splice(old(buf[..]), 0, blockBuffer[..size])
    {
      hide Valid, Deltas, Cacheds, InBlock, Splice;
      ValidHasBlocks();
      MemCopy(buf, 0, blockBuffer[..size]);
      var c := new BufferCache(f, p, start, size, blockBuffer);
      assert c.Content() == Extent(start, blockBuffer[..size]);
      AddCache(f, c);
    }

    lemma ValidHasBlocks()
      requires Valid()
      ensures blocksize > 0
    {
    }

    /** _readBlock, the last step: the pending extent of the path over the block in `buf`. */
    method OverlayDelta(p: Path, id: nat, buf: array<Byte>, n: nat) returns (m: nat)
      requires Valid() && buf !in Repr && buf.Length == blocksize
      requires p in Deltas() ==> OneBlock(blocksize, Deltas()[p].off, |Deltas()[p].data|)
      modifies buf
      ensures if p in Deltas() && BlockId(blocksize, Deltas()[p].off) == id then
          buf[..] == Splice(old(buf[..]), InBlock(blocksize, Deltas()[p].off), Deltas()[p].data)
          && m == Max(n, InBlock(blocksize, Deltas()[p].off) + |Deltas()[p].data|)
        else buf[..] == old(buf[..]) && m == n
    {
      m := n;
      if p in deltaMap {
        var c := deltaMap[p];
        if BlockId(blocksize, c.offset) == id {
          DeltaIs(p);
          var at := InBlock(blocksize, c.offset);
          assert c.buffer[..c.size] == Delta(p).data;
          MemCopy(buf, at, c.buffer[..c.size]);
          m := Max(n, at + c.size);
        }
      }
    }
  }
}
