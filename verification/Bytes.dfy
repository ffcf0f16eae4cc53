/** Byte strings as files and buffers: what a write does, what a read returns. */
module Bytes {
  newtype Byte = n: int | 0 <= n < 256

  function Zeros(n: nat): (z: seq<Byte>)
    ensures |z| == n && forall i :: 0 <= i < n ==> z[i] == 0
  {
    seq(n, _ => 0)
  }

  function Min(a: nat, b: nat): nat { if a <= b then a else b }

  function Max(a: nat, b: nat): nat { if a <= b then b else a }

  /** Writing `data` at offset `off`; a gap past the end fills with zeros. Inside the
      bounds of a buffer this is memcpy. */
  function Splice(file: seq<Byte>, off: nat, data: seq<Byte>): (r: seq<Byte>)
    ensures |r| == if data == [] then |file| else Max(|file|, off + |data|)
    ensures forall i :: 0 <= i < |r| ==>
      r[i] == if off <= i < off + |data| then data[i - off] else if i < |file| then file[i] else 0
  {
    if data == [] then file
    else
      (if off <= |file| then file[..off] else file + Zeros(off - |file|))
      + data
      + (if off + |data| <= |file| then file[off + |data|..] else [])
  }

  /** Reading at most `size` bytes at offset `off`. */
  function Slice(file: seq<Byte>, off: nat, size: nat): (r: seq<Byte>)
    ensures |r| == if off <= |file| then Min(size, |file| - off) else 0
    ensures forall i :: 0 <= i < |r| ==> r[i] == file[off + i]
  {
    if off <= |file| then file[off..off + Min(size, |file| - off)] else []
  }

  /** Two adjacent writes are one write of the concatenation. */
  lemma SpliceAppend(file: seq<Byte>, off: nat, a: seq<Byte>, b: seq<Byte>)
    ensures Splice(Splice(file, off, a), off + |a|, b) == Splice(file, off, a + b)
  {
    if a == [] {
      assert a + b == b;
    } else if b == [] {
      assert a + b == a;
    }
  }

  /** A write that touches or overlaps an earlier one can be folded into it. */
  lemma SpliceMerge(file: seq<Byte>, off1: nat, a: seq<Byte>, off2: nat, b: seq<Byte>)
    requires a != [] && b != [] && off1 <= off2 + |b| && off2 <= off1 + |a|
    ensures var start := Min(off1, off2);
      Splice(file, start, Splice(Splice(Zeros(Max(off1 + |a|, off2 + |b|) - start), off1 - start, a), off2 - start, b))
      == Splice(Splice(file, off1, a), off2, b)
  {
  }

  /** Reading a window that contains the written extent: the write can be applied to the window. */
  lemma SliceOfSpliceInside(file: seq<Byte>, off: nat, data: seq<Byte>, start: nat, size: nat)
    requires start <= off <= |file| && off + |data| <= start + size
    ensures Slice(Splice(file, off, data), start, size) == Splice(Slice(file, start, size), off - start, data)
  {
  }

  /** Reading a window that the written extent misses, when the write leaves no gap. */
  lemma SliceOfSpliceOutside(file: seq<Byte>, off: nat, data: seq<Byte>, start: nat, size: nat)
    requires off <= |file|
    requires start + size <= off || off + |data| <= start
    ensures Slice(Splice(file, off, data), start, size) == Slice(file, start, size)
  {
  }

  /** A read split at a point inside the file. */
  lemma SliceSplit(file: seq<Byte>, off: nat, a: nat, b: nat)
    requires off + a <= |file|
    ensures Slice(file, off, a) + Slice(file, off + a, b) == Slice(file, off, a + b)
  {
  }
}
