/** A directory listing as one buffer of NUL-terminated names, and back. */
module DirBuffer {

  const NUL: char := '\0'

  /** What a C string can be. */
  predicate CString(s: string) { NUL !in s }

  predicate CStrings(names: seq<string>) { forall i :: 0 <= i < |names| ==> CString(names[i]) }

  function Joined(names: seq<string>): string
  {
    if names == [] then "" else names[0] + [NUL] + Joined(names[1..])
  }

  /** The buffer of a listing; that of the empty one holds a single NUL. */
  function Packed(names: seq<string>): string
  {
    if names == [] then [NUL] else Joined(names)
  }

  /** Where the string at the start of the buffer ends. */
  function Strlen(s: string): (n: nat)
    ensures n <= |s| && CString(s[..n]) && (n < |s| ==> s[n] == NUL)
  {
    if s == "" || s[0] == NUL then 0
    else
      var n := 1 + Strlen(s[1..]);
      assert s[..n] == [s[0]] + s[1..][..n - 1];
      n
  }

  /** The names in a buffer; empty ones are skipped. */
  function Unpacked(s: string): seq<string>
    decreases |s|
  {
    if s == "" then []
    else
      var n := Strlen(s);
      (if n > 0 then [s[..n]] else []) + (if n < |s| then Unpacked(s[n + 1..]) else [])
  }

  function NonEmpty(names: seq<string>): seq<string>
  {
    if names == [] then [] else (if names[0] == "" then [] else [names[0]]) + NonEmpty(names[1..])
  }

  lemma StrlenIs(s: string, n: nat)
    requires n < |s| && s[n] == NUL && CString(s[..n])
    ensures Strlen(s) == n
  {
    assert forall i :: 0 <= i < n ==> s[..n][i] == s[i];
    assert forall i :: 0 <= i < Strlen(s) ==> s[..Strlen(s)][i] == s[i];
  }

  /** Unpacking a packed listing gives its names back in order, without the empty ones. */
  lemma {:induction false} RoundTrip(names: seq<string>)
    requires CStrings(names)
    ensures Unpacked(Packed(names)) == NonEmpty(names)
    decreases |names|
  {
    if names == [] {
      EmptyBuffer();
    } else {
      var s := Joined(names);
      var rest := Joined(names[1..]);
      assert s[..|names[0]|] == names[0] && s[|names[0]|] == NUL && s[|names[0]| + 1..] == rest;
      StrlenIs(s, |names[0]|);
      if names[1..] == [] {
        assert rest == "" && Unpacked(rest) == [];
      } else {
        RoundTrip(names[1..]);
      }
    }
  }

  lemma EmptyBuffer()
    ensures Unpacked([NUL]) == []
  {
    StrlenIs([NUL], 0);
    assert [NUL][1..] == "";
  }

  lemma {:induction false} NonEmptyLength(names: seq<string>)
    ensures |NonEmpty(names)| <= |names|
    ensures NonEmpty(names) == names <==> "" !in names
  {
    if names != [] {
      NonEmptyLength(names[1..]);
      assert names == [names[0]] + names[1..];
      if names[0] != "" {
        assert NonEmpty(names)[1..] == NonEmpty(names[1..]);
      }
    }
  }

  /** It gives the very listing back if and only if no name is empty. */
  lemma RoundTripExact(names: seq<string>)
    requires CStrings(names)
    ensures Unpacked(Packed(names)) == names <==> "" !in names
  {
    RoundTrip(names);
    NonEmptyLength(names);
  }

  // ---------- the loops ----------

  lemma JoinedSplit(names: seq<string>, i: nat)
    requires i < |names|
    ensures Joined(names[..i + 1]) == Joined(names[..i]) + names[i] + [NUL]
  {
    if i == 0 {
      assert names[..1][0] == names[0] && names[..1][1..] == [] && names[..0] == [];
      assert Joined(names[..1]) == names[0] + [NUL] + "";
      assert "" + names[0] + [NUL] == names[0] + [NUL] + "";
    } else {
      JoinedSplit(names[1..], i - 1);
      assert names[..i + 1][1..] == names[1..][..i] && names[..i][1..] == names[1..][..i - 1];
      assert names[0] + [NUL] + (Joined(names[1..][..i - 1]) + names[i] + [NUL])
          == names[0] + [NUL] + Joined(names[1..][..i - 1]) + names[i] + [NUL];
    }
  }

  /** memcpy. */
  method MemCopy(dst: array<char>, at: nat, src: string)
    requires at + |src| <= dst.Length
    modifies dst
    ensures dst[..] == old(dst[..at]) + src + old(dst[at + |src|..])
  {
    for i := 0 to |src|
      invariant dst[..at + i] == old(dst[..at]) + src[..i]
      invariant dst[at + i..] == old(dst[at + i..])
    {
      dst[at + i] := src[i];
      assert src[..i + 1] == src[..i] + [src[i]];
      assert old(dst[at + i..])[1..] == old(dst[at + i + 1..]);
    }
    assert src[..|src|] == src;
    assert dst[..] == dst[..at + |src|] + dst[at + |src|..];
  }

  /** _getDirCache: a first pass measures, a second one writes; the write ends where the buffer does. */
  method Pack(names: seq<string>) returns (buffer: array<char>)
    ensures fresh(buffer) && buffer[..] == Packed(names)
  {
    var len := 0;
    for i := 0 to |names|
      invariant len == |Joined(names[..i])| && len >= i
    {
      JoinedSplit(names, i);
      len := len + |names[i]| + 1;
    }
    assert names[..|names|] == names;
    if len == 0 {
      len := 1;
    }
    buffer := new char[len](_ => NUL);
    var at := 0;
    for i := 0 to |names|
      invariant at == |Joined(names[..i])| <= len
      invariant buffer[..at] == Joined(names[..i])
      invariant names == [] ==> buffer[..] == [NUL]
      invariant names != [] ==> len == |Joined(names)|
    {
      JoinedSplit(names, i);
      JoinedPrefix(names, i + 1);
      MemCopy(buffer, at, names[i]);
      at := at + |names[i]|;
      buffer[at] := NUL;
      at := at + 1;
    }
    assert names != [] ==> at == len;
    assert buffer[..buffer.Length] == buffer[..];
  }

  lemma {:induction false} JoinedPrefix(names: seq<string>, i: nat)
    requires i <= |names|
    ensures |Joined(names[..i])| <= |Joined(names)|
    decreases |names| - i
  {
    if i == |names| {
      assert names[..i] == names;
    } else {
      JoinedSplit(names, i);
      JoinedPrefix(names, i + 1);
    }
  }

  /** iFuseDirOpenWithCache: the handle gets a copy of its own. */
  method CopyBuffer(entries: array<char>) returns (cached: array<char>)
    ensures fresh(cached) && cached[..] == entries[..]
  {
    cached := new char[entries.Length](_ => NUL);
    MemCopy(cached, 0, entries[..]);
  }

  lemma UnpackOne(s: string, at: nat, n: nat)
    requires at < |s| && n == Strlen(s[at..]) && at + n < |s|
    ensures Unpacked(s[at..]) == (if n > 0 then [s[at..at + n]] else []) + Unpacked(s[at + n + 1..])
  {
    hide Strlen;
    assert s[at..][..n] == s[at..at + n] && s[at..][n + 1..] == s[at + n + 1..];
  }

  /** iFuseFsReadDir: walks the buffer from string to string. */
  method Unpack(cached: array<char>) returns (names: seq<string>)
    requires cached.Length > 0 && cached[cached.Length - 1] == NUL
    ensures names == Unpacked(cached[..])
  {
    hide Unpacked, Strlen;
    ghost var s := cached[..];
    names := [];
    var at := 0;
    assert s[0..] == s;
    while at < cached.Length
      invariant 0 <= at <= cached.Length
      invariant names + Unpacked(s[at..]) == Unpacked(s)
    {
      assert cached[at..] == s[at..];
      var len := Length(cached, at);
      UnpackOne(s, at, len);
      if len > 0 {
        names := names + [cached[at..at + len]];
      }
      at := at + len + 1;
    }
    UnpackNone();
    assert s[at..] == "";
  }

  lemma UnpackNone()
    ensures Unpacked("") == []
  {
  }

  /** strlen. */
  method Length(cached: array<char>, at: nat) returns (len: nat)
    requires at < cached.Length && cached[cached.Length - 1] == NUL
    ensures len == Strlen(cached[at..]) && at + len < cached.Length
  {
    len := 0;
    while cached[at + len] != NUL
      invariant at + len < cached.Length
      invariant forall i :: at <= i < at + len ==> cached[i] != NUL
      decreases cached.Length - len
    {
      len := len + 1;
    }
    StrlenIs(cached[at..], len);
  }

  lemma PackedEnds(names: seq<string>)
    ensures Packed(names) != "" && Packed(names)[|Packed(names)| - 1] == NUL
  {
    if names != [] {
      JoinedSplit(names, |names| - 1);
      assert names[..|names|] == names;
    }
  }
}
