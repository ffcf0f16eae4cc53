/** The server as the client sees it, and the file descriptors on top of it, which remember where the
    server's cursor stands so that a seek can be left out. */
module Remote {
  import opened Bytes
  import opened BufferModel

  datatype Handle = Handle(path: Path, cursor: nat)

  /** Byte files and one cursor per open handle; every call fails while the server is down. */
  class Server {
    var up: bool
    var files: map<Path, seq<Byte>>
    var handles: map<int, Handle>
    var nextHandle: int

    ghost predicate Valid()
      reads this
    {
      nextHandle > 0
      && forall h :: h in handles ==> 0 < h < nextHandle && handles[h].path in files
    }

    constructor (files: map<Path, seq<Byte>>)
      ensures Valid() && up && this.files == files && handles == map[]
    {
      up, this.files, handles, nextHandle := true, files, map[], 1;
    }

    method Create(p: Path) returns (st: int)
      requires Valid()
      modifies this`files
      ensures Valid()
      ensures st == if up && p !in old(files) then 0 else -ENOENT
      ensures files == if st == 0 then old(files)[p := []] else old(files)
    {
      if !up || p in files { return -ENOENT; }
      files := files[p := []];
      st := 0;
    }

    method Open(p: Path) returns (h: int)
      requires Valid()
      modifies this`handles, this`nextHandle
      ensures Valid()
      ensures h > 0 <==> up && p in files
      ensures h > 0 ==> h !in old(handles) && handles == old(handles)[h := Handle(p, 0)]
      ensures h <= 0 ==> h == -ENOENT && handles == old(handles)
    {
      if !up || p !in files { return -ENOENT; }
      h := nextHandle;
      handles, nextHandle := handles[h := Handle(p, 0)], nextHandle + 1;
    }

    method Close(h: int) returns (st: int)
      requires Valid() && h in handles
      modifies this`handles
      ensures Valid()
      ensures st == if up then 0 else -ENOENT
      ensures handles == if up then old(handles) - {h} else old(handles)
    {
      if !up { return -ENOENT; }
      handles := handles - {h};
      st := 0;
    }

    method Seek(h: int, off: nat) returns (st: int)
      requires Valid() && h in handles
      modifies this`handles
      ensures Valid()
      ensures st == if up then 0 else -ENOENT
      ensures handles == if up then old(handles)[h := Handle(old(handles)[h].path, off)] else old(handles)
    {
      if !up { return -ENOENT; }
      handles := handles[h := handles[h].(cursor := off)];
      st := 0;
    }

    /** Reads at the cursor and advances it by what was read. */
    method Read(h: int, size: nat) returns (st: int, data: seq<Byte>)
      requires Valid() && h in handles
      modifies this`handles
      ensures Valid()
      ensures var p := old(handles)[h].path; var at := old(handles)[h].cursor;
        if up then
          data == Slice(files[p], at, size) && st == |data|
          && handles == old(handles)[h := Handle(p, at + |data|)]
        else st == -ENOENT && data == [] && handles == old(handles)
    {
      if !up { return -ENOENT, []; }
      var hd := handles[h];
      data := Slice(files[hd.path], hd.cursor, size);
      st := |data|;
      handles := handles[h := Handle(hd.path, hd.cursor + |data|)];
    }

    /** Writes at the cursor and advances it past the written bytes. */
    method Write(h: int, data: seq<Byte>) returns (st: int)
      requires Valid() && h in handles
      modifies this`handles, this`files
      ensures Valid()
      ensures var p := old(handles)[h].path; var at := old(handles)[h].cursor;
        if up then
          st == |data| && files == old(files)[p := Splice(old(files)[p], at, data)]
          && handles == old(handles)[h := Handle(p, at + |data|)]
        else st == -ENOENT && files == old(files) && handles == old(handles)
    {
      if !up { return -ENOENT; }
      var hd := handles[h];
      files := files[hd.path := Splice(files[hd.path], hd.cursor, data)];
      st := |data|;
      handles := handles[h := Handle(hd.path, hd.cursor + |data|)];
    }
  }

  method MemCopy(dst: array<Byte>, at: nat, src: seq<Byte>)
    requires at + |src| <= dst.Length
    modifies dst
    ensures dst[..] == Splice(old(dst[..]), at, src)
  {
    forall i | 0 <= i < |src| { dst[at + i] := src[i]; }
  }

  class FuseFd {
    const fdId: nat
    const path: Path
    const writable: bool
    var fd: int
    var lastFilePointer: int

    constructor (fdId: nat, path: Path, writable: bool, fd: int)
      ensures this.fdId == fdId && this.path == path && this.writable == writable
      ensures this.fd == fd && lastFilePointer == -1
    {
      this.fdId, this.path, this.writable, this.fd, lastFilePointer := fdId, path, writable, fd, -1;
    }
  }

  /** The open descriptors by id. */
  class FuseFs {
    const server: Server
    var fds: map<nat, FuseFd>
    var fdIdGen: nat

    ghost function Repr(): set<object>
      reads this
    {
      {this, server} + fds.Values
    }

    ghost predicate Valid()
      reads Repr()
    {
      && server.Valid()
      && (forall i :: i in fds ==> fds[i].fdId == i < fdIdGen && CursorKnown(fds[i]))
      && (forall i, j :: i in fds && j in fds && i != j ==> fds[i].fd != fds[j].fd)
    }

    /** The descriptor's handle is open on its path, and the remembered position is unknown or the
        server's cursor. */
    ghost predicate CursorKnown(d: FuseFd)
      reads this, server, d
    {
      && d.fd in server.handles && server.handles[d.fd].path == d.path
      && (d.lastFilePointer == -1 || d.lastFilePointer == server.handles[d.fd].cursor)
    }

    ghost function OpenFds(): map<nat, Desc>
      reads this
    {
      map i | i in fds :: Desc(fds[i].path, fds[i].writable)
    }

    constructor (server: Server)
      requires server.Valid()
      ensures Valid() && this.server == server && fds == map[] && fdIdGen == 0
    {
      this.server, fds, fdIdGen := server, map[], 0;
    }

    method Open(p: Path, writable: bool) returns (id: int)
      requires Valid()
      modifies this, server`handles, server`nextHandle
      ensures Valid() && fresh(Repr() - old(Repr()))
      ensures id == if server.up && p in server.files then old(fdIdGen) else -ENOENT
      ensures id < 0 ==> fds == old(fds) && fdIdGen == old(fdIdGen)
      ensures id >= 0 ==> fdIdGen == old(fdIdGen) + 1 && OpenFds() == old(OpenFds())[id := Desc(p, writable)]
      ensures id >= 0 ==> fds.Keys == old(fds).Keys + {id}
      ensures id < 0 ==> server.handles == old(server.handles)
      ensures id >= 0 ==>
        var d := fds[id];
        d.lastFilePointer == -1 && d.fd !in old(server.handles)
        && server.handles == old(server.handles)[d.fd := Handle(p, 0)]
    {
      var h := server.Open(p);
      if h <= 0 { return -ENOENT; }
      var d := new FuseFd(fdIdGen, p, writable, h);
      id := fdIdGen;
      Assign(d);
    }

    /** Takes a descriptor on a handle of its own into the table. */
    method Assign(d: FuseFd)
      requires Valid() && d.fdId == fdIdGen && CursorKnown(d)
      requires forall i :: i in fds ==> fds[i].fd != d.fd
      modifies this
      ensures Valid() && fds == old(fds)[d.fdId := d] && fdIdGen == d.fdId + 1
      ensures OpenFds() == old(OpenFds())[d.fdId := Desc(d.path, d.writable)]
    {
      fds, fdIdGen := fds[d.fdId := d], fdIdGen + 1;
    }

    /** The server's answer to the close is not looked at. */
    method Close(id: nat)
      requires Valid() && id in fds
      modifies this`fds, server`handles
      ensures Valid() && Repr() <= old(Repr())
      ensures fds == old(fds) - {id} && OpenFds() == old(OpenFds()) - {id}
      ensures server.handles == old(server.handles) - if server.up then {old(fds)[id].fd} else {}
    {
      var d := fds[id];
      fds := fds - {id};
      var _ := server.Close(d.fd);
    }

    /** iFuseFdReopen. */
    method Flush(id: nat) returns (st: int)
      requires Valid() && id in fds
      modifies server`handles, server`nextHandle, fds[id]
      ensures Valid()
      ensures st == if server.up then 0 else -ENOENT
      ensures if server.up then
          var h := fds[id].fd;
          h !in old(server.handles) - {old(fds[id].fd)} && fds[id].lastFilePointer == -1
          && server.handles == (old(server.handles) - {old(fds[id].fd)})[h := Handle(fds[id].path, 0)]
        else fds[id].fd == old(fds[id].fd) && server.handles == old(server.handles)
             && fds[id].lastFilePointer == old(fds[id].lastFilePointer)
    {
      var d := fds[id];
      st := server.Close(d.fd);
      if st < 0 { return; }
      d.lastFilePointer := -1;
      var h := server.Open(d.path);
      d.fd := h;
      st := 0;
    }

    /** Puts the cursor at `off`, unless it is known to be there. */
    method SeekTo(id: nat, off: nat) returns (st: int)
      requires Valid() && id in fds
      modifies server`handles, fds[id]
      ensures Valid()
      ensures st == if server.up || old(fds[id].lastFilePointer) == off then 0 else -ENOENT
      ensures fds[id].fd == old(fds[id].fd)
      ensures fds[id].lastFilePointer == if st == 0 then off else -1
      ensures st == 0 ==> server.handles[fds[id].fd].cursor == off
      ensures server.handles == if st == 0 then old(server.handles)[fds[id].fd := Handle(fds[id].path, off)]
                                else old(server.handles)
    {
      var d := fds[id];
      if d.lastFilePointer != off {
        st := server.Seek(d.fd, off);
        if st < 0 {
          d.lastFilePointer := -1;
          return;
        }
        d.lastFilePointer := off;
      }
      st := 0;
    }

    /** However the cursor moved before, the bytes come from the requested offset. */
    method Read(id: nat, buf: array<Byte>, off: nat, size: nat) returns (st: int)
      requires Valid() && id in fds && size <= buf.Length
      modifies server`handles, fds[id], buf
      ensures Valid()
      ensures if server.up then
          var data := Slice(server.files[fds[id].path], off, size);
          st == |data| && buf[..] == Splice(old(buf[..]), 0, data)
          && fds[id].lastFilePointer == off + st
        else st == -ENOENT && buf[..] == old(buf[..]) && server.handles == old(server.handles)
             && fds[id].lastFilePointer == if old(fds[id].lastFilePointer) == off then off else -1
    {
      st := SeekTo(id, off);
      if st < 0 { return; }
      var data;
      st, data := server.Read(fds[id].fd, size);
      if st < 0 { return; }
      MemCopy(buf, 0, data);
      fds[id].lastFilePointer := fds[id].lastFilePointer + st;
    }

    /** However the cursor moved before, the bytes go to the requested offset. */
    method Write(id: nat, buf: array<Byte>, off: nat, size: nat) returns (st: int)
      requires Valid() && id in fds && size <= buf.Length
      modifies server`handles, server`files, fds[id]
      ensures Valid()
      ensures var p := fds[id].path;
        if server.up then
          st == size && server.files == old(server.files)[p := Splice(old(server.files)[p], off, buf[..size])]
          && fds[id].lastFilePointer == off + st
        else st == -ENOENT && server.files == old(server.files) && server.handles == old(server.handles)
             && fds[id].lastFilePointer == if old(fds[id].lastFilePointer) == off then off else -1
    {
      st := SeekTo(id, off);
      if st < 0 { return; }
      st := server.Write(fds[id].fd, buf[..size]);
      if st < 0 { return; }
      fds[id].lastFilePointer := fds[id].lastFilePointer + st;
    }
  }
}
