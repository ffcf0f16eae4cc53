/** The connection pool: shared, counted connections in five containers. */
module Connections {
  import opened Options
  import opened PoolModel

  class Conn {
    const connId: nat
    const kind: Kind
    var lastActTime: int
    var lastUseTime: int
    var inuseCnt: int

    constructor (connId: nat, kind: Kind, now: int)
      ensures this.connId == connId && this.kind == kind
      ensures lastActTime == now && lastUseTime == now && inuseCnt == 1
    {
      this.connId, this.kind := connId, kind;
      lastActTime, lastUseTime, inuseCnt := now, now, 1;
    }
  }

  function Number(c: Conn?): Option<nat> { if c == null then None else Some(c.connId) }

  function Slots(cs: seq<Conn?>): (r: seq<Option<nat>>)
    ensures |r| == |cs| && forall i :: 0 <= i < |r| ==> r[i] == Number(cs[i])
  {
    seq(|cs|, i requires 0 <= i < |cs| => Number(cs[i]))
  }

  function Numbers(cs: seq<Conn>): (r: seq<nat>)
    ensures |r| == |cs| && forall i :: 0 <= i < |r| ==> r[i] == cs[i].connId
  {
    seq(|cs|, i requires 0 <= i < |cs| => cs[i].connId)
  }

  predicate Known(live: map<nat, Conn>, c: Conn?)
  {
    c != null ==> c.connId in live && live[c.connId] == c
  }

  /** The five containers. */
  datatype Shelves = Shelves(inUse: seq<Conn?>, busy: Conn?, idle: Conn?, free: seq<Conn>, once: map<nat, Conn>)

  /** The containers hold live connections only. */
  ghost predicate Held(live: map<nat, Conn>, s: Shelves)
  {
    && (forall id :: id in live ==> live[id].connId == id)
    && (forall i :: 0 <= i < |s.inUse| ==> Known(live, s.inUse[i]))
    && Known(live, s.busy) && Known(live, s.idle)
    && (forall i :: 0 <= i < |s.free| ==> Known(live, s.free[i]))
    && (forall id :: id in s.once ==> id in live && s.once[id] == live[id])
  }

  lemma HeldMore(live: map<nat, Conn>, s: Shelves, c: Conn)
    requires Held(live, s) && c.connId !in live
    ensures Held(live[c.connId := c], s)
  {
  }

  lemma HeldShort(live: map<nat, Conn>, s: Shelves, busy: Conn?, idle: Conn?)
    requires Held(live, s) && Known(live, busy) && Known(live, idle)
    ensures Held(live, s.(busy := busy, idle := idle))
  {
  }

  lemma HeldSlot(live: map<nat, Conn>, s: Shelves, i: nat, c: Conn?, free: seq<Conn>)
    requires Held(live, s) && i < |s.inUse| && Known(live, c)
    requires forall x :: x in free ==> x in s.free || x == c
    ensures Held(live, s.(inUse := s.inUse[i := c], free := free))
    ensures Slots(s.inUse[i := c]) == Slots(s.inUse)[i := Number(c)]
  {
    forall k | 0 <= k < |free| ensures Known(live, free[k]) { assert free[k] in free; }
  }

  lemma HeldOnce(live: map<nat, Conn>, s: Shelves, c: Conn)
    requires Held(live, s) && Known(live, c)
    ensures Held(live, s.(once := s.once[c.connId := c]))
  {
  }

  lemma HeldFree(live: map<nat, Conn>, s: Shelves, c: Conn)
    requires Held(live, s) && Known(live, c)
    ensures Held(live, s.(free := [c] + s.free))
    ensures Numbers([c] + s.free) == [c.connId] + Numbers(s.free)
  {
  }

  lemma HeldLess(live: map<nat, Conn>, s: Shelves, c: Conn)
    requires Held(live, s) && Known(live, c)
    requires c !in s.inUse && s.busy != c && s.idle != c && c !in s.free
    ensures Held(live - {c.connId}, s.(once := s.once - {c.connId}))
  {
  }

  lemma SlotOf(live: map<nat, Conn>, s: Shelves, c: Conn)
    requires Held(live, s) && Known(live, c)
    ensures forall i :: 0 <= i < |s.inUse| ==> (s.inUse[i] == c <==> Slots(s.inUse)[i] == Some(c.connId))
  {
  }

  /** Removes a connection from a list. */
  function Without(cs: seq<Conn>, c: Conn): (r: seq<Conn>)
    ensures forall i :: 0 <= i < |r| ==> r[i] in cs && r[i] != c
    ensures forall i :: 0 <= i < |cs| && cs[i] != c ==> cs[i] in r
  {
    if cs == [] then [] else (if cs[0] == c then [] else [cs[0]]) + Without(cs[1..], c)
  }

  lemma {:induction false} WithoutAbsent(cs: seq<Conn>, c: Conn)
    requires c !in cs
    ensures Without(cs, c) == cs
  {
    if cs != [] { WithoutAbsent(cs[1..], c); }
  }

  lemma {:induction false} WithoutNumber(live: map<nat, Conn>, cs: seq<Conn>, c: Conn)
    requires (forall i :: 0 <= i < |cs| ==> Known(live, cs[i])) && Known(live, c)
    ensures Numbers(Without(cs, c)) == Except(Numbers(cs), {c.connId})
  {
    if cs != [] {
      WithoutNumber(live, cs[1..], c);
      assert Numbers(cs)[1..] == Numbers(cs[1..]);
      var rest := Without(cs[1..], c);
      assert Numbers([cs[0]] + rest) == [cs[0].connId] + Numbers(rest);
    }
  }

  /** Connections are closed that no container holds any more. */
  lemma HeldReaped(live: map<nat, Conn>, s: Shelves, idle: Conn?, free: seq<Conn>, gone: set<nat>)
    requires Held(live, s)
    requires forall i :: 0 <= i < |s.inUse| && s.inUse[i] != null ==> s.inUse[i].connId !in gone
    requires s.busy != null ==> s.busy.connId !in gone
    requires idle != null ==> idle == s.idle && idle.connId !in gone
    requires gone !! s.once.Keys
    requires forall i :: 0 <= i < |free| ==> free[i] in s.free && free[i].connId !in gone
    ensures Held(live - gone, s.(idle := idle, free := free))
  {
  }

  lemma FirstOnce(cs: seq<Conn>)
    requires cs != [] && NoRepeats(Numbers(cs))
    ensures cs[0] !in cs[1..]
  {
  }

  lemma WithoutFirst(cs: seq<Conn>)
    requires cs != [] && NoRepeats(Numbers(cs))
    ensures Without(cs, cs[0]) == cs[1..] && Numbers(cs[1..]) == Numbers(cs)[1..]
  {
    hide NoRepeats;
    FirstOnce(cs);
    WithoutAbsent(cs[1..], cs[0]);
  }

  /** The pool did what `Acquire` says, answered the connection it says, and no live connection was replaced. */
  ghost predicate Answered(p: Pool, p1: Pool, before: map<nat, Conn>, live: map<nat, Conn>, kind: Kind, now: int,
                           status: int, st: int, conn: Conn?)
    requires Inv(p)
  {
    var (q, a) := Acquire(p, kind, now, status);
    && p1 == q && Known(live, conn)
    && (forall id :: id in before ==> id in live && live[id] == before[id])
    && (if a.Got? then st == 0 && Number(conn) == Some(a.id) else st == a.status && conn == null)
  }

  class ConnPool {
    const inUse: array<Conn?>
    var inUseShortop: Conn?
    var inUseOneTime: map<nat, Conn>
    var freeShortop: Conn?
    var free: seq<Conn>
    var connIdGen: nat
    var lastConnCheck: int
    const timeoutSec: int
    const keepAliveSec: int
    const checkIntervalSec: int
    /** The connections not yet closed. */
    ghost var live: map<nat, Conn>

    ghost function Shelved(): Shelves
      reads this, inUse
    {
      Shelves(inUse[..], inUseShortop, freeShortop, free, inUseOneTime)
    }

    ghost predicate Wf()
      reads this, inUse
    {
      Held(live, Shelved())
    }

    ghost function Infos(): map<nat, Info>
      reads this`live, live.Values
    {
      map id | id in live :: Info(live[id].kind, live[id].lastUseTime, live[id].inuseCnt)
    }

    ghost function Abs(): Pool
      reads this, inUse, live.Values
    {
      Pool(Slots(inUse[..]), Numbers(free), Number(inUseShortop), Number(freeShortop), inUseOneTime.Keys, Infos(),
           connIdGen)
    }

    ghost predicate Valid()
      reads this, inUse, live.Values
    {
      Wf() && Inv(Abs())
    }

    constructor (maxConn: nat, timeoutSec: int, keepAliveSec: int, checkIntervalSec: int)
      requires maxConn > 0
      ensures Valid() && Abs() == Empty(maxConn) && live == map[] && fresh(inUse)
      ensures this.timeoutSec == timeoutSec && lastConnCheck == 0
    {
      this.timeoutSec, this.keepAliveSec, this.checkIntervalSec := timeoutSec, keepAliveSec, checkIntervalSec;
      inUse := new Conn?[maxConn](_ => null);
      inUseShortop, freeShortop, inUseOneTime, free := null, null, map[], [];
      connIdGen, lastConnCheck, live := 0, 0, map[];
      new;
      EmptyInv(maxConn);
      assert Slots(inUse[..]) == Empty(maxConn).slots;
    }

    /** One more use of a connection. */
    method Count(c: Conn, now: int)
      requires Wf() && Known(live, c)
      modifies c
      ensures Wf() && c.connId in old(Abs()).conns && Abs() == Use(old(Abs()), c.connId, now)
    {
      c.lastUseTime := now;
      c.inuseCnt := c.inuseCnt + 1;
      assert Infos() == Use(old(Abs()), c.connId, now).conns;
    }

    /** _newConn, with its first use. */
    method NewConn(kind: Kind, now: int, status: int) returns (c: Conn?)
      requires Wf() && connIdGen !in live
      modifies this`connIdGen, this`live
      ensures Wf() && connIdGen == old(connIdGen) + 1
      ensures c == null <==> status < 0
      ensures c == null ==> live == old(live)
      ensures c != null ==> fresh(c) && c.connId == old(connIdGen) && live == old(live)[c.connId := c]
      ensures Abs() == if c == null then old(Abs()).(nextId := connIdGen) else Connect(old(Abs()), kind, now)
    {
      hide Held;
      var id := connIdGen;
      connIdGen := connIdGen + 1;
      if status < 0 {
        c := null;
      } else {
        c := new Conn(id, kind, now);
        HeldMore(live, Shelved(), c);
        live := live[id := c];
        assert Infos() == Connect(old(Abs()), kind, now).conns;
      }
    }

    /** iFuseConnGetAndUse, for a short operation. */
    method GetShortop(now: int, status: int) returns (st: int, conn: Conn?)
      requires Valid()
      modifies this`inUseShortop, this`freeShortop, this`connIdGen, this`live, live.Values
      ensures Valid() && Answered(old(Abs()), Abs(), old(live), live, ShortOp, now, status, st, conn)
    {
      hide Inv, Held, Use, Connect;
      AcquireKeeps(Abs(), ShortOp, now, status);
      NextIsNew();
      HeldShort(live, Shelved(), freeShortop, null);
      if inUseShortop != null {
        conn := inUseShortop;
        Count(conn, now);
      } else if freeShortop != null {
        conn := freeShortop;
        freeShortop, inUseShortop := null, conn;
        Count(conn, now);
      } else {
        conn := NewConn(ShortOp, now, status);
        if conn == null { return status, null; }
        HeldShort(live, Shelved(), conn, null);
        inUseShortop := conn;
      }
      st := 0;
    }

    lemma NextIsNew()
      requires Valid()
      ensures connIdGen !in live && Known(live, inUseShortop) && Known(live, freeShortop)
    {
      assert connIdGen !in Abs().conns;
    }

    /** The first empty slot, or -1. */
    method FindEmpty() returns (targetIndex: int)
      ensures targetIndex >= 0 ==> targetIndex == FirstEmpty(Slots(inUse[..])) < inUse.Length
      ensures targetIndex < 0 ==> FirstEmpty(Slots(inUse[..])) == inUse.Length
    {
      targetIndex := -1;
      for i := 0 to inUse.Length
        invariant forall j :: 0 <= j < i ==> inUse[j] != null
        invariant targetIndex == -1
      {
        if inUse[i] == null {
          return i;
        }
      }
    }

    /** The first of the connections in use with the fewest uses; every slot is taken. */
    method LeastUsed() returns (conn: Conn?)
      requires Valid() && FirstEmpty(Slots(inUse[..])) == inUse.Length
      ensures conn != null && Known(live, conn)
      ensures Loads(Abs()) != [] && conn == inUse[Least(Loads(Abs()))]
    {
      hide Inv;
      SlotLoads();
      var inUseCount := -1;
      conn := null;
      ghost var k: nat := 0;
      for i := 0 to inUse.Length
        invariant i == 0 ==> inUseCount == -1
        invariant i > 0 ==> k < i && conn == inUse[k] && inUseCount == inUse[k].inuseCnt > 0
        invariant i > 0 ==> forall j :: 0 <= j < i ==> inUse[k].inuseCnt <= inUse[j].inuseCnt
        invariant i > 0 ==> forall j :: 0 <= j < k ==> inUse[k].inuseCnt < inUse[j].inuseCnt
      {
        if inUse[i] != null {
          if inUseCount < 0 || inUseCount > inUse[i].inuseCnt {
            inUseCount := inUse[i].inuseCnt;
            conn := inUse[i];
            k := i;
          }
        }
      }
      assert k == Least(Loads(Abs()));
    }

    lemma SlotLoads()
      requires Valid() && FirstEmpty(Slots(inUse[..])) == inUse.Length
      ensures inUse.Length > 0 && forall i :: 0 <= i < inUse.Length ==> Loads(Abs())[i] == inUse[i].inuseCnt > 0
    {
      forall i | 0 <= i < inUse.Length ensures Loads(Abs())[i] == inUse[i].inuseCnt > 0 {
        assert Busy(Abs(), Abs().slots[i].value, FileIo);
      }
    }

    lemma AllKnown()
      requires Wf()
      ensures forall i :: 0 <= i < |free| ==> Known(live, free[i])
    {
    }

    lemma FreeIsLive()
      requires Wf()
      ensures forall i :: 0 <= i < |free| ==> Known(live, free[i]) && Numbers(free)[i] in Infos()
    {
    }

    /** The first waiting connection moves to an empty slot. */
    method TakeFree(targetIndex: nat, now: int) returns (conn: Conn)
      requires Wf() && free != [] && NoRepeats(Numbers(free)) && targetIndex < inUse.Length
      modifies this`free, inUse, live.Values
      ensures Wf() && Known(live, conn) && conn.connId == old(Abs()).free[0]
      ensures Abs() == var p := old(Abs()); var id := p.free[0];
        Use(p, id, now).(slots := p.slots[targetIndex := Some(id)], free := p.free[1..])
    {
      hide Held, Use, NoRepeats;
      conn := free[0];
      FreeIsLive();
      Count(conn, now);
      WithoutFirst(free);
      HeldSlot(live, Shelved(), targetIndex, conn, Without(free, conn));
      inUse[targetIndex] := conn;
      free := Without(free, conn);
      assert inUse[..] == old(inUse[..])[targetIndex := conn];
    }

    method ReuseFileIo(targetIndex: nat, now: int, status: int) returns (conn: Conn)
      requires Valid() && free != [] && targetIndex == FirstEmpty(Slots(inUse[..])) < inUse.Length
      modifies this`free, inUse, live.Values
      ensures Valid() && Answered(old(Abs()), Abs(), old(live), live, FileIo, now, status, 0, conn)
    {
      hide Inv, Held, Use, Connect, Acquire, NoRepeats, Loads, Acquired, Numbers, Slots;
      AcquireKeeps(Abs(), FileIo, now, status);
      FileCases(Abs(), now, status);
      conn := TakeFree(targetIndex, now);
    }

    /** A new connection takes an empty slot. */
    method NewInSlot(targetIndex: nat, now: int, status: int) returns (conn: Conn?)
      requires Wf() && connIdGen !in live && targetIndex < inUse.Length
      modifies this`connIdGen, this`live, inUse
      ensures Wf() && (conn == null <==> status < 0) && Known(live, conn)
      ensures forall id :: id in old(live) ==> id in live && live[id] == old(live)[id]
      ensures Number(conn) == if status < 0 then None else Some(old(connIdGen))
      ensures Abs() == var p := old(Abs());
        if status < 0 then p.(nextId := p.nextId + 1)
        else Connect(p, FileIo, now).(slots := p.slots[targetIndex := Some(p.nextId)])
    {
      hide Held, Connect;
      conn := NewConn(FileIo, now, status);
      if conn != null {
        HeldSlot(live, Shelved(), targetIndex, conn, free);
        inUse[targetIndex] := conn;
        assert inUse[..] == old(inUse[..])[targetIndex := conn];
      }
    }

    method ConnectFileIo(targetIndex: nat, now: int, status: int) returns (conn: Conn?)
      requires Valid() && free == [] && targetIndex == FirstEmpty(Slots(inUse[..])) < inUse.Length
      modifies this`connIdGen, this`live, inUse
      ensures Valid() && (conn == null <==> status < 0)
      ensures Answered(old(Abs()), Abs(), old(live), live, FileIo, now, status, if conn == null then status else 0,
                       conn)
    {
      hide Inv, Held, Use, Connect, Acquire, NoRepeats, Loads, Acquired, Slots;
      AcquireKeeps(Abs(), FileIo, now, status);
      FileCases(Abs(), now, status);
      NextIsNew();
      conn := NewInSlot(targetIndex, now, status);
    }

    /** With every slot taken, the connection with the fewest uses is shared. */
    method ShareFileIo(now: int, status: int) returns (conn: Conn?)
      requires Valid() && FirstEmpty(Slots(inUse[..])) == inUse.Length
      modifies live.Values
      ensures Valid() && conn != null && Answered(old(Abs()), Abs(), old(live), live, FileIo, now, status, 0, conn)
    {
      hide Inv, Held, Use, Connect, Acquire, NoRepeats, Loads, Acquired;
      AcquireKeeps(Abs(), FileIo, now, status);
      FileCases(Abs(), now, status);
      conn := LeastUsed();
      Count(conn, now);
    }

    /** iFuseConnGetAndUse, for a file transfer. */
    method GetFileIo(now: int, status: int) returns (st: int, conn: Conn?)
      requires Valid()
      modifies this`free, this`connIdGen, this`live, inUse, live.Values
      ensures Valid() && Answered(old(Abs()), Abs(), old(live), live, FileIo, now, status, st, conn)
    {
      hide Inv, Held, Acquire, Slots, FirstEmpty, Answered, ConnPool.Abs;
      var targetIndex := FindEmpty();
      if targetIndex >= 0 {
        if free != [] {
          conn := ReuseFileIo(targetIndex, now, status);
        } else {
          conn := ConnectFileIo(targetIndex, now, status);
          if conn == null { return status, null; }
        }
      } else {
        conn := ShareFileIo(now, status);
      }
      st := 0;
    }

    /** iFuseConnGetAndUse, for one use. */
    method GetOneTime(now: int, status: int) returns (st: int, conn: Conn?)
      requires Valid()
      modifies this`inUseOneTime, this`connIdGen, this`live
      ensures Valid() && Answered(old(Abs()), Abs(), old(live), live, OneTime, now, status, st, conn)
    {
      hide Inv, Held, Connect;
      AcquireKeeps(Abs(), OneTime, now, status);
      NextIsNew();
      conn := NewConn(OneTime, now, status);
      if conn == null { return status, null; }
      HeldOnce(live, Shelved(), conn);
      inUseOneTime := inUseOneTime[conn.connId := conn];
      assert inUseOneTime.Keys == old(inUseOneTime).Keys + {conn.connId};
      st := 0;
    }

    /** iFuseConnGetAndUse. `status` is what connecting to the server gives if it comes to that. */
    method GetAndUse(kind: Kind, now: int, status: int) returns (st: int, conn: Conn?)
      requires Valid()
      modifies this, inUse, live.Values
      ensures Valid() && Answered(old(Abs()), Abs(), old(live), live, kind, now, status, st, conn)
    {
      hide Inv, Held, Acquire;
      match kind
      case ShortOp => st, conn := GetShortop(now, status);
      case FileIo => st, conn := GetFileIo(now, status);
      case OneTime => st, conn := GetOneTime(now, status);
    }

    /** iFuseConnUnuse; the caller holds a use of the connection. */
    method Unuse(conn: Conn, now: int)
      requires Valid() && conn.connId in live && live[conn.connId] == conn && conn.inuseCnt > 0
      modifies this, inUse, conn
      ensures Valid() && conn.connId in old(Abs()).conns && Abs() == Release(old(Abs()), conn.connId, now)
    {
      hide Inv, Held, Vacate, Release;
      ghost var p := Abs();
      ReleaseKeeps(p, conn.connId, now);
      ReleaseCases(p, conn.connId, now);
      ReleaseFacts(conn);
      CountDown(conn, now);
      assert conn.inuseCnt >= 0;
      if conn.inuseCnt == 0 {
        match conn.kind
        case ShortOp =>
          assert inUseShortop == conn && freeShortop == null;
          HeldShort(live, Shelved(), null, conn);
          inUseShortop, freeShortop := null, conn;
        case FileIo => Vacated(conn);
        case OneTime => Dropped(conn);
      }
    }

    method CountDown(conn: Conn, now: int)
      requires Wf() && Known(live, conn)
      modifies conn
      ensures Wf() && conn.inuseCnt == old(conn.inuseCnt) - 1
      ensures conn.connId in old(Abs()).conns
      ensures var p := old(Abs()); Abs() == p.(conns := p.conns[conn.connId := Info(conn.kind, now, conn.inuseCnt)])
    {
      conn.lastUseTime := now;
      conn.inuseCnt := conn.inuseCnt - 1;
      assert Infos() == old(Infos())[conn.connId := Info(conn.kind, now, conn.inuseCnt)];
    }

    lemma ReleaseFacts(conn: Conn)
      requires Valid() && Known(live, conn) && conn.inuseCnt > 0
      ensures conn.connId in Abs().conns && Abs().conns[conn.connId] == Info(conn.kind, conn.lastUseTime, conn.inuseCnt)
      ensures conn.kind == ShortOp ==> inUseShortop == conn && freeShortop == null
      ensures conn.kind == OneTime ==> Elsewhere(conn)
    {
      var p := Abs();
      assert AtHome(p, conn.connId);
      forall i | 0 <= i < inUse.Length && inUse[i] == conn ensures conn.kind == FileIo {
        assert p.slots[i] == Some(conn.connId);
      }
      assert forall i :: 0 <= i < |free| ==> p.free[i] == free[i].connId;
    }

    /** A file connection leaves its slot and waits first in the list. */
    method Vacated(conn: Conn)
      requires Wf() && Known(live, conn)
      modifies this`free, inUse
      ensures Wf()
      ensures Abs() == var p := old(Abs()); p.(slots := Vacate(p.slots, conn.connId), free := [conn.connId] + p.free)
    {
      hide Held, Vacate;
      ghost var was := inUse[..];
      SlotOf(live, Shelved(), conn);
      var i := 0;
      while i < inUse.Length && inUse[i] != conn
        invariant 0 <= i <= inUse.Length && forall j :: 0 <= j < i ==> inUse[j] != conn
      {
        i := i + 1;
      }
      VacateFirst(Slots(was), conn.connId, i);
      if i < inUse.Length {
        HeldSlot(live, Shelved(), i, null, free);
        inUse[i] := null;
        assert inUse[..] == was[i := null];
      }
      HeldFree(live, Shelved(), conn);
      free := [conn] + free;
    }

    /** A one-time connection is closed. */
    method Dropped(conn: Conn)
      requires Wf() && Known(live, conn) && Elsewhere(conn)
      modifies this`inUseOneTime, this`live
      ensures Wf() && live == old(live) - {conn.connId}
      ensures Abs() == var p := old(Abs()); p.(oneTime := p.oneTime - {conn.connId}, conns := p.conns - {conn.connId})
    {
      hide Held;
      HeldLess(live, Shelved(), conn);
      inUseOneTime := inUseOneTime - {conn.connId};
      live := live - {conn.connId};
      assert Infos() == old(Infos()) - {conn.connId};
    }

    /** Only the one-time map may hold the connection. */
    ghost predicate Elsewhere(conn: Conn)
      reads this, inUse
    {
      conn !in inUse[..] && inUseShortop != conn && freeShortop != conn && conn !in free
    }

    /** _keepAlive, if it is time for it; `answers` tells whether the server answers the request. */
    method KeepAlive(c: Conn, now: int, answers: bool)
      modifies c`lastActTime
      ensures c.lastActTime == Act(old(c.lastActTime), now, answers)
    {
      if now - c.lastActTime >= keepAliveSec {
        if answers { c.lastActTime := now; }
      }
    }

    /** The time of last activity after a check: now, if the last one is long ago and the server answers. */
    function Act(before: int, now: int, answers: bool): int
    {
      if now - before >= keepAliveSec && answers then now else before
    }

    /** Every live connection is in one of the containers. */
    lemma Somewhere(id: nat)
      requires Valid() && id in live
      ensures live[id] in inUse[..] || inUseShortop == live[id] || id in inUseOneTime || live[id] in free
              || freeShortop == live[id]
    {
      hide FilesFine, OthersFine;
      var p := Abs();
      assert AtHome(p, id);
      if Some(id) in p.slots {
        var i :| 0 <= i < |p.slots| && p.slots[i] == Some(id);
        assert inUse[..][i] == live[id];
      }
      if id in p.free {
        var i :| 0 <= i < |p.free| && p.free[i] == id;
        assert free[i] == live[id];
      }
    }

    ghost function Acts(): map<nat, int>
      reads this, live.Values
    {
      map id | id in live :: live[id].lastActTime
    }

    /** Part of the way through the checker: the connections in `done` have been dealt with. */
    ghost predicate Checked(before: map<nat, int>, now: int, answers: nat -> bool, done: set<nat>)
      reads this, live.Values
    {
      before.Keys == live.Keys && forall id :: id in live ==>
        live[id].lastActTime == if id in done then Act(before[id], now, answers(id)) else before[id]
    }

    method KeepOne(c: Conn, now: int, answers: nat -> bool, ghost before: map<nat, int>, ghost done: set<nat>)
      requires Wf() && Known(live, c) && Checked(before, now, answers, done)
      modifies c`lastActTime
      ensures Checked(before, now, answers, done + {c.connId})
    {
      KeepAlive(c, now, answers(c.connId));
    }

    /** The slots, */
    method KeepSlotsAlive(now: int, answers: nat -> bool, ghost before: map<nat, int>) returns (ghost done: set<nat>)
      requires Wf() && Checked(before, now, answers, {})
      modifies live.Values`lastActTime
      ensures Checked(before, now, answers, done)
      ensures forall i :: 0 <= i < inUse.Length && inUse[i] != null ==> inUse[i].connId in done
    {
      hide Checked, Held, Numbers, Slots;
      done := {};
      SlotsKnown();
      for i := 0 to inUse.Length
        invariant Checked(before, now, answers, done)
        invariant forall j :: 0 <= j < i && inUse[j] != null ==> inUse[j].connId in done
      {
        if inUse[i] != null {
          KeepOne(inUse[i], now, answers, before, done);
          done := done + {inUse[i].connId};
        }
      }
    }

    lemma SlotsKnown()
      requires Wf()
      ensures forall i :: 0 <= i < inUse.Length && inUse[i] != null ==> Known(live, inUse[i])
    {
    }

    /** the short-operation connections, */
    method KeepShortAlive(c: Conn?, now: int, answers: nat -> bool, ghost before: map<nat, int>, ghost was: set<nat>)
        returns (ghost done: set<nat>)
      requires Wf() && Known(live, c) && Checked(before, now, answers, was)
      modifies live.Values`lastActTime
      ensures Checked(before, now, answers, done) && was <= done && (c != null ==> c.connId in done)
    {
      hide Checked, Held, Numbers, Slots;
      done := was;
      if c != null {
        KeepOne(c, now, answers, before, done);
        done := done + {c.connId};
      }
    }

    /** the one-time connections, */
    method KeepOnceAlive(now: int, answers: nat -> bool, ghost before: map<nat, int>, ghost was: set<nat>)
        returns (ghost done: set<nat>)
      requires Wf() && Checked(before, now, answers, was)
      modifies live.Values`lastActTime
      ensures Checked(before, now, answers, done) && was <= done && inUseOneTime.Keys <= done
    {
      hide Checked, Held, Numbers, Slots;
      done := was;
      OnceKnown();
      var rest := inUseOneTime.Keys;
      while rest != {}
        invariant rest <= inUseOneTime.Keys && was <= done && inUseOneTime.Keys - rest <= done
        invariant Checked(before, now, answers, done)
      {
        var id :| id in rest;
        KeepOne(inUseOneTime[id], now, answers, before, done);
        rest := rest - {id};
        done := done + {id};
      }
    }

    lemma OnceKnown()
      requires Wf()
      ensures forall id :: id in inUseOneTime ==> Known(live, inUseOneTime[id]) && inUseOneTime[id].connId == id
    {
    }

    /** and the list of waiting ones. */
    method KeepFreeAlive(now: int, answers: nat -> bool, ghost before: map<nat, int>, ghost was: set<nat>)
        returns (ghost done: set<nat>)
      requires Wf() && Checked(before, now, answers, was)
      modifies live.Values`lastActTime
      ensures Checked(before, now, answers, done) && was <= done
      ensures forall i :: 0 <= i < |free| ==> free[i].connId in done
    {
      hide Checked, Held, Numbers, Slots;
      done := was;
      AllKnown();
      for i := 0 to |free|
        invariant Checked(before, now, answers, done) && was <= done
        invariant forall j :: 0 <= j < i ==> free[j].connId in done
      {
        KeepOne(free[i], now, answers, before, done);
        done := done + {free[i].connId};
      }
    }

    lemma ShortKnown()
      requires Wf()
      ensures Known(live, inUseShortop) && Known(live, freeShortop)
    {
    }

    lemma NothingChecked(now: int, answers: nat -> bool)
      ensures Checked(Acts(), now, answers, {})
    {
    }

    lemma AllChecked(before: map<nat, int>, now: int, answers: nat -> bool, done: set<nat>)
      requires Valid() && Checked(before, now, answers, done)
      requires forall i :: 0 <= i < inUse.Length && inUse[i] != null ==> inUse[i].connId in done
      requires (inUseShortop != null ==> inUseShortop.connId in done) && inUseOneTime.Keys <= done
      requires forall i :: 0 <= i < |free| ==> free[i].connId in done
      requires freeShortop != null ==> freeShortop.connId in done
      ensures forall id :: id in live ==> live[id].lastActTime == Act(before[id], now, answers(id))
    {
      hide Inv;
      forall id | id in live ensures id in done { Somewhere(id); }
    }

    /** _connChecker, first part: each connection, whichever container it is in, is kept alive if it is time
        for it and the server answers, and nothing else changes. */
    method KeepAllAlive(now: int, answers: nat -> bool)
      requires Valid()
      modifies live.Values`lastActTime
      ensures Valid() && Abs() == old(Abs())
      ensures forall id :: id in live ==> live[id].lastActTime == Act(old(live[id].lastActTime), now, answers(id))
    {
      hide Inv, Checked, Held;
      ghost var before := Acts();
      assert Checked(before, now, answers, {}) by { NothingChecked(now, answers); }
      ShortKnown();
      ghost var done := KeepSlotsAlive(now, answers, before);
      done := KeepShortAlive(inUseShortop, now, answers, before, done);
      done := KeepOnceAlive(now, answers, before, done);
      done := KeepFreeAlive(now, answers, before, done);
      done := KeepShortAlive(freeShortop, now, answers, before, done);
      assert Infos() == old(Infos());
      AllChecked(before, now, answers, done);
    }

    predicate TimedOut(c: Conn, now: int)
      reads c
    {
      now - c.lastUseTime >= timeoutSec
    }

    /** _connChecker, the list of idle connections: those that timed out are collected, removed and closed. */
    method ReapFree(now: int) returns (ghost gone: set<nat>)
      requires Wf()
      modifies this`free, this`live
      ensures live == old(live) - gone
      ensures Numbers(free) == Except(old(Numbers(free)), gone)
      ensures forall i :: 0 <= i < |free| ==> free[i] in old(free) && free[i].connId !in gone
      ensures forall i :: 0 <= i < |old(free)| ==> (old(free)[i].connId in gone <==> TimedOut(old(free)[i], now))
      ensures forall id :: id in gone ==> exists i :: 0 <= i < |old(free)| && old(free)[i].connId == id
    {
      hide Numbers, Without, Except, TimedOut, ConnPool.Wf;
      AllKnown();
      var removeList: seq<Conn> := [];
      for i := 0 to |free|
        invariant forall j :: 0 <= j < |removeList| ==> removeList[j] in free && TimedOut(removeList[j], now)
        invariant forall j :: 0 <= j < i && TimedOut(free[j], now) ==> free[j] in removeList
      {
        if TimedOut(free[i], now) {
          removeList := removeList + [free[i]];
        }
      }
      ghost var was, expired := free, removeList;
      gone := {};
      ExceptNone(Numbers(was));
      while removeList != []
        invariant forall c :: c in removeList ==> c in expired
        invariant forall c :: c in expired ==> c in removeList || c.connId in gone
        invariant forall id :: id in gone ==> exists i :: 0 <= i < |was| && was[i] in expired && was[i].connId == id
        invariant live == old(live) - gone
        invariant Numbers(free) == Except(Numbers(was), gone)
        invariant forall i :: 0 <= i < |free| ==> free[i] in was && free[i].connId !in gone
        decreases |removeList|
      {
        var c := removeList[0];
        removeList := removeList[1..];
        WithoutNumber(old(live), free, c);
        ExceptTwice(Numbers(was), gone, c.connId);
        free := Without(free, c);
        live := live - {c.connId};
        gone := gone + {c.connId};
      }
    }

    /** What is in use counts uses, what waits does not, and the clock says the same of it. */
    lemma IdleFacts(now: int)
      requires Valid()
      ensures var p := Abs();
        && (forall i :: 0 <= i < inUse.Length && inUse[i] != null ==> Used(p, inUse[i].connId))
        && (inUseShortop != null ==> Used(p, inUseShortop.connId))
        && (forall id :: id in inUseOneTime ==> Used(p, id))
        && (forall i :: 0 <= i < |free| ==> Waits(p, now, free[i]))
        && (freeShortop != null ==> Waits(p, now, freeShortop))
    {
      var p := Abs();
      forall i | 0 <= i < inUse.Length && inUse[i] != null ensures Used(p, inUse[i].connId) {
        assert p.slots[i] == Some(inUse[i].connId);
      }
      forall i | 0 <= i < |free| ensures Waits(p, now, free[i]) {
        assert Idle(p, p.free[i], FileIo);
      }
    }

    static predicate Used(p: Pool, id: nat) { id in p.conns && p.conns[id].uses > 0 }

    predicate Waits(p: Pool, now: int, c: Conn)
      reads c
    {
      c.connId in p.conns && p.conns[c.connId].uses == 0
      && (TimedOut(c, now) <==> Expired(p, now, timeoutSec, c.connId))
    }

    method ReapShort(now: int) returns (ghost late: bool)
      modifies this`live, this`freeShortop
      ensures late == (old(freeShortop) != null && TimedOut(old(freeShortop), now))
      ensures freeShortop == if late then null else old(freeShortop)
      ensures live == old(live) - if late then {old(freeShortop).connId} else {}
    {
      late := false;
      if freeShortop != null {
        if TimedOut(freeShortop, now) {
          late := true;
          live := live - {freeShortop.connId};
          freeShortop := null;
        }
      }
    }

    /** What both loops drop, by number. */
    method DropIdle(now: int) returns (ghost gone: set<nat>, ghost late: bool)
      requires Valid()
      modifies this`free, this`live, this`freeShortop
      ensures var p := old(Abs());
        && (forall id :: id in gone ==> id in p.free && Expired(p, now, timeoutSec, id))
        && (forall i :: 0 <= i < |p.free| && Expired(p, now, timeoutSec, p.free[i]) ==> p.free[i] in gone)
        && late == (p.idleShort.Some? && Expired(p, now, timeoutSec, p.idleShort.value))
        && Numbers(free) == Except(p.free, gone) && Number(freeShortop) == (if late then None else p.idleShort)
        && live == old(live) - (gone + if late then {p.idleShort.value} else {})
      ensures Wf()
    {
      hide Held, Numbers, Slots, Inv, Except, Expired;
      ghost var s := Shelved();
      IdleFacts(now);
      gone := ReapFree(now);
      late := ReapShort(now);
      ghost var dropped := gone + if late then {s.idle.connId} else {};
      HeldReaped(old(live), s, freeShortop, free, dropped);
      assert live == old(live) - dropped;
    }

    /** _connChecker, second part: idle connections that timed out are closed. */
    method CloseIdle(now: int)
      requires Valid()
      modifies this`free, this`live, this`freeShortop
      ensures Valid() && Abs() == Reap(old(Abs()), now, timeoutSec)
      ensures forall id :: id in live ==> id in old(live) && live[id] == old(live)[id]
    {
      hide Held, Numbers, Slots, Inv, Reap, Except, Expired, ConnPool.Wf;
      ghost var p, infos := Abs(), Infos();
      ReapKeeps(p, now, timeoutSec);
      ghost var gone, late := DropIdle(now);
      ReapIs(p, now, timeoutSec, gone);
      assert Infos() == infos - (gone + if late then {p.idleShort.value} else {});
    }

    /** _connChecker, at a timer tick. */
    method Checker(now: int, answers: nat -> bool)
      requires Valid()
      modifies this`free, this`live, this`freeShortop, this`lastConnCheck, live.Values`lastActTime
      ensures Valid()
      ensures var ran := now - old(lastConnCheck) > checkIntervalSec;
        && Abs() == (if ran then Reap(old(Abs()), now, timeoutSec) else old(Abs()))
        && lastConnCheck == (if ran then now else old(lastConnCheck))
        && (forall id :: id in live ==> id in old(live) && live[id] == old(live)[id])
        && (forall id :: id in live ==>
              live[id].lastActTime ==
                if ran then Act(old(live[id].lastActTime), now, answers(id)) else old(live[id].lastActTime))
    {
      hide Held, Inv, Reap;
      if now - lastConnCheck > checkIntervalSec {
        KeepAllAlive(now, answers);
        CloseIdle(now);
        lastConnCheck := now;
      }
    }
  }
}
