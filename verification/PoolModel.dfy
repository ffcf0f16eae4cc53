/** The connection pool on values: connections are known by their number, and each of the five
    containers holds numbers. */
module PoolModel {
  import opened Options

  datatype Kind = ShortOp | FileIo | OneTime

  datatype Info = Info(kind: Kind, lastUse: int, uses: int)

  /** `slots` are the places of the connections in use for file transfers, `free` those that wait,
      most recently used first. */
  datatype Pool = Pool(
    slots: seq<Option<nat>>, free: seq<nat>,
    busyShort: Option<nat>, idleShort: Option<nat>,
    oneTime: set<nat>,
    conns: map<nat, Info>, nextId: nat)

  datatype Answer = Got(id: nat) | Refused(status: int)

  // ---------- what every pool keeps ----------

  predicate Busy(p: Pool, id: nat, kind: Kind)
  {
    id in p.conns && p.conns[id].kind == kind && p.conns[id].uses > 0
  }

  predicate Idle(p: Pool, id: nat, kind: Kind)
  {
    id in p.conns && p.conns[id].kind == kind && p.conns[id].uses == 0
  }

  /** The container a live connection belongs in, by its kind and whether it is in use, holds it. */
  predicate AtHome(p: Pool, id: nat)
    requires id in p.conns
  {
    var c := p.conns[id];
    match c.kind
    case ShortOp => if c.uses > 0 then p.busyShort == Some(id) else c.uses == 0 && p.idleShort == Some(id)
    case FileIo => if c.uses > 0 then Some(id) in p.slots else c.uses == 0 && id in p.free
    case OneTime => c.uses > 0 && id in p.oneTime
  }

  predicate Distinct(slots: seq<Option<nat>>)
  {
    forall i, j :: 0 <= i < j < |slots| && slots[i].Some? ==> slots[i] != slots[j]
  }

  predicate NoRepeats(ids: seq<nat>)
  {
    forall i, j :: 0 <= i < j < |ids| ==> ids[i] != ids[j]
  }

  function Taken(slots: seq<Option<nat>>): (n: nat)
    ensures n <= |slots|
  {
    if slots == [] then 0 else (if slots[0].Some? then 1 else 0) + Taken(slots[1..])
  }

  predicate FilesFine(p: Pool)
  {
    && (forall i :: 0 <= i < |p.slots| && p.slots[i].Some? ==> Busy(p, p.slots[i].value, FileIo))
    && (forall i :: 0 <= i < |p.free| ==> Idle(p, p.free[i], FileIo))
    && Distinct(p.slots) && NoRepeats(p.free)
    && |p.slots| > 0 && Taken(p.slots) + |p.free| <= |p.slots|
  }

  predicate OthersFine(p: Pool)
  {
    && (p.busyShort.Some? ==> Busy(p, p.busyShort.value, ShortOp) && p.idleShort.None?)
    && (p.idleShort.Some? ==> Idle(p, p.idleShort.value, ShortOp))
    && (forall id :: id in p.oneTime ==> Busy(p, id, OneTime))
  }

  predicate Inv(p: Pool)
  {
    FilesFine(p) && OthersFine(p) && forall id :: id in p.conns ==> id < p.nextId && AtHome(p, id)
  }

  // ---------- the operations ----------

  function Use(p: Pool, id: nat, now: int): Pool
    requires id in p.conns
  {
    p.(conns := p.conns[id := p.conns[id].(lastUse := now, uses := p.conns[id].uses + 1)])
  }

  function Connect(p: Pool, kind: Kind, now: int): Pool
  {
    p.(conns := p.conns[p.nextId := Info(kind, now, 1)], nextId := p.nextId + 1)
  }

  function FirstEmpty(slots: seq<Option<nat>>): (i: nat)
    ensures i <= |slots| && (i < |slots| ==> slots[i].None?)
    ensures forall j :: 0 <= j < i ==> slots[j].Some?
  {
    if slots == [] || slots[0].None? then 0 else 1 + FirstEmpty(slots[1..])
  }

  /** The first of the least values. */
  function Least(loads: seq<int>): (i: nat)
    requires loads != []
    ensures i < |loads| && (forall j :: 0 <= j < |loads| ==> loads[i] <= loads[j])
    ensures forall j :: 0 <= j < i ==> loads[i] < loads[j]
  {
    if |loads| == 1 then 0
    else
      var r := 1 + Least(loads[1..]);
      if loads[0] <= loads[r] then 0 else r
  }

  function Load(p: Pool, slot: Option<nat>): int
  {
    if slot.Some? && slot.value in p.conns then p.conns[slot.value].uses else 0
  }

  function Loads(p: Pool): (r: seq<int>)
    ensures |r| == |p.slots| && forall i :: 0 <= i < |r| ==> r[i] == Load(p, p.slots[i])
  {
    seq(|p.slots|, i requires 0 <= i < |p.slots| => Load(p, p.slots[i]))
  }

  /** iFuseConnGetAndUse; `status` is what connecting to the server would give. */
  function Acquire(p: Pool, kind: Kind, now: int, status: int): (Pool, Answer)
    requires Inv(p)
  {
    var refused := (p.(nextId := p.nextId + 1), Refused(status));
    match kind
    case ShortOp =>
      if p.busyShort.Some? then (Use(p, p.busyShort.value, now), Got(p.busyShort.value))
      else if p.idleShort.Some? then
        (Use(p.(busyShort := p.idleShort, idleShort := None), p.idleShort.value, now), Got(p.idleShort.value))
      else if status < 0 then refused
      else (Connect(p, kind, now).(busyShort := Some(p.nextId)), Got(p.nextId))
    case FileIo =>
      var i := FirstEmpty(p.slots);
      if i == |p.slots| then
        var id := p.slots[Least(Loads(p))].value;
        (Use(p, id, now), Got(id))
      else if p.free != [] then
        (Use(p.(slots := p.slots[i := Some(p.free[0])], free := p.free[1..]), p.free[0], now), Got(p.free[0]))
      else if status < 0 then refused
      else (Connect(p, kind, now).(slots := p.slots[i := Some(p.nextId)]), Got(p.nextId))
    case OneTime =>
      if status < 0 then refused
      else (Connect(p, kind, now).(oneTime := p.oneTime + {p.nextId}), Got(p.nextId))
  }

  /** The first slot with `id` is emptied. */
  function Vacate(slots: seq<Option<nat>>, id: nat): (r: seq<Option<nat>>)
    ensures |r| == |slots|
  {
    if slots == [] then []
    else if slots[0] == Some(id) then [None] + slots[1..]
    else [slots[0]] + Vacate(slots[1..], id)
  }

  /** iFuseConnUnuse. */
  function Release(p: Pool, id: nat, now: int): Pool
    requires id in p.conns
  {
    var c := p.conns[id].(lastUse := now, uses := p.conns[id].uses - 1);
    var p1 := p.(conns := p.conns[id := c]);
    if c.uses != 0 then p1
    else match c.kind
    case ShortOp => p1.(busyShort := None, idleShort := Some(id))
    case FileIo => p1.(slots := Vacate(p.slots, id), free := [id] + p.free)
    case OneTime => p1.(oneTime := p.oneTime - {id}, conns := p.conns - {id})
  }

  predicate Expired(p: Pool, now: int, timeout: int, id: nat)
  {
    id in p.conns && now - p.conns[id].lastUse >= timeout
  }

  function Fresh(p: Pool, now: int, timeout: int, ids: seq<nat>): seq<nat>
  {
    if ids == [] then []
    else (if Expired(p, now, timeout, ids[0]) then [] else [ids[0]]) + Fresh(p, now, timeout, ids[1..])
  }

  /** The list without some connections. */
  function Except(ids: seq<nat>, gone: set<nat>): (r: seq<nat>)
    ensures forall i :: 0 <= i < |r| ==> r[i] in ids && r[i] !in gone
  {
    if ids == [] then [] else (if ids[0] in gone then [] else [ids[0]]) + Except(ids[1..], gone)
  }

  lemma {:induction false} ExceptNone(ids: seq<nat>)
    ensures Except(ids, {}) == ids
  {
    if ids != [] { ExceptNone(ids[1..]); }
  }

  lemma {:induction false} ExceptTwice(ids: seq<nat>, gone: set<nat>, id: nat)
    ensures Except(Except(ids, gone), {id}) == Except(ids, gone + {id})
  {
    if ids != [] {
      ExceptTwice(ids[1..], gone, id);
      var rest := Except(ids[1..], gone);
      if ids[0] in gone {
        assert [] + rest == rest;
      } else {
        var kept := [ids[0]] + rest;
        assert kept[1..] == rest && Except(ids, gone) == kept;
      }
    }
  }

  lemma {:induction false} ExceptExpired(p: Pool, now: int, timeout: int, ids: seq<nat>, gone: set<nat>)
    requires forall i :: 0 <= i < |ids| ==> (ids[i] in gone <==> Expired(p, now, timeout, ids[i]))
    ensures Except(ids, gone) == Fresh(p, now, timeout, ids)
  {
    hide Expired;
    if ids != [] { ExceptExpired(p, now, timeout, ids[1..], gone); }
  }

  ghost function Reaped(p: Pool, now: int, timeout: int): set<nat>
  {
    set id | id in p.conns && Expired(p, now, timeout, id) && (id in p.free || p.idleShort == Some(id))
  }

  lemma ReapedParts(p: Pool, now: int, timeout: int, gone: set<nat>)
    requires Inv(p)
    requires forall id :: id in gone ==> id in p.free && Expired(p, now, timeout, id)
    requires forall i :: 0 <= i < |p.free| && Expired(p, now, timeout, p.free[i]) ==> p.free[i] in gone
    ensures Reaped(p, now, timeout) ==
      gone + if p.idleShort.Some? && Expired(p, now, timeout, p.idleShort.value) then {p.idleShort.value} else {}
  {
    hide FilesFine, AtHome;
  }

  /** _connChecker, once it runs: waiting connections not used for `timeout` are closed. */
  ghost function Reap(p: Pool, now: int, timeout: int): Pool
  {
    p.(free := Fresh(p, now, timeout, p.free),
       idleShort := if p.idleShort.Some? && Expired(p, now, timeout, p.idleShort.value) then None else p.idleShort,
       conns := p.conns - Reaped(p, now, timeout))
  }

  lemma ReapIs(p: Pool, now: int, timeout: int, gone: set<nat>)
    requires Inv(p)
    requires forall id :: id in gone ==> id in p.free && Expired(p, now, timeout, id)
    requires forall i :: 0 <= i < |p.free| && Expired(p, now, timeout, p.free[i]) ==> p.free[i] in gone
    ensures var late := p.idleShort.Some? && Expired(p, now, timeout, p.idleShort.value);
      Reap(p, now, timeout) ==
        p.(free := Except(p.free, gone), idleShort := if late then None else p.idleShort,
           conns := p.conns - (gone + if late then {p.idleShort.value} else {}))
  {
    hide Inv, Expired, Except, Fresh;
    ReapedParts(p, now, timeout, gone);
    ExceptExpired(p, now, timeout, p.free, gone);
  }

  function Empty(max: nat): Pool
  {
    Pool(seq(max, _ => None), [], None, None, {}, map[], 0)
  }

  // ---------- every step keeps the pool in order ----------

  lemma {:induction false} TakenSet(slots: seq<Option<nat>>, i: nat, s: Option<nat>)
    requires i < |slots|
    ensures Taken(slots[i := s]) ==
      Taken(slots) + (if s.Some? then 1 else 0) - (if slots[i].Some? then 1 else 0)
  {
    var slots1 := slots[i := s];
    if i == 0 {
      assert slots1[1..] == slots[1..];
    } else {
      assert slots1[1..] == slots[1..][i - 1 := s];
      TakenSet(slots[1..], i - 1, s);
    }
  }

  lemma {:induction false} TakenAll(slots: seq<Option<nat>>)
    requires forall i :: 0 <= i < |slots| ==> slots[i].Some?
    ensures Taken(slots) == |slots|
  {
    if slots != [] { TakenAll(slots[1..]); }
  }

  lemma {:induction false} TakenNone(slots: seq<Option<nat>>)
    requires forall i :: 0 <= i < |slots| ==> slots[i].None?
    ensures Taken(slots) == 0
  {
    if slots != [] { TakenNone(slots[1..]); }
  }

  lemma {:induction false} VacateFirst(slots: seq<Option<nat>>, id: nat, i: nat)
    requires i <= |slots| && (i < |slots| ==> slots[i] == Some(id)) && forall j :: 0 <= j < i ==> slots[j] != Some(id)
    ensures Vacate(slots, id) == if i < |slots| then slots[i := None] else slots
  {
    if i > 0 {
      VacateFirst(slots[1..], id, i - 1);
      assert slots == [slots[0]] + slots[1..];
      if i < |slots| { assert slots[i := None] == [slots[0]] + slots[1..][i - 1 := None]; }
    }
  }

  lemma EmptyInv(max: nat)
    requires max > 0
    ensures Inv(Empty(max))
  {
    TakenNone(Empty(max).slots);
  }

  /** Another use of a connection that is in use. */
  lemma UseInv(p: Pool, id: nat, now: int)
    requires Inv(p) && id in p.conns && p.conns[id].uses > 0
    ensures Inv(Use(p, id, now))
  {
    hide Distinct, NoRepeats, Taken;
  }

  /** A waiting file connection takes an empty slot. */
  lemma ReuseInv(p: Pool, i: nat, now: int)
    requires Inv(p) && i < |p.slots| && p.slots[i].None? && p.free != []
    ensures Inv(Use(p.(slots := p.slots[i := Some(p.free[0])], free := p.free[1..]), p.free[0], now))
  {
    hide Taken;
    var id := p.free[0];
    var p1 := Use(p.(slots := p.slots[i := Some(id)], free := p.free[1..]), id, now);
    TakenSet(p.slots, i, Some(id));
    assert Idle(p, id, FileIo);
    assert forall j :: 0 < j < |p.free| ==> p.free[j] != id;
    assert forall j :: 0 <= j < |p.slots| && p.slots[j].Some? ==> p.slots[j] != Some(id);
    assert p1.slots[i] == Some(id);
    forall k | k in p1.conns ensures k < p1.nextId && AtHome(p1, k) {
      assert AtHome(p, k);
      if k != id { HomeKept(p, p1, i, k); }
    }
  }

  lemma HomeKept(p: Pool, p1: Pool, i: nat, k: nat)
    requires k in p.conns && k in p1.conns && p1.conns[k] == p.conns[k] && AtHome(p, k)
    requires i < |p.slots| && p.slots[i].None? && |p1.slots| == |p.slots| && p1.slots == p.slots[i := p1.slots[i]]
    requires p1.free == p.free || (p.free != [] && p1.free == p.free[1..] && k != p.free[0])
    requires p1.busyShort == p.busyShort && p1.idleShort == p.idleShort && p1.oneTime == p.oneTime
    ensures AtHome(p1, k)
  {
    if Some(k) in p.slots {
      var j :| 0 <= j < |p.slots| && p.slots[j] == Some(k);
      assert p1.slots[j] == Some(k);
    }
  }

  /** A new file connection takes an empty slot. */
  lemma ConnectFileInv(p: Pool, i: nat, now: int)
    requires Inv(p) && i < |p.slots| && p.slots[i].None? && p.free == []
    ensures Inv(Connect(p, FileIo, now).(slots := p.slots[i := Some(p.nextId)]))
  {
    hide Taken;
    var p1 := Connect(p, FileIo, now).(slots := p.slots[i := Some(p.nextId)]);
    TakenSet(p.slots, i, Some(p.nextId));
    FullOrNot(p.slots, i);
    assert p1.slots[i] == Some(p.nextId);
    assert forall j :: 0 <= j < |p.slots| && p.slots[j].Some? ==> Busy(p, p.slots[j].value, FileIo);
    forall k | k in p1.conns ensures k < p1.nextId && AtHome(p1, k) {
      if k != p.nextId { HomeKept(p, p1, i, k); }
    }
  }

  lemma FullOrNot(slots: seq<Option<nat>>, i: nat)
    requires i < |slots| && slots[i].None?
    ensures Taken(slots) < |slots|
  {
    TakenSet(slots, i, Some(0));
  }

  lemma UseNewShort(p: Pool, now: int)
    requires Inv(p) && p.busyShort.None?
    ensures p.idleShort.Some? ==>
      Inv(Use(p.(busyShort := p.idleShort, idleShort := None), p.idleShort.value, now))
    ensures p.idleShort.None? ==> Inv(Connect(p, ShortOp, now).(busyShort := Some(p.nextId)))
  {
    hide Distinct, NoRepeats, Taken;
  }

  lemma ConnectOnceInv(p: Pool, now: int)
    requires Inv(p)
    ensures Inv(Connect(p, OneTime, now).(oneTime := p.oneTime + {p.nextId}))
  {
    hide Distinct, NoRepeats, Taken;
  }

  /** The uses of each connection that is outstanding after some run: acquired and not released. */
  ghost predicate Balanced(p: Pool, ledger: multiset<nat>)
  {
    forall id :: (if id in p.conns then p.conns[id].uses else 0) == ledger[id]
  }

  /** One more use of the connection answered, and no other connection changed; refused, only the number
      generator moved. A file connection is made only where none waits and a slot is empty. */
  ghost predicate Acquired(p: Pool, p1: Pool, kind: Kind, now: int, a: Answer)
  {
    match a
    case Refused(_) =>
      && p1 == p.(nextId := p.nextId + 1)
      && (kind == ShortOp ==> forall id :: id in p.conns ==> p.conns[id].kind != ShortOp)
      && (kind == FileIo ==> p.free == [] && Taken(p.slots) < |p.slots|)
    case Got(id) =>
      && id in p1.conns && p1.conns - {id} == p.conns - {id}
      && p1.conns[id] == Info(kind, now, (if id in p.conns then p.conns[id].uses else 0) + 1)
      && (id in p.conns ==> p.conns[id].kind == kind)
      && (id !in p.conns ==> id == p.nextId)
      && (id !in p.conns && kind == FileIo ==> p.free == [] && Taken(p.slots) < |p.slots|)
      && (kind == OneTime ==> id !in p.conns)
  }

  /** GetAndUse hands out one more use of the connection it answers and leaves the uses of all others;
      refused, it changes nothing but the number generator. A connection is made, or its making refused,
      only where none waits and none can be shared; a one-time connection is always a new one. */
  lemma AcquireKeeps(p: Pool, kind: Kind, now: int, status: int)
    requires Inv(p)
    ensures var (p1, a) := Acquire(p, kind, now, status);
      && Inv(p1) && |p1.slots| == |p.slots|
      && Acquired(p, p1, kind, now, a) && (a.Refused? ==> a.status == status < 0)
  {
    hide FilesFine, OthersFine, Taken;
    AcquireInv(p, kind, now, status);
    AcquireCounts(p, kind, now, status);
  }

  lemma AcquireInv(p: Pool, kind: Kind, now: int, status: int)
    requires Inv(p)
    ensures Inv(Acquire(p, kind, now, status).0)
  {
    hide Distinct, NoRepeats, Taken, AtHome, Use, Connect;
    RefusedInv(p);
    match kind
    case ShortOp =>
      if p.busyShort.Some? { UseInv(p, p.busyShort.value, now); } else { UseNewShort(p, now); }
    case OneTime => ConnectOnceInv(p, now);
    case FileIo =>
      var i := FirstEmpty(p.slots);
      if i == |p.slots| {
        UseInv(p, p.slots[Least(Loads(p))].value, now);
      } else if p.free != [] {
        ReuseInv(p, i, now);
      } else {
        ConnectFileInv(p, i, now);
      }
  }

  lemma RefusedInv(p: Pool)
    requires Inv(p)
    ensures Inv(p.(nextId := p.nextId + 1))
  {
    hide Distinct, NoRepeats, Taken;
  }

  lemma AcquireCounts(p: Pool, kind: Kind, now: int, status: int)
    requires Inv(p)
    ensures var (p1, a) := Acquire(p, kind, now, status);
      && |p1.slots| == |p.slots|
      && Acquired(p, p1, kind, now, a) && (a.Refused? ==> a.status == status < 0)
  {
    hide Distinct, NoRepeats, AtHome, Taken;
    var i := FirstEmpty(p.slots);
    if i < |p.slots| { FullOrNot(p.slots, i); }
    assert p.nextId !in p.conns;
    if p.busyShort.None? && p.idleShort.None? { NoShort(p); }
  }

  lemma NoShort(p: Pool)
    requires Inv(p) && p.busyShort.None? && p.idleShort.None?
    ensures forall id :: id in p.conns ==> p.conns[id].kind != ShortOp
  {
    hide FilesFine, OthersFine;
    forall id | id in p.conns ensures p.conns[id].kind != ShortOp { assert AtHome(p, id); }
  }

  /** The connection given back last is the next one handed out for its kind of use, unless it is closed. */
  lemma LastBackFirstOut(p: Pool, id: nat, now: int, later: int, status: int)
    requires Inv(p) && id in p.conns && p.conns[id].uses == 1
    ensures var p1 := Release(p, id, now); var kind := p.conns[id].kind;
      && Inv(p1)
      && (kind != OneTime ==> Acquire(p1, kind, later, status).1 == Got(id))
  {
    hide Distinct, NoRepeats, AtHome;
    ReleaseKeeps(p, id, now);
    if p.conns[id].kind == FileIo {
      var i := VacateEmpties(p.slots, id);
      assert FirstEmpty(Release(p, id, now).slots) <= i;
    }
  }

  lemma {:induction false} VacateEmpties(slots: seq<Option<nat>>, id: nat) returns (i: nat)
    requires Some(id) in slots
    ensures i < |slots| && Vacate(slots, id)[i].None?
  {
    if slots[0] == Some(id) {
      i := 0;
    } else {
      assert Some(id) in slots[1..];
      var j := VacateEmpties(slots[1..], id);
      i := j + 1;
    }
  }

  /** Reaping leaves the waiting connections in their order. */
  lemma {:induction false} FreshOrder(p: Pool, now: int, timeout: int, ids: seq<nat>, i: nat, j: nat)
      returns (a: nat, b: nat)
    requires i < j < |ids| && !Expired(p, now, timeout, ids[i]) && !Expired(p, now, timeout, ids[j])
    ensures var r := Fresh(p, now, timeout, ids); a < b < |r| && r[a] == ids[i] && r[b] == ids[j]
  {
    hide Expired;
    var rest, shift := ids[1..], if Expired(p, now, timeout, ids[0]) then 0 else 1;
    if i == 0 {
      a := 0;
      b := FreshPlace(p, now, timeout, rest, j - 1);
      b := b + 1;
    } else {
      a, b := FreshOrder(p, now, timeout, rest, i - 1, j - 1);
      a, b := a + shift, b + shift;
    }
  }

  lemma {:induction false} FreshPlace(p: Pool, now: int, timeout: int, ids: seq<nat>, j: nat) returns (b: nat)
    requires j < |ids| && !Expired(p, now, timeout, ids[j])
    ensures var r := Fresh(p, now, timeout, ids); b < |r| && r[b] == ids[j]
  {
    hide Expired;
    if j == 0 {
      b := 0;
    } else {
      b := FreshPlace(p, now, timeout, ids[1..], j - 1);
      b := b + if Expired(p, now, timeout, ids[0]) then 0 else 1;
    }
  }

  /** Unuse gives one use back. The last use of a short-operation connection finds it in its place and
      the waiting place empty; that of a one-time connection closes it. */
  lemma ReleaseKeeps(p: Pool, id: nat, now: int)
    requires Inv(p) && id in p.conns && p.conns[id].uses > 0
    ensures var p1 := Release(p, id, now);
      && Inv(p1) && |p1.slots| == |p.slots| && p1.nextId == p.nextId
      && p1.conns - {id} == p.conns - {id}
      && (id in p1.conns ==> p1.conns[id] == p.conns[id].(lastUse := now, uses := p.conns[id].uses - 1))
      && (id !in p1.conns <==> p.conns[id].kind == OneTime && p.conns[id].uses == 1)
    ensures p.conns[id].kind == ShortOp ==> p.busyShort == Some(id) && p.idleShort.None?
    ensures p.conns[id].kind == FileIo ==> Some(id) in p.slots
    ensures p.conns[id].kind == OneTime ==> id in p.oneTime
  {
    hide Distinct, NoRepeats, Taken;
    assert AtHome(p, id);
    if p.conns[id].uses == 1 && p.conns[id].kind == FileIo {
      VacateInv(p, id, now);
    }
  }

  lemma VacateInv(p: Pool, id: nat, now: int)
    requires Inv(p) && Busy(p, id, FileIo) && p.conns[id].uses == 1
    ensures Inv(Release(p, id, now))
  {
    hide Taken, Vacate;
    var p1 := Release(p, id, now);
    var i :| 0 <= i < |p.slots| && p.slots[i] == Some(id);
    VacateFirst(p.slots, id, i);
    TakenSet(p.slots, i, None);
    assert forall j :: 0 <= j < |p1.slots| && p1.slots[j].Some? ==> p1.slots[j] == p.slots[j] && p.slots[j] != Some(id);
    assert forall j :: 0 <= j < |p.free| ==> p.free[j] != id;
    assert forall j :: 0 < j < |p1.free| ==> p1.free[j] == p.free[j - 1];
    forall k | k in p1.conns ensures k < p1.nextId && AtHome(p1, k) {
      assert AtHome(p, k);
      if k != id && Some(k) in p.slots {
        var j :| 0 <= j < |p.slots| && p.slots[j] == Some(k);
        assert p1.slots[j] == Some(k);
      }
    }
  }

  lemma {:induction false} FreshFacts(p: Pool, now: int, timeout: int, ids: seq<nat>)
    requires NoRepeats(ids)
    ensures var r := Fresh(p, now, timeout, ids);
      NoRepeats(r) && |r| <= |ids| && forall id :: id in r <==> id in ids && !Expired(p, now, timeout, id)
  {
    hide Expired;
    if ids != [] {
      FreshFacts(p, now, timeout, ids[1..]);
      assert ids == [ids[0]] + ids[1..];
      assert ids[0] !in ids[1..];
    }
  }

  /** The checker closes exactly the waiting connections that timed out, and never one in use. */
  lemma ReapKeeps(p: Pool, now: int, timeout: int)
    requires Inv(p)
    ensures var p1 := Reap(p, now, timeout);
      && Inv(p1) && |p1.slots| == |p.slots|
      && (forall id :: id in p1.conns <==> id in p.conns && (p.conns[id].uses > 0 || !Expired(p, now, timeout, id)))
      && (forall id :: id in p1.conns ==> p1.conns[id] == p.conns[id])
  {
    hide Taken, NoRepeats, Distinct;
    var p1 := Reap(p, now, timeout);
    FreshFacts(p, now, timeout, p.free);
    forall id | id in p.conns
      ensures id in Reaped(p, now, timeout) <==> p.conns[id].uses == 0 && Expired(p, now, timeout, id)
    {
      assert AtHome(p, id);
    }
    forall i | 0 <= i < |p1.free| ensures Idle(p1, p1.free[i], FileIo) {
      assert p1.free[i] in p1.free;
    }
    forall id | id in p1.conns ensures id < p1.nextId && AtHome(p1, id) { assert AtHome(p, id); }
  }

  /** What a request for a file connection comes to. */
  lemma FileCases(p: Pool, now: int, status: int)
    requires Inv(p)
    ensures Loads(p) != [] && NoRepeats(p.free)
    ensures var i := FirstEmpty(p.slots); var r := Acquire(p, FileIo, now, status);
      if i == |p.slots| then
        var id := p.slots[Least(Loads(p))].value;
        id in p.conns && r == (Use(p, id, now), Got(id))
      else if p.free != [] then
        p.free[0] in p.conns
        && r == (Use(p, p.free[0], now).(slots := p.slots[i := Some(p.free[0])], free := p.free[1..]), Got(p.free[0]))
      else if status < 0 then r == (p.(nextId := p.nextId + 1), Refused(status))
      else r == (Connect(p, FileIo, now).(slots := p.slots[i := Some(p.nextId)]), Got(p.nextId))
  {
    hide Taken, OthersFine, AtHome, NoRepeats, Distinct;
  }

  lemma ReleaseCases(p: Pool, id: nat, now: int)
    requires id in p.conns
    ensures var c := p.conns[id].(lastUse := now, uses := p.conns[id].uses - 1);
      var p1 := p.(conns := p.conns[id := c]);
      Release(p, id, now) ==
        if c.uses != 0 then p1
        else match c.kind
          case ShortOp => p1.(busyShort := None, idleShort := Some(id))
          case FileIo => p1.(slots := Vacate(p.slots, id), free := [id] + p.free)
          case OneTime => p1.(oneTime := p1.oneTime - {id}, conns := p1.conns - {id})
  {
    var c := p.conns[id].(lastUse := now, uses := p.conns[id].uses - 1);
    assert p.conns[id := c] - {id} == p.conns - {id};
  }

  // ---------- bounds ----------

  /** In how many places a connection is. */
  ghost function Places(p: Pool, id: nat): nat
  {
    multiset(p.slots)[Some(id)] + multiset(p.free)[id] + (if p.busyShort == Some(id) then 1 else 0)
    + (if p.idleShort == Some(id) then 1 else 0) + (if id in p.oneTime then 1 else 0)
  }

  lemma {:induction false} OnceInSlots(slots: seq<Option<nat>>, id: nat)
    requires Distinct(slots)
    ensures multiset(slots)[Some(id)] == if Some(id) in slots then 1 else 0
  {
    if slots != [] {
      OnceInSlots(slots[1..], id);
      assert slots == [slots[0]] + slots[1..];
    }
  }

  lemma {:induction false} OnceInList(ids: seq<nat>, id: nat)
    requires NoRepeats(ids)
    ensures multiset(ids)[id] == if id in ids then 1 else 0
  {
    if ids != [] {
      OnceInList(ids[1..], id);
      assert ids == [ids[0]] + ids[1..];
    }
  }

  /** Each live connection is in exactly one container, a closed one in none. */
  lemma OnePlace(p: Pool, id: nat)
    requires Inv(p)
    ensures Places(p, id) == if id in p.conns then 1 else 0
  {
    hide Taken, Distinct, NoRepeats;
    OnceInSlots(p.slots, id);
    OnceInList(p.free, id);
    if Some(id) in p.slots {
      var i :| 0 <= i < |p.slots| && p.slots[i] == Some(id);
      assert Busy(p, id, FileIo);
    }
    if id in p.conns { assert AtHome(p, id); }
  }

  ghost function OfKind(p: Pool, kind: Kind): set<nat> { set id | id in p.conns && p.conns[id].kind == kind }

  ghost function SlotIds(slots: seq<Option<nat>>): set<nat> { set s | s in slots && s.Some? :: s.value }

  ghost function ListIds(ids: seq<nat>): set<nat> { set id | id in ids }

  lemma {:induction false} SlotIdsCount(slots: seq<Option<nat>>)
    ensures |SlotIds(slots)| <= Taken(slots)
  {
    if slots != [] {
      SlotIdsCount(slots[1..]);
      assert slots == [slots[0]] + slots[1..];
      var rest := SlotIds(slots[1..]);
      assert SlotIds(slots) == if slots[0].Some? then rest + {slots[0].value} else rest;
    } else {
      assert SlotIds(slots) == {};
    }
  }

  lemma {:induction false} ListIdsCount(ids: seq<nat>)
    ensures |ListIds(ids)| <= |ids|
  {
    if ids != [] {
      ListIdsCount(ids[1..]);
      assert ids == [ids[0]] + ids[1..];
      assert ListIds(ids) == ListIds(ids[1..]) + {ids[0]};
    }
  }

  /** File connections never outnumber the slots, and there is at most one for short operations. */
  lemma Bounded(p: Pool)
    requires Inv(p)
    ensures |OfKind(p, FileIo)| <= |p.slots| && |OfKind(p, ShortOp)| <= 1
  {
    hide Distinct, NoRepeats;
    SlotIdsCount(p.slots);
    ListIdsCount(p.free);
    var files := SlotIds(p.slots) + ListIds(p.free);
    forall id | id in p.conns
      ensures p.conns[id].kind == FileIo ==> id in files
      ensures p.conns[id].kind == ShortOp ==> p.busyShort == Some(id) || p.idleShort == Some(id)
    {
      assert AtHome(p, id);
    }
    Smaller(OfKind(p, FileIo), files);
    var one := if p.busyShort.Some? then {p.busyShort.value} else if p.idleShort.Some? then {p.idleShort.value} else {};
    Smaller(OfKind(p, ShortOp), one);
  }

  lemma {:induction false} Smaller(a: set<nat>, b: set<nat>)
    requires a <= b
    ensures |a| <= |b|
  {
    assert b == a + (b - a);
  }

  // ---------- load ----------

  function Sum(s: seq<int>): int
  {
    if s == [] then 0 else s[0] + Sum(s[1..])
  }

  lemma {:induction false} SumSet(s: seq<int>, i: nat, v: int)
    requires i < |s|
    ensures Sum(s[i := v]) == Sum(s) - s[i] + v
  {
    if i == 0 {
      assert s[i := v][1..] == s[1..];
    } else {
      assert s[i := v][1..] == s[1..][i - 1 := v];
      SumSet(s[1..], i - 1, v);
    }
  }

  lemma {:induction false} SumAtLeast(s: seq<int>, m: int)
    requires forall i :: 0 <= i < |s| ==> m <= s[i]
    ensures m * |s| <= Sum(s)
  {
    if s != [] {
      SumAtLeast(s[1..], m);
      assert m * |s| == m * |s[1..]| + m;
    }
  }

  lemma {:induction false} SumZero(s: seq<int>)
    requires forall i :: 0 <= i < |s| ==> s[i] == 0
    ensures Sum(s) == 0
  {
    if s != [] { SumZero(s[1..]); }
  }

  /** The slot a file transfer is given is the first least loaded one, an empty slot counting as load 0. */
  lemma AcquireSlot(p: Pool, now: int, status: int)
    requires Inv(p)
    ensures var (p1, a) := Acquire(p, FileIo, now, status); var i := Least(Loads(p));
      a.Got? ==>
        && p1.slots == p.slots[i := Some(a.id)]
        && Loads(p)[i] == (if a.id in p.conns then p.conns[a.id].uses else 0)
        && forall k :: 0 <= k < |p.slots| && k != i ==> p.slots[k] != Some(a.id)
  {
    hide Taken, NoRepeats, OthersFine, AtHome, Loads;
    assert forall k :: 0 <= k < |p.slots| && p.slots[k].Some? ==> Busy(p, p.slots[k].value, FileIo);
    var i := FirstEmpty(p.slots);
    if i < |p.slots| {
      assert Loads(p)[i] == 0 && i == Least(Loads(p));
      if p.free != [] { assert Idle(p, p.free[0], FileIo); }
    } else {
      var k := Least(Loads(p));
      assert p.slots == p.slots[k := p.slots[k]];
    }
  }

  lemma OtherSlots(p: Pool, kind: Kind, now: int, status: int)
    requires Inv(p)
    ensures var (p1, a) := Acquire(p, kind, now, status);
      && (a.Refused? || kind != FileIo ==> p1.slots == p.slots)
      && (a.Got? && kind != FileIo ==> Some(a.id) !in p.slots)
  {
    hide Taken, NoRepeats, AtHome, Distinct, Least, FirstEmpty;
    assert forall k :: 0 <= k < |p.slots| && p.slots[k].Some? ==> Busy(p, p.slots[k].value, FileIo);
  }

  lemma OneLoad(p: Pool, p1: Pool, id: nat, i: nat)
    requires p1.conns - {id} == p.conns - {id} && |p1.slots| == |p.slots|
    requires i < |p.slots| ==> p1.slots == p.slots[i := p1.slots[i]]
    requires i >= |p.slots| ==> p1.slots == p.slots
    requires forall k :: 0 <= k < |p.slots| && k != i ==> p.slots[k] != Some(id)
    ensures Loads(p1) == if i < |p.slots| then Loads(p)[i := Load(p1, p1.slots[i])] else Loads(p)
  {
    forall k | 0 <= k < |p.slots| && k != i ensures Load(p1, p1.slots[k]) == Load(p, p.slots[k]) {
      if p.slots[k].Some? {
        var x := p.slots[k].value;
        assert x in p.conns - {id} <==> x in p1.conns - {id};
        if x in p.conns { assert (p.conns - {id})[x] == (p1.conns - {id})[x]; }
      }
    }
  }

  /** A file transfer adds one to the least load; nothing else changes the loads. */
  lemma AcquireLoads(p: Pool, kind: Kind, now: int, status: int)
    requires Inv(p)
    ensures var (p1, a) := Acquire(p, kind, now, status); var i := Least(Loads(p));
      Loads(p1) == if a.Got? && kind == FileIo then Loads(p)[i := Loads(p)[i] + 1] else Loads(p)
  {
    hide Inv, Acquire, Loads;
    var (p1, a) := Acquire(p, kind, now, status);
    AcquireKeeps(p, kind, now, status);
    if kind == FileIo { AcquireSlot(p, now, status); }
    OtherSlots(p, kind, now, status);
    if a.Got? {
      OneLoad(p, p1, a.id, if kind == FileIo then Least(Loads(p)) else |p.slots|);
    } else {
      SameLoads(p, p1);
    }
  }

  lemma SameLoads(p: Pool, p1: Pool)
    requires p1.slots == p.slots && p1.conns == p.conns
    ensures Loads(p1) == Loads(p)
  {
  }

  lemma ReleaseLoads(p: Pool, id: nat, now: int)
    requires Inv(p) && id in p.conns && p.conns[id].uses > 0
    ensures Sum(Loads(Release(p, id, now))) == Sum(Loads(p)) - (if p.conns[id].kind == FileIo then 1 else 0)
  {
    hide Taken, NoRepeats, OthersFine, Vacate;
    var p1 := Release(p, id, now);
    assert AtHome(p, id);
    if p.conns[id].kind == FileIo {
      var i :| 0 <= i < |p.slots| && p.slots[i] == Some(id);
      VacateFirst(p.slots, id, i);
      SumSet(Loads(p), i, Loads(p)[i] - 1);
      assert Loads(p1) == Loads(p)[i := Loads(p)[i] - 1];
    } else {
      assert Loads(p1) == Loads(p);
    }
  }

  lemma ReapLoads(p: Pool, now: int, timeout: int)
    requires Inv(p)
    ensures Loads(Reap(p, now, timeout)) == Loads(p)
  {
    hide Taken, NoRepeats, OthersFine, AtHome;
    ReapKeeps(p, now, timeout);
  }

  // ---------- runs ----------

  datatype Event = Acquiring(kind: Kind, now: int, status: int) | Releasing(id: nat, now: int) | Checking(now: int)

  /** The pool and what its clients hold: the uses not yet given back, and how many are for files. */
  datatype Clients = Clients(pool: Pool, ledger: multiset<nat>, files: int)

  ghost predicate Sound(c: Clients)
  {
    Inv(c.pool) && Balanced(c.pool, c.ledger) && c.files == Sum(Loads(c.pool))
  }

  /** One step; a client gives back only what it holds. */
  ghost function Step(c: Clients, e: Event, timeout: int): (r: Option<Clients>)
    requires Sound(c)
  {
    match e
    case Acquiring(kind, now, status) =>
      var (p1, a) := Acquire(c.pool, kind, now, status);
      if a.Refused? then Some(c.(pool := p1))
      else Some(Clients(p1, c.ledger + multiset{a.id}, c.files + if kind == FileIo then 1 else 0))
    case Releasing(id, now) =>
      if id !in c.ledger || id !in c.pool.conns then None
      else Some(Clients(Release(c.pool, id, now), c.ledger - multiset{id},
                        c.files - if c.pool.conns[id].kind == FileIo then 1 else 0))
    case Checking(now) => Some(c.(pool := Reap(c.pool, now, timeout)))
  }

  lemma StepSound(c: Clients, e: Event, timeout: int)
    requires Sound(c)
    ensures var r := Step(c, e, timeout);
      && (r.None? <==> e.Releasing? && e.id !in c.ledger)
      && (r.Some? ==> Sound(r.value) && |r.value.pool.slots| == |c.pool.slots|)
  {
    hide Inv, Acquire, Release, Reap, Loads, Sum;
    match e
    case Acquiring(kind, now, status) =>
      AcquireKeeps(c.pool, kind, now, status);
      AcquireSum(c.pool, kind, now, status);
      var (p1, a) := Acquire(c.pool, kind, now, status);
      AcquireBalanced(c.pool, kind, now, p1, a, c.ledger);
    case Releasing(id, now) =>
      if id in c.ledger {
        ReleaseKeeps(c.pool, id, now);
        ReleaseLoads(c.pool, id, now);
        ReleaseBalanced(c.pool, id, now, c.ledger);
      }
    case Checking(now) =>
      ReapKeeps(c.pool, now, timeout);
      ReapLoads(c.pool, now, timeout);
  }

  lemma AcquireBalanced(p: Pool, kind: Kind, now: int, p1: Pool, a: Answer, ledger: multiset<nat>)
    requires Balanced(p, ledger) && Acquired(p, p1, kind, now, a)
    ensures Balanced(p1, if a.Got? then ledger + multiset{a.id} else ledger)
  {
    if a.Got? {
      forall k | k != a.id ensures (k in p1.conns <==> k in p.conns) && (k in p1.conns ==> p1.conns[k] == p.conns[k]) {
        assert k in p.conns - {a.id} <==> k in p1.conns - {a.id};
        if k in p.conns { assert (p.conns - {a.id})[k] == (p1.conns - {a.id})[k]; }
      }
    }
  }

  lemma ReleaseBalanced(p: Pool, id: nat, now: int, ledger: multiset<nat>)
    requires Inv(p) && Balanced(p, ledger) && id in ledger
    ensures Balanced(Release(p, id, now), ledger - multiset{id})
  {
    hide Inv, Release;
    ReleaseKeeps(p, id, now);
    var p1 := Release(p, id, now);
    forall k | k != id ensures (k in p1.conns <==> k in p.conns) && (k in p1.conns ==> p1.conns[k] == p.conns[k]) {
      assert k in p.conns - {id} <==> k in p1.conns - {id};
      if k in p.conns { assert (p.conns - {id})[k] == (p1.conns - {id})[k]; }
    }
  }

  lemma AcquireSum(p: Pool, kind: Kind, now: int, status: int)
    requires Inv(p)
    ensures var (p1, a) := Acquire(p, kind, now, status);
      Sum(Loads(p1)) == Sum(Loads(p)) + if a.Got? && kind == FileIo then 1 else 0
  {
    hide Acquire, Inv;
    AcquireLoads(p, kind, now, status);
    var (p1, a) := Acquire(p, kind, now, status);
    if a.Got? && kind == FileIo {
      SumSet(Loads(p), Least(Loads(p)), Loads(p)[Least(Loads(p))] + 1);
    }
  }

  ghost function Run(c: Clients, events: seq<Event>, timeout: int): (r: Option<Clients>)
    requires Sound(c)
    ensures r.Some? ==> Sound(r.value) && |r.value.pool.slots| == |c.pool.slots|
    decreases |events|
  {
    if events == [] then Some(c)
    else
      StepSound(c, events[0], timeout);
      var c1 := Step(c, events[0], timeout);
      if c1.None? then None else Run(c1.value, events[1..], timeout)
  }

  ghost function Start(max: nat): (c: Clients)
    requires max > 0
    ensures Sound(c)
  {
    EmptyInv(max);
    SumZero(Loads(Empty(max)));
    Clients(Empty(max), multiset{}, 0)
  }

  /** Whatever a run of matched clients did: a connection's count is its uses not yet given back; each
      connection is in one place, the one its kind and count ask for; the bounds hold; and the load
      of the slot next given out, times the number of slots, is at most the file uses outstanding. */
  lemma Reachable(max: nat, events: seq<Event>, timeout: int, id: nat)
    requires max > 0 && Run(Start(max), events, timeout).Some?
    ensures var c := Run(Start(max), events, timeout).value; var p := c.pool;
      && (if id in p.conns then p.conns[id].uses == c.ledger[id] && AtHome(p, id) && Places(p, id) == 1
          else c.ledger[id] == 0 && Places(p, id) == 0)
      && |OfKind(p, FileIo)| <= max && |OfKind(p, ShortOp)| <= 1
      && Loads(p) != [] && Loads(p)[Least(Loads(p))] * max <= c.files
  {
    hide Acquire, Release, Reap, Step, FilesFine, OthersFine, Places, OfKind, Sum, Run, Least;
    var p := Run(Start(max), events, timeout).value.pool;
    OnePlace(p, id);
    Bounded(p);
    assert p.slots != [] by { NotEmpty(p); }
    LeastIsLeast(p);
  }

  lemma NotEmpty(p: Pool)
    requires Inv(p)
    ensures p.slots != []
  {
  }

  lemma LeastIsLeast(p: Pool)
    requires p.slots != []
    ensures Loads(p)[Least(Loads(p))] * |p.slots| <= Sum(Loads(p))
  {
    SumAtLeast(Loads(p), Loads(p)[Least(Loads(p))]);
  }

  predicate Even(loads: seq<int>)
  {
    forall i, j :: 0 <= i < |loads| && 0 <= j < |loads| ==> loads[i] <= loads[j] + 1
  }

  lemma StepEven(c: Clients, e: Event, timeout: int)
    requires Sound(c) && Even(Loads(c.pool)) && !e.Releasing?
    ensures Step(c, e, timeout).Some? && Even(Loads(Step(c, e, timeout).value.pool))
  {
    hide Acquire, Reap, Sum, Inv, Balanced;
    match e
    case Acquiring(kind, now, status) => AcquireLoads(c.pool, kind, now, status);
    case Checking(now) => ReapLoads(c.pool, now, timeout);
  }

  /** As long as nothing is given back, the loads of the slots differ by at most one. */
  lemma {:induction false} RunEven(c: Clients, events: seq<Event>, timeout: int)
    requires Sound(c) && Even(Loads(c.pool)) && forall i :: 0 <= i < |events| ==> !events[i].Releasing?
    ensures var r := Run(c, events, timeout); r.Some? && Even(Loads(r.value.pool))
    decreases |events|
  {
    hide Sound, Step, Even, Loads;
    if events != [] {
      StepSound(c, events[0], timeout);
      StepEven(c, events[0], timeout);
      RunEven(Step(c, events[0], timeout).value, events[1..], timeout);
    }
  }
}
