/** The metadata cache as it is kept: maps of records whose entry lists are changed in place. */
module Metadata {
  import opened Options
  import opened Paths
  import opened MetaModel
  import opened DirBuffer

  class StatCache {
    const iRodsPath: string
    const isDir: bool
    const timestamp: int

    constructor (iRodsPath: string, isDir: bool, now: int)
      ensures this.iRodsPath == iRodsPath && this.isDir == isDir && timestamp == now
    {
      this.iRodsPath, this.isDir, timestamp := iRodsPath, isDir, now;
    }
  }

  class DirCache {
    const iRodsPath: string
    const timestamp: int
    var entries: seq<string>

    constructor (iRodsPath: string, now: int)
      ensures this.iRodsPath == iRodsPath && timestamp == now && entries == []
    {
      this.iRodsPath, timestamp, entries := iRodsPath, now, [];
    }
  }

  class MetadataCache {
    var statMap: map<string, StatCache>
    var dirMap: map<string, DirCache>
    var lastStatCheck: int
    var lastDirCheck: int
    const timeoutSec: int
    const maxNameLen: nat

    /** A record is found under its own path only. */
    ghost predicate Valid()
      reads this
    {
      forall d :: d in dirMap ==> dirMap[d].iRodsPath == d
    }

    ghost function Stats(): map<string, Stat>
      reads this`statMap
    {
      map p | p in statMap :: Stat(statMap[p].isDir, statMap[p].timestamp)
    }

    ghost function Dirs(): map<string, Listing>
      reads this`dirMap, dirMap.Values
    {
      map d | d in dirMap :: Listing(dirMap[d].entries, dirMap[d].timestamp)
    }

    ghost function Abs(): Meta
      reads this, dirMap.Values
    {
      Meta(Stats(), Dirs(), lastStatCheck, lastDirCheck, timeoutSec, maxNameLen)
    }

    constructor (timeoutSec: int, maxNameLen: nat)
      ensures Valid() && Abs() == Meta(map[], map[], 0, 0, timeoutSec, maxNameLen)
    {
      statMap, dirMap, lastStatCheck, lastDirCheck := map[], map[], 0, 0;
      this.timeoutSec, this.maxNameLen := timeoutSec, maxNameLen;
    }

    /** _cacheStat. */
    method CacheStat(p: string, isDir: bool, now: int)
      requires Valid()
      modifies this`statMap
      ensures Valid() && Abs() == PutStat(old(Abs()), p, isDir, now)
    {
      var c := new StatCache(p, isDir, now);
      statMap := statMap[p := c];
      assert Stats() == old(Stats())[p := Stat(isDir, now)];
    }

    /** iFuseMetadataCachePutStat2. */
    method PutStat2(d: string, name: string, isDir: bool, now: int)
      requires Valid()
      modifies this`statMap
      ensures Valid() && Abs() == MetaModel.PutStat2(old(Abs()), d, name, isDir, now)
    {
      match JoinPath(d, name, maxNameLen)
      case Path(p) => CacheStat(p, isDir, now);
      case _ =>
    }

    /** _cacheDirEntry. */
    method CacheDirEntry(d: string, name: string, now: int)
      requires Valid()
      modifies this`dirMap, dirMap.Values
      ensures Valid() && fresh(dirMap.Values - old(dirMap.Values))
      ensures Abs() == AddEntry(old(Abs()), d, name, now)
    {
      hide AddEntry;
      AddEntryCases(Abs(), d, name, now);
      if d !in dirMap {
        NewDir(d, now);
      }
      Append(d, name);
    }

    static lemma AddEntryCases(m: Meta, d: string, name: string, now: int)
      ensures d in m.dirs ==> AddEntry(m, d, name, 0) == AddEntry(m, d, name, now)
      ensures d !in m.dirs ==>
        AddEntry(m.(dirs := m.dirs[d := Listing([], now)]), d, name, 0) == AddEntry(m, d, name, now)
    {
    }

    method NewDir(d: string, now: int)
      requires Valid() && d !in dirMap
      modifies this`dirMap
      ensures Valid() && fresh(dirMap.Values - old(dirMap.Values)) && d in dirMap
      ensures var m := old(Abs()); Abs() == m.(dirs := m.dirs[d := Listing([], now)])
    {
      var c := new DirCache(d, now);
      dirMap := dirMap[d := c];
      assert Dirs() == old(Dirs())[d := Listing([], now)];
    }

    method Append(d: string, name: string)
      requires Valid() && d in dirMap
      modifies dirMap[d]
      ensures Valid() && Abs() == AddEntry(old(Abs()), d, name, 0)
    {
      var c := dirMap[d];
      c.entries := c.entries + [name];
      assert Dirs() == old(Dirs())[d := Listing(c.entries, c.timestamp)];
    }

    /** _checkFreshessOfDirCache. */
    method IsFresh(d: string, now: int) returns (ok: bool)
      ensures ok == FreshDir(Abs(), d, now)
    {
      ok := d in dirMap && now - dirMap[d].timestamp <= timeoutSec;
    }

    /** iFuseMetadataCacheAddDirEntryIfFresh2. */
    method AddDirEntryIfFresh2(p: string, now: int)
      requires Valid()
      modifies this`dirMap, dirMap.Values
      ensures Valid() && fresh(dirMap.Values - old(dirMap.Values))
      ensures Abs() == AddIfFresh(old(Abs()), p, now)
    {
      match SplitPath(p, maxNameLen, maxNameLen)
      case Parts(d, name) =>
        var ok := IsFresh(d, now);
        if ok { CacheDirEntry(d, name, now); }
      case SplitTooLong =>
    }

    /** _removeStatCache. */
    method DropStat(p: string)
      requires Valid()
      modifies this`statMap
      ensures Valid() && Abs() == RemoveStat(old(Abs()), p)
    {
      statMap := statMap - {p};
      assert Stats() == old(Stats()) - {p};
    }

    /** _removeDirCache. */
    method DropDirCache(d: string)
      requires Valid()
      modifies this`dirMap
      ensures Valid() && Abs() == RemoveDir(old(Abs()), d) && dirMap.Values <= old(dirMap.Values)
    {
      dirMap := dirMap - {d};
      assert Dirs() == old(Dirs()) - {d};
    }

    /** _removeDirCacheEntry: the first entry of that name is erased. */
    method RemoveDirCacheEntry(d: string, name: string)
      requires Valid()
      modifies dirMap.Values
      ensures Valid()
      ensures var m := old(Abs());
        Abs() ==
          if d in m.dirs then m.(dirs := m.dirs[d := m.dirs[d].(entries := RemoveFirst(m.dirs[d].entries, name))])
          else m
    {
      if d in dirMap {
        var c := dirMap[d];
        var i := 0;
        while i < |c.entries| && c.entries[i] != name
          invariant 0 <= i <= |c.entries| && forall j :: 0 <= j < i ==> c.entries[j] != name
        {
          i := i + 1;
        }
        RemoveFirstIs(c.entries, name, i);
        if i < |c.entries| {
          c.entries := c.entries[..i] + c.entries[i + 1..];
        }
        assert Dirs() == old(Dirs())[d := Listing(c.entries, c.timestamp)];
      }
    }

    static lemma {:induction false} RemoveFirstIs(entries: seq<string>, name: string, i: nat)
      requires i <= |entries| && (i < |entries| ==> entries[i] == name) && forall j :: 0 <= j < i ==> entries[j] != name
      ensures RemoveFirst(entries, name) == if i < |entries| then entries[..i] + entries[i + 1..] else entries
    {
      if i > 0 {
        var rest := entries[1..];
        assert forall j :: 0 <= j < |rest| ==> rest[j] == entries[j + 1];
        RemoveFirstIs(rest, name, i - 1);
        if i < |entries| {
          assert rest[..i - 1] == entries[1..i] && rest[i..] == entries[i + 1..];
          assert [entries[0]] + entries[1..i] == entries[..i];
        }
      }
    }

    /** iFuseMetadataCacheRemoveDirEntry2. */
    method RemoveDirEntry2(p: string)
      requires Valid()
      modifies dirMap.Values
      ensures Valid() && Abs() == RemoveEntry(old(Abs()), p)
    {
      match SplitPath(p, maxNameLen, maxNameLen)
      case Parts(d, name) => RemoveDirCacheEntry(d, name);
      case SplitTooLong =>
    }

    /** iFuseMetadataCacheCheckExistanceOfDirEntry. */
    method CheckExistence(p: string) returns (e: Existence)
      ensures e == Exists(Abs(), p)
    {
      match SplitPath(p, maxNameLen, maxNameLen)
      case SplitTooLong => return NoAnswer;
      case Parts(d, name) =>
        if d !in dirMap { return NoAnswer; }
        e := Missing;
        var entries := dirMap[d].entries;
        for i := 0 to |entries|
          invariant e == Missing && name !in entries[..i]
        {
          if entries[i] == name { return Present; }
        }
        assert entries[..|entries|] == entries;
    }

    /** The collected keys are erased one by one. */
    static method Erase<T>(was: map<string, T>, removeList: seq<string>) returns (m: map<string, T>)
      ensures m == was - set d | d in removeList
    {
      m := was;
      for i := 0 to |removeList|
        invariant m == was - set d | d in removeList[..i]
      {
        m := m - {removeList[i]};
        assert removeList[..i + 1] == removeList[..i] + [removeList[i]];
      }
      assert removeList[..|removeList|] == removeList;
    }

    method OldDirs(now: int) returns (removeList: seq<string>)
      ensures forall d :: d in removeList <==> d in dirMap && now - dirMap[d].timestamp > timeoutSec
    {
      removeList := [];
      var keys := dirMap.Keys;
      while keys != {}
        invariant keys <= dirMap.Keys
        invariant forall d :: d in removeList <==> d in dirMap && d !in keys && now - dirMap[d].timestamp > timeoutSec
        decreases keys
      {
        var d :| d in keys;
        keys := keys - {d};
        if now - dirMap[d].timestamp > timeoutSec {
          removeList := removeList + [d];
        }
      }
    }

    method OldStats(now: int) returns (removeList: seq<string>)
      ensures forall p :: p in removeList <==> p in statMap && now - statMap[p].timestamp > timeoutSec
    {
      removeList := [];
      var keys := statMap.Keys;
      while keys != {}
        invariant keys <= statMap.Keys
        invariant forall p :: p in removeList <==> p in statMap && p !in keys && now - statMap[p].timestamp > timeoutSec
        decreases keys
      {
        var p :| p in keys;
        keys := keys - {p};
        if now - statMap[p].timestamp > timeoutSec {
          removeList := removeList + [p];
        }
      }
    }

    /** iFuseMetadataCacheClearExpiredDir: old listings are collected and then erased. */
    method ClearExpiredDir(now: int, force: bool)
      requires Valid()
      modifies this`dirMap, this`lastDirCheck
      ensures Valid() && Abs() == ClearDir(old(Abs()), now, force) && dirMap.Values <= old(dirMap.Values)
    {
      if !force {
        if now - lastDirCheck <= timeoutSec / 2 { return; }
      }
      EraseOldDirs(now);
      lastDirCheck := now;
    }

    method EraseOldDirs(now: int)
      requires Valid()
      modifies this`dirMap
      ensures Valid() && dirMap.Values <= old(dirMap.Values)
      ensures var m := old(Abs()); Abs() == m.(dirs := map d | d in m.dirs && FreshDir(m, d, now) :: m.dirs[d])
    {
      var removeList := OldDirs(now);
      dirMap := Erase(dirMap, removeList);
      assert Dirs() == map d | d in old(Dirs()) && FreshDir(old(Abs()), d, now) :: old(Dirs())[d];
    }

    /** iFuseMetadataCacheClearExpiredStat. */
    method ClearExpiredStat(now: int, force: bool)
      requires Valid()
      modifies this`statMap, this`lastStatCheck
      ensures Valid() && Abs() == ClearStat(old(Abs()), now, force)
    {
      if !force {
        if now - lastStatCheck <= timeoutSec / 2 { return; }
      }
      EraseOldStats(now);
      lastStatCheck := now;
    }

    method EraseOldStats(now: int)
      requires Valid()
      modifies this`statMap
      ensures Valid()
      ensures var m := old(Abs()); Abs() == m.(stats := map p | p in m.stats && FreshStat(m, p, now) :: m.stats[p])
    {
      var removeList := OldStats(now);
      statMap := Erase(statMap, removeList);
      assert Stats() == map p | p in old(Stats()) && FreshStat(old(Abs()), p, now) :: old(Stats())[p];
    }

    /** iFuseMetadataCacheClear. */
    method Clear()
      modifies this`statMap, this`dirMap
      ensures Valid() && Abs() == old(Abs()).(stats := map[], dirs := map[])
    {
      statMap, dirMap := map[], map[];
    }

    /** iFuseMetadataCacheGetDirEntry: a fresh listing in one buffer. */
    method GetDirEntry(d: string, now: int) returns (entries: array?<char>)
      ensures entries != null <==> FreshDir(Abs(), d, now)
      ensures entries != null ==> fresh(entries) && entries[..] == Packed(Abs().dirs[d].entries)
    {
      entries := null;
      if d in dirMap {
        if now - dirMap[d].timestamp <= timeoutSec {
          entries := Pack(dirMap[d].entries);
        }
      }
    }

    // ---------- what the file system operations do with it ----------

    /** iFuseFsCreate, after the server created the file. */
    method Created(p: string, now: int)
      requires Valid()
      modifies this`statMap, this`dirMap, dirMap.Values
      ensures Valid() && Abs() == AddIfFresh(RemoveStat(old(Abs()), p), p, now)
    {
      hide SplitPath;
      DropStat(p);
      AddDirEntryIfFresh2(p, now);
    }

    /** iFuseFsUnlink. */
    method Unlinked(p: string)
      requires Valid()
      modifies this`statMap, dirMap.Values
      ensures Valid() && Abs() == RemoveEntry(RemoveStat(old(Abs()), p), p)
    {
      hide SplitPath;
      DropStat(p);
      RemoveDirEntry2(p);
    }

    /** iFuseFsMakeDir. */
    method MadeDir(p: string, now: int)
      requires Valid()
      modifies this`statMap, this`dirMap, dirMap.Values
      ensures Valid() && Abs() == AddIfFresh(RemoveDir(RemoveStat(old(Abs()), p), p), p, now)
    {
      hide SplitPath;
      DropStat(p);
      DropDirCache(p);
      AddDirEntryIfFresh2(p, now);
    }

    /** iFuseFsRemoveDir. */
    method RemovedDir(p: string)
      requires Valid()
      modifies this`statMap, this`dirMap, dirMap.Values
      ensures Valid() && Abs() == RemoveEntry(RemoveDir(RemoveStat(old(Abs()), p), p), p)
    {
      hide SplitPath;
      DropStat(p);
      DropDirCache(p);
      RemoveDirEntry2(p);
    }

    /** iFuseFsRename. */
    method Renamed(from: string, to: string, now: int)
      requires Valid()
      modifies this`statMap, this`dirMap, dirMap.Values
      ensures Valid() && Abs() == RenameMeta(old(Abs()), from, to, now)
    {
      hide SplitPath, RemoveEntry, AddIfFresh;
      DropStat(from);
      DropStat(to);
      DropDirCache(from);
      DropDirCache(to);
      RemoveDirEntry2(from);
      AddDirEntryIfFresh2(to, now);
    }

    /** iFuseFsReadDir on a handle the server opened: the names it answers are cached one by one. */
    method ReadDir(ns: Names, d: string, names: seq<string>, now: int)
      requires Valid()
      modifies this`statMap, this`dirMap, dirMap.Values
      ensures Valid() && Abs() == Fill(RemoveDir(old(Abs()), d), ns, d, names, now)
    {
      DropDirCache(d);
      FillFrom(ns, d, names, now);
    }

    method FillFrom(ns: Names, d: string, names: seq<string>, now: int)
      requires Valid()
      modifies this`statMap, this`dirMap, dirMap.Values
      ensures Valid() && Abs() == Fill(old(Abs()), ns, d, names, now)
    {
      hide JoinPath, MetaModel.PutStat2, AddEntry;
      assert names[0..] == names;
      for i := 0 to |names|
        invariant Valid() && fresh(dirMap.Values - old(dirMap.Values))
        invariant Fill(Abs(), ns, d, names[i..], now) == Fill(old(Abs()), ns, d, names, now)
      {
        assert names[i..][0] == names[i] && names[i..][1..] == names[i + 1..];
        PutStat2(d, names[i], Child(d, names[i]) in ns.dirs, now);
        CacheDirEntry(d, names[i], now);
      }
    }

    /** iFuseFsOpenDir and then iFuseFsReadDir where the listing is cached: the names handed to the caller
        are those of the listing, but for empty ones. */
    method ListCached(d: string, now: int) returns (names: Option<seq<string>>)
      requires Valid() && forall e :: e in dirMap ==> CStrings(dirMap[e].entries)
      modifies this`dirMap, this`lastDirCheck
      ensures Valid() && Abs() == ClearDir(old(Abs()), now, false)
      ensures names.Some? <==> FreshDir(Abs(), d, now)
      ensures names.Some? ==> names.value == NonEmpty(Abs().dirs[d].entries)
    {
      ClearExpiredDir(now, false);
      var entries := GetDirEntry(d, now);
      if entries == null { return None; }
      var cached := CopyBuffer(entries);
      PackedEnds(dirMap[d].entries);
      RoundTrip(dirMap[d].entries);
      var r := Unpack(cached);
      return Some(r);
    }

    /** iFuseFsGetAttr before it asks the server. */
    method Consult(p: string, now: int) returns (a: Option<Answer>)
      requires Valid()
      modifies this
      ensures Valid() && (Abs(), a) == Consulted(old(Abs()), p, now)
    {
      hide SplitPath, Exists, ClearDir;
      ClearExpiredStat(now, false);
      if p in statMap {
        if now - statMap[p].timestamp <= timeoutSec {
          return Some(Found(statMap[p].isDir));
        }
      }
      ClearExpiredDir(now, false);
      var e := CheckExistence(p);
      return if e == Missing then Some(Absent) else None;
    }
  }
}
