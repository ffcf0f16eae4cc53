/** Splitting a path into directory and name, and joining them again, into buffers of limited size. */
module Paths {

  datatype Split = Parts(dir: string, file: string) | SplitTooLong

  datatype Joined = Path(path: string) | JoinTooLong | OutOfRange

  /** The last '/' or -1. */
  function LastSlash(s: string): (r: int)
    ensures -1 <= r < |s| && (r >= 0 ==> s[r] == '/')
    ensures forall i :: r < i < |s| ==> s[i] != '/'
  {
    if s == "" then -1 else if s[|s| - 1] == '/' then |s| - 1 else LastSlash(s[..|s| - 1])
  }

  /** A copy into a buffer of `max` characters, one of which ends the string. */
  function Copied(s: string, max: nat): string
  {
    if |s| < max then s else if max == 0 then "" else s[..max - 1]
  }

  /** iFuseLibSplitPath. */
  function SplitPath(src: string, maxDir: nat, maxFile: nat): Split
  {
    var at := LastSlash(src);
    if src == "" then Parts("", "")
    else if at < 0 then Parts("", Copied(src, maxFile))
    else
      var dir := src[..if at > 1 then at else 1];
      var file := src[at + 1..];
      if |dir| >= maxDir || |file| >= maxFile then SplitTooLong else Parts(dir, file)
  }

  /** iFuseLibJoinPath; `OutOfRange` is the exception thrown for an empty argument. */
  function JoinPath(dir: string, file: string, max: nat): Joined
  {
    if file == "" || dir == "" then OutOfRange
    else
      var file2 := if file[0] == '/' then file[1..] else file;
      var dir2 := if dir[|dir| - 1] == '/' then dir[..|dir| - 1] else dir;
      if |dir2| + |file2| >= max then JoinTooLong else Path(Copied(dir2 + "/" + file2, max))
  }

  /** Absolute, and no slash is doubled or last, but for the root. */
  ghost predicate Normal(p: string)
  {
    && p != "" && p[0] == '/'
    && (p == "/" || (p[|p| - 1] != '/' && forall i :: 0 < i < |p| && p[i] == '/' ==> p[i - 1] != '/'))
  }

  ghost predicate ValidName(n: string) { n != "" && '/' !in n }

  /** The path of a name in a directory. */
  function Child(dir: string, name: string): string
  {
    (if dir == "/" then "" else dir) + "/" + name
  }

  lemma LastSlashIs(s: string, at: nat)
    requires at < |s| && s[at] == '/' && '/' !in s[at + 1..]
    ensures LastSlash(s) == at
  {
    assert forall i :: at < i < |s| ==> s[i] == s[at + 1..][i - at - 1];
  }

  lemma ChildNormal(dir: string, name: string)
    requires Normal(dir) && ValidName(name)
    ensures Normal(Child(dir, name)) && Child(dir, name) != "/"
    ensures LastSlash(Child(dir, name)) == |Child(dir, name)| - |name| - 1
  {
    var p := Child(dir, name);
    var at := |p| - |name| - 1;
    assert p[at + 1..] == name;
    assert p[at] == '/';
    LastSlashIs(p, at);
  }

  /** Splitting undoes joining, the root as a parent included. */
  lemma SplitOfJoin(dir: string, name: string, max: nat)
    requires Normal(dir) && ValidName(name) && |Child(dir, name)| < max
    ensures JoinPath(dir, name, max) == Path(Child(dir, name))
    ensures SplitPath(Child(dir, name), max, max) == Parts(dir, name)
  {
    hide Normal;
    ChildNormal(dir, name);
    NormalEnd(dir);
    var p := Child(dir, name);
    if dir == "/" {
      assert p[1..] == name && p[..1] == "/" && dir[..0] == "";
    } else {
      assert p == dir + ("/" + name);
      assert p[..|dir|] == dir && p[|dir| + 1..] == name;
      NotShort(dir);
    }
  }

  /** Into whatever buffers: a path is split at its name, and refused if and only if one part does not fit. */
  lemma SplitExact(dir: string, name: string, maxDir: nat, maxFile: nat)
    requires Normal(dir) && ValidName(name)
    ensures SplitPath(Child(dir, name), maxDir, maxFile)
         == if |dir| < maxDir && |name| < maxFile then Parts(dir, name) else SplitTooLong
  {
    hide Normal;
    ChildNormal(dir, name);
    NormalEnd(dir);
    var p := Child(dir, name);
    if dir == "/" {
      assert p[1..] == name && p[..1] == "/";
    } else {
      assert p == dir + ("/" + name);
      assert p[..|dir|] == dir && p[|dir| + 1..] == name;
      NotShort(dir);
    }
  }

  /** One slash at the end of the directory and one before the name are left out; nothing is joined to
      nothing. */
  lemma JoinSlashes(dir: string, name: string, max: nat)
    requires dir != "" && dir[|dir| - 1] != '/' && name != "" && name[0] != '/'
    ensures JoinPath(dir + "/", name, max) == JoinPath(dir, name, max)
    ensures JoinPath(dir, "/" + name, max) == JoinPath(dir, name, max)
    ensures JoinPath(dir, "", max) == JoinPath("", name, max) == OutOfRange
  {
    assert (dir + "/")[..|dir|] == dir && ("/" + name)[1..] == name;
  }

  lemma NormalEnd(p: string)
    requires Normal(p)
    ensures p != "" && (p[|p| - 1] == '/' <==> p == "/")
  {
  }

  lemma NotShort(p: string)
    requires Normal(p) && p != "/"
    ensures |p| >= 2
  {
  }

  /** Joining undoes splitting. */
  lemma JoinOfSplit(p: string, max: nat)
    requires Normal(p) && p != "/" && |p| < max
    ensures SplitPath(p, max, max).Parts?
    ensures var s := SplitPath(p, max, max);
      Normal(s.dir) && ValidName(s.file) && p == Child(s.dir, s.file) && JoinPath(s.dir, s.file, max) == Path(p)
  {
    var at := LastSlash(p);
    NotShort(p);
    assert 0 <= at < |p| - 1;
    var dir := p[..if at > 1 then at else 1];
    var file := p[at + 1..];
    assert at != 1;
    assert p == p[..at] + "/" + file;
    DirNormal(p, at);
    SplitOfJoin(dir, file, max);
  }

  lemma DirNormal(p: string, at: nat)
    requires Normal(p) && p != "/" && at == LastSlash(p)
    ensures at < |p| - 1 && at != 1
    ensures Normal(p[..if at > 1 then at else 1]) && ValidName(p[at + 1..])
    ensures p == Child(p[..if at > 1 then at else 1], p[at + 1..])
  {
    NotShort(p);
    SlashFound(p);
    hide Normal, LastSlash;
    PrefixNormal(p, at);
    NoSlashAfter(p, at);
    Rejoined(p, at);
  }

  lemma Rejoined(p: string, at: nat)
    requires at < |p| && p[at] == '/' && (at > 1 ==> p[..at] != "/") && at != 1 && p[0] == '/'
    ensures p == Child(p[..if at > 1 then at else 1], p[at + 1..])
  {
    var d, n := p[..if at > 1 then at else 1], p[at + 1..];
    if at == 0 {
      assert d == "/";
      assert p == "/" + n;
    } else {
      assert p == d + "/" + n;
    }
  }

  lemma SlashFound(p: string)
    requires Normal(p) && p != "/"
    ensures 0 <= LastSlash(p) < |p| - 1 && p[0] == '/'
  {
  }

  lemma NoSlashAfter(p: string, at: nat)
    requires at < |p| - 1 && at == LastSlash(p)
    ensures ValidName(p[at + 1..])
  {
    var n := p[at + 1..];
    assert forall i :: 0 <= i < |n| ==> n[i] == p[at + 1 + i];
  }

  lemma PrefixNormal(p: string, at: nat)
    requires Normal(p) && p != "/" && at < |p| - 1 && p[at] == '/'
    ensures at != 1 && Normal(p[..if at > 1 then at else 1]) && (at > 1 ==> p[..at] != "/")
  {
    if at == 0 {
      assert p[..1] == "/";
    } else {
      assert p[at - 1] != '/' && at > 1;
      var d := p[..at];
      assert d[0] == '/' && d[|d| - 1] == p[at - 1];
      forall i | 0 < i < |d| && d[i] == '/' ensures d[i - 1] != '/' { assert p[i] == '/'; }
    }
  }

  lemma SplitOfRoot(max: nat)
    requires max > 1
    ensures SplitPath("/", max, max) == Parts("/", "")
  {
  }

  /** A join that does not fit its buffer is not always refused: exactly one length slips through, and
      then the last character is lost. */
  lemma JoinExact(dir: string, name: string, max: nat)
    requires Normal(dir) && ValidName(name)
    ensures JoinPath(dir, name, max) == Path(Child(dir, name)) <==> |Child(dir, name)| < max
    ensures JoinPath(dir, name, max) == JoinTooLong <==> |Child(dir, name)| > max
    ensures |Child(dir, name)| == max ==>
      JoinPath(dir, name, max) == Path(Child(dir, name)[..max - 1])
  {
    hide Normal;
    NormalEnd(dir);
    var p := Child(dir, name);
    if dir == "/" { assert dir[..0] == ""; }
    assert name[0] != '/' by { assert name[0] in name; }
    if |p| == max { assert p[..max - 1] != p; }
  }

  /** The five characters of this path fill a buffer of five. */
  lemma FullBuffer()
    ensures Normal("/a") && ValidName("bc") && Child("/a", "bc") == "/a/bc"
    ensures JoinPath("/a", "bc", 5) == Path("/a/b")
  {
    assert "/a" + "/" + "bc" == "/a/bc" && "/a/bc"[..4] == "/a/b";
  }
}
