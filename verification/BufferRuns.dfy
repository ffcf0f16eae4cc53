/** Whole runs: any sequence of client calls answers what a plain file system without caches answers. */
module BufferRuns {
  import opened Bytes
  import opened Blocks
  import opened BufferModel

  datatype Call =
    | CreateFile(path: Path)
    | OpenFile(path: Path, readable: bool, writable: bool)
    | ReadAt(fd: nat, off: nat, size: nat)
    | WriteAt(fd: nat, off: nat, data: seq<Byte>)
    | FlushFd(fd: nat)
    | CloseFd(fd: nat)
    | SizeOf(path: Path)

  datatype Reply = Status(code: int) | Bytes(reply: ReadReply)

  /** The reference: every file is an array of bytes, every write is applied at once. */
  datatype Plain = Plain(files: map<Path, seq<Byte>>, open: map<nat, Desc>, nextFd: nat) {
    ghost predicate Valid() { forall f :: f in open ==> open[f].path in files && f < nextFd }
  }

  /** The calls a client may make: through open descriptors, no write past the end of the file or
      past the offset limit, no read the block arithmetic cannot address. */
  predicate Allowed(bs: nat, ps: Plain, c: Call)
    requires bs > 0
  {
    match c
    case ReadAt(f, off, size) =>
      f in ps.open && ps.open[f].path in ps.files && ReadSafe(bs, ps.files[ps.open[f].path], off, size)
    case WriteAt(f, off, data) =>
      f in ps.open && ps.open[f].writable && ps.open[f].path in ps.files
      && off <= |ps.files[ps.open[f].path]| && off + |data| <= Limit(bs)
    case FlushFd(f) => f in ps.open
    case CloseFd(f) => f in ps.open
    case _ => true
  }

  function PlainStep(bs: nat, ps: Plain, c: Call): (Plain, Reply)
    requires bs > 0 && Allowed(bs, ps, c)
  {
    match c
    case CreateFile(p) =>
      if p in ps.files then (ps, Status(-ENOENT)) else (ps.(files := ps.files[p := []]), Status(0))
    case OpenFile(p, _, w) =>
      if p !in ps.files then (ps, Status(-ENOENT))
      else (ps.(open := ps.open[ps.nextFd := Desc(p, w)], nextFd := ps.nextFd + 1), Status(ps.nextFd))
    case ReadAt(f, off, size) => (ps, Bytes(Data(Slice(ps.files[ps.open[f].path], off, size))))
    case WriteAt(f, off, data) =>
      var p := ps.open[f].path;
      (ps.(files := ps.files[p := Splice(ps.files[p], off, data)]), Status(|data|))
    case FlushFd(f) => (ps, Status(0))
    case CloseFd(f) => (ps.(open := ps.open - {f}), Status(0))
    case SizeOf(p) => (ps, Status(if p in ps.files then |ps.files[p]| else -ENOENT))
  }

  function Abs(s: State): Plain
  {
    Plain(map p | p in s.files :: View(s, p), s.open, s.nextFd)
  }

  /** The call on the cached file system. */
  ghost function Step(s: State, c: Call): (State, Reply)
    requires Shaped(s) && Allowed(s.bs, Abs(s), c)
  {
    match c
    case CreateFile(p) => var (s1, st) := Create(s, p); (s1, Status(st))
    case OpenFile(p, _, w) => var (s1, st) := Open(s, p, w); (s1, Status(st))
    case ReadAt(f, off, size) => var (s1, r) := Read(s, f, off, size, Zeros(s.bs)); (s1, Bytes(r))
    case WriteAt(f, off, data) => var (s1, n) := Write(s, f, off, data); (s1, Status(n))
    case FlushFd(f) => var (s1, st) := Flush(s, f); (s1, Status(st))
    case CloseFd(f) => var (s1, st) := Close(s, f); (s1, Status(st))
    case SizeOf(p) => (s, Status(GetAttr(s, p)))
  }

  lemma SameAbs(s: State, s1: State)
    requires s1.files.Keys == s.files.Keys && s1.nextFd == s.nextFd
    requires forall q {:trigger View(s1, q)} :: View(s1, q) == View(s, q)
    ensures Abs(s1) == Abs(s).(open := s1.open)
  {
    hide View;
  }

  /** One call: same answer, and the cached state still stands for the plain one. */
  lemma StepRefines(s: State, c: Call)
    requires Coherent(s) && s.up && Allowed(s.bs, Abs(s), c)
    ensures var (s1, r) := Step(s, c);
      Coherent(s1) && s1.up && s1.bs == s.bs && (Abs(s1), r) == PlainStep(s.bs, Abs(s), c)
  {
    hide Coherent, View, Write, Read, FlushDelta, ReadSafe;
    CoherentIsShaped(s);
    match c
    case CreateFile(p) =>
      if p !in s.files {
        CreateView(s, p);
        assert Abs(Create(s, p).0).files == Abs(s).files[p := []];
      }
    case OpenFile(p, _, w) =>
      if p in s.files {
        OpenView(s, p, w);
        assert Abs(Open(s, p, w).0).files == Abs(s).files;
      }
    case ReadAt(f, off, size) =>
      ReadExact(s, f, off, size, Zeros(s.bs));
      SameFiles(s, Read(s, f, off, size, Zeros(s.bs)).0);
    case WriteAt(f, off, data) => WriteRefines(s, f, off, data);
    case FlushFd(f) =>
      FlushView(s, f);
      SameAbs(s, Flush(s, f).0);
    case CloseFd(f) =>
      CloseView(s, f);
      SameAbs(s, Close(s, f).0);
    case SizeOf(p) =>
      if p in s.files { GetAttrView(s, p); }
  }

  lemma SameFiles(s: State, s1: State)
    requires s1 == s.(cache := s1.cache)
    ensures Abs(s1) == Abs(s)
  {
  }

  lemma WriteRefines(s: State, f: nat, off: nat, data: seq<Byte>)
    requires Coherent(s) && Shaped(s) && s.up && Allowed(s.bs, Abs(s), WriteAt(f, off, data))
    ensures var (s1, n) := Write(s, f, off, data);
      Coherent(s1) && s1.up && s1.bs == s.bs
      && (Abs(s1), Status(n)) == PlainStep(s.bs, Abs(s), WriteAt(f, off, data))
  {
    hide Coherent, View, Write;
    var p := s.open[f].path;
    WriteView(s, f, off, data);
    var s1 := Write(s, f, off, data).0;
    assert Abs(s1).files == Abs(s).files[p := Splice(View(s, p), off, data)];
  }

  ghost predicate AllowedRun(bs: nat, ps: Plain, calls: seq<Call>)
    requires bs > 0
    decreases |calls|
  {
    calls == [] || (Allowed(bs, ps, calls[0]) && AllowedRun(bs, PlainStep(bs, ps, calls[0]).0, calls[1..]))
  }

  function PlainRun(bs: nat, ps: Plain, calls: seq<Call>): (Plain, seq<Reply>)
    requires bs > 0 && AllowedRun(bs, ps, calls)
    decreases |calls|
  {
    if calls == [] then (ps, [])
    else
      var (ps1, r) := PlainStep(bs, ps, calls[0]);
      var (ps2, rs) := PlainRun(bs, ps1, calls[1..]);
      (ps2, [r] + rs)
  }

  ghost function Run(s: State, calls: seq<Call>): (State, seq<Reply>)
    requires Coherent(s) && s.up && AllowedRun(s.bs, Abs(s), calls)
    decreases |calls|
  {
    if calls == [] then (s, [])
    else
      StepRefines(s, calls[0]);
      var (s1, r) := Step(s, calls[0]);
      var (s2, rs) := Run(s1, calls[1..]);
      (s2, [r] + rs)
  }

  /** Any run of allowed calls over any number of descriptors and paths is answered exactly as the
      plain file system answers it, and ends in a coherent state that stands for the plain one. */
  lemma {:induction false} RunRefines(s: State, calls: seq<Call>)
    requires Coherent(s) && s.up && AllowedRun(s.bs, Abs(s), calls)
    ensures var (s1, rs) := Run(s, calls);
      Coherent(s1) && (Abs(s1), rs) == PlainRun(s.bs, Abs(s), calls)
    decreases |calls|
  {
    hide Coherent, Step, PlainStep, Abs, Allowed;
    if calls != [] {
      CoherentIsShaped(s);
      StepRefines(s, calls[0]);
      RunRefines(Step(s, calls[0]).0, calls[1..]);
    }
  }

  /** A fresh client over any server content. */
  lemma FreshIsCoherent(bs: nat, files: map<Path, seq<Byte>>)
    requires bs > 0
    ensures var s := State(bs, true, files, map[], 0, map[], map[]);
      Coherent(s) && Abs(s) == Plain(files, map[], 0)
  {
  }
}
