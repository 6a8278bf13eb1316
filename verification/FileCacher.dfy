/** The content-addressed cache: processes that store and fetch files step by step,
    against one cache directory and one backend, while anyone may remove cache entries
    and any process may crash between two steps. */
module FileCacher {
  import opened Basics

  type Bytes = seq<bv8>
  type Digest = string
  type Inode = nat
  type Pid = nat

  const TOMBSTONE: Digest := "x"
  const CHUNK_SIZE: nat := 16384

  datatype Kind = FileSystem | Database | Null

  datatype Error = Tombstone | NotFound | Vanished

  /** A file being copied into another: `pos` bytes have been read, `pending` of them are
      still to be written and `buffer` of them sit in the writer's buffer. */
  datatype Copy = Copy(pos: nat, into: Inode, buffer: Bytes, pending: Bytes)

  /** Where a process stands in an operation. */
  datatype Process =
    | Idle
    // put_file_from_fobj
    | PutReading(source: Bytes, fed: Bytes, copy: Copy)
    | PutHashed(source: Bytes, digest: Digest, tmp: Inode)
    | PutCopying(source: Bytes, digest: Digest, tmp: Inode, copy: Copy)
    | PutClosed(source: Bytes, digest: Digest, tmp: Inode, out: Inode)
    | PutAbsent(source: Bytes, digest: Digest, tmp: Inode, out: Inode)
    | PutStored(source: Bytes, digest: Digest, tmp: Inode)
    | PutDone(source: Bytes, digest: Digest)
    // _load
    | GetStarted(digest: Digest, cacheOnly: bool)
    | GetMissed(digest: Digest, cacheOnly: bool)
    | GetFound(digest: Digest, cacheOnly: bool, row: Inode)
    | GetCopying(digest: Digest, cacheOnly: bool, from: Inode, copy: Copy)
    | GetClosed(digest: Digest, cacheOnly: bool, tmp: Inode)
    | GetOpened(digest: Digest, tmp: Inode)
    | Reading(digest: Digest, fd: Inode, got: Bytes)
    | Got(digest: Digest, content: Bytes)
    | Cached(digest: Digest)
    // delete
    | Dropped(digest: Digest)
    | Unlinked(digest: Digest)
    | Deleted(digest: Digest)
    | Failed(digest: Digest, error: Error)
    | Crashed

  /** `gone` holds the large objects that were unlinked while their row is still there. */
  datatype System = System(
    kind: Kind,
    processes: map<Pid, Process>,
    inodes: map<Inode, Bytes>,
    next: Inode,
    cache: map<Digest, Inode>,
    backend: map<Digest, Inode>,
    gone: set<Inode>)

  datatype Move =
    | StartPut(source: Bytes)
    | StartGet(digest: Digest, cacheOnly: bool)
    | StartDelete(digest: Digest)
    | Drop(digest: Digest)
    | Advance(n: nat)
    | Spill(n: nat)
    | Crash

  datatype Event = Event(pid: Pid, move: Move)

  function At(s: System, p: Pid): Process {
    if p in s.processes then s.processes[p] else Idle
  }

  function Put(s: System, p: Pid, q: Process): System {
    s.(processes := s.processes[p := q])
  }

  /** How much a read or write moves, when `n` is what the other side can do now. */
  function Amount(n: nat, limit: nat): (k: nat)
    requires limit > 0
    ensures 1 <= k <= limit
  {
    if n == 0 then 1 else if n > limit then limit else n
  }

  predicate Copying(q: Process) {
    q.PutReading? || q.PutCopying? || q.GetCopying?
  }

  function WithCopy(q: Process, c: Copy): Process {
    match q
    case PutReading(source, fed, _) => PutReading(source, fed, c)
    case PutCopying(source, d, tmp, _) => PutCopying(source, d, tmp, c)
    case GetCopying(d, only, from, _) => GetCopying(d, only, from, c)
    case _ => q
  }

  /** A read of the copying loop; there is something left. */
  function Fill(c: Copy, from: Bytes, n: nat): Copy
    requires c.pos < |from|
  {
    var k := Amount(n, Min(CHUNK_SIZE, |from| - c.pos));
    c.(pos := c.pos + k, pending := from[c.pos..c.pos + k])
  }

  /** A write of the copying loop. */
  function Write(c: Copy, n: nat): Copy
    requires c.pending != []
  {
    var k := Amount(n, |c.pending|);
    c.(buffer := c.buffer + c.pending[..k], pending := c.pending[k..])
  }

  /** The writer's buffer goes to the file, whole or in part. */
  function Flushed(s: System, c: Copy, n: nat): map<Inode, Bytes>
    requires c.into in s.inodes
  {
    s.inodes[c.into := s.inodes[c.into] + c.buffer[..Min(n, |c.buffer|)]]
  }

  // -------------------------------------------------------------- the steps

  function Fresh(s: System): System {
    s.(inodes := s.inodes[s.next := []], next := s.next + 1)
  }

  /** The next step of a delete: the cache entry is gone already. */
  function AdvanceDelete(s: System, p: Pid): System {
    match At(s, p)
    case Dropped(d) =>
      if d !in s.backend then Put(s, p, Deleted(d))
      else if s.kind.Database? then Put(s.(gone := s.gone + {s.backend[d]}), p, Unlinked(d))
      else Put(s.(backend := s.backend - {d}), p, Deleted(d))
    case Unlinked(d) => Put(s.(backend := s.backend - {d}), p, Deleted(d))
    case _ => s
  }

  /** The next step of a get or of cache_file. */
  function AdvanceGet(s: System, p: Pid, n: nat): System
    requires Inodes(At(s, p)) <= s.inodes.Keys
  {
    var q := At(s, p);
    match q
    case GetStarted(d, only) =>
      if d in s.cache then Put(s, p, if only then Cached(d) else Reading(d, s.cache[d], []))
      else Put(s, p, GetMissed(d, only))
    case GetMissed(d, only) =>
      if s.kind.Null? || d !in s.backend then Put(s, p, Failed(d, NotFound))
      else Put(s, p, GetFound(d, only, s.backend[d]))
    case GetFound(d, only, row) =>
      if s.kind.Database? then
        if row in s.gone then Put(s, p, Failed(d, Vanished))
        else Put(Fresh(s), p, GetCopying(d, only, row, Copy(0, s.next, [], [])))
      else if d in s.backend then
        Put(Fresh(s), p, GetCopying(d, only, s.backend[d], Copy(0, s.next, [], [])))
      else Put(s, p, Failed(d, Vanished))
    case GetCopying(d, only, from, c) =>
      if c.pending != [] then Put(s, p, WithCopy(q, Write(c, n)))
      else if c.pos < |s.inodes[from]| then Put(s, p, WithCopy(q, Fill(c, s.inodes[from], n)))
      else Put(s.(inodes := Flushed(s, c, |c.buffer|)), p, GetClosed(d, only, c.into))
    case GetClosed(d, only, tmp) =>
      if only then Put(s.(cache := s.cache[d := tmp]), p, Cached(d)) else Put(s, p, GetOpened(d, tmp))
    case GetOpened(d, tmp) => Put(s.(cache := s.cache[d := tmp]), p, Reading(d, tmp, []))
    case Reading(d, fd, got) =>
      if |got| < |s.inodes[fd]| then
        var k := Amount(n, |s.inodes[fd]| - |got|);
        Put(s, p, Reading(d, fd, got + s.inodes[fd][|got|..|got| + k]))
      else Put(s, p, Got(d, got))
    case _ => AdvanceDelete(s, p)
  }

  /** The next step of a put. */
  function AdvancePut(hash: Bytes -> Digest, s: System, p: Pid, n: nat): System
    requires Inodes(At(s, p)) <= s.inodes.Keys
  {
    var q := At(s, p);
    match q
    case PutReading(source, fed, c) =>
      if c.pending != [] then Put(s, p, WithCopy(q, Write(c, n)))
      else if c.pos < |source| then
        var d := Fill(c, source, n);
        Put(s, p, PutReading(source, fed + d.pending, d))
      else
        Put(s.(inodes := Flushed(s, c, |c.buffer|)), p, PutHashed(source, hash(fed), c.into))
    case PutHashed(source, d, tmp) =>
      if s.kind.Null? || d in s.backend then Put(s, p, PutStored(source, d, tmp))
      else Put(Fresh(s), p, PutCopying(source, d, tmp, Copy(0, s.next, [], [])))
    case PutCopying(source, d, tmp, c) =>
      if c.pending != [] then Put(s, p, WithCopy(q, Write(c, n)))
      else if c.pos < |s.inodes[tmp]| then Put(s, p, WithCopy(q, Fill(c, s.inodes[tmp], n)))
      else Put(s.(inodes := Flushed(s, c, |c.buffer|)), p, PutClosed(source, d, tmp, c.into))
    case PutClosed(source, d, tmp, out) =>
      if d in s.backend then Put(s, p, PutStored(source, d, tmp))
      else if s.kind.Database? then Put(s.(backend := s.backend[d := out]), p, PutStored(source, d, tmp))
      else Put(s, p, PutAbsent(source, d, tmp, out))
    case PutAbsent(source, d, tmp, out) => Put(s.(backend := s.backend[d := out]), p, PutStored(source, d, tmp))
    case PutStored(source, d, tmp) => Put(s.(cache := s.cache[d := tmp]), p, PutDone(source, d))
    case _ => AdvanceGet(s, p, n)
  }

  predicate Resting(q: Process) {
    q.Idle? || q.PutDone? || q.Got? || q.Cached? || q.Deleted? || q.Failed?
  }

  /** One step of one process. A move that the process cannot make changes nothing. */
  function Take(hash: Bytes -> Digest, s: System, e: Event): System
    requires Inodes(At(s, e.pid)) <= s.inodes.Keys
  {
    var p := e.pid;
    var q := At(s, p);
    match e.move
    case StartPut(source) =>
      if Resting(q) then Put(Fresh(s), p, PutReading(source, [], Copy(0, s.next, [], []))) else s
    case StartGet(d, only) =>
      if !Resting(q) then s
      else if d == TOMBSTONE then Put(s, p, Failed(d, Tombstone))
      else Put(s, p, GetStarted(d, only))
    case StartDelete(d) =>
      if !Resting(q) then s
      else if d == TOMBSTONE then Put(s, p, Deleted(d))
      else Put(s.(cache := s.cache - {d}), p, Dropped(d))
    case Drop(d) => if d == TOMBSTONE then s else s.(cache := s.cache - {d})
    case Advance(n) => AdvancePut(hash, s, p, n)
    case Spill(n) =>
      if Copying(q)
      then Put(s.(inodes := Flushed(s, q.copy, n)), p,
               WithCopy(q, q.copy.(buffer := q.copy.buffer[Min(n, |q.copy.buffer|)..])))
      else s
    case Crash => Put(s, p, Crashed)
  }

  /** The files a process can read or write. */
  function Inodes(q: Process): set<Inode> {
    match q
    case PutReading(_, _, c) => {c.into}
    case PutHashed(_, _, tmp) => {tmp}
    case PutCopying(_, _, tmp, c) => {tmp, c.into}
    case PutClosed(_, _, tmp, out) => {tmp, out}
    case PutAbsent(_, _, tmp, out) => {tmp, out}
    case PutStored(_, _, tmp) => {tmp}
    case GetFound(_, _, row) => {row}
    case GetCopying(_, _, from, c) => {from, c.into}
    case GetClosed(_, _, tmp) => {tmp}
    case GetOpened(_, tmp) => {tmp}
    case Reading(_, fd, _) => {fd}
    case _ => {}
  }

  /** The files a process still writes. */
  function Writes(q: Process): set<Inode> {
    if Copying(q) then {q.copy.into} else {}
  }

  // ----------------------------------------------------------- the invariant

  /** What has been read is on its way: in the file, in the buffer or pending. */
  ghost predicate Copied(s: System, c: Copy, from: Bytes)
    requires c.into in s.inodes
  {
    c.pos <= |from| && s.inodes[c.into] + c.buffer + c.pending == from[..c.pos]
  }

  /** The file is complete and has the digest. */
  ghost predicate Holds(hash: Bytes -> Digest, s: System, d: Digest, i: Inode) {
    i in s.inodes && hash(s.inodes[i]) == d
  }

  ghost predicate Stands(hash: Bytes -> Digest, s: System, q: Process)
    requires Inodes(q) <= s.inodes.Keys
  {
    match q
    case PutReading(source, fed, c) => c.pos <= |source| && fed == source[..c.pos] && Copied(s, c, source)
    case PutHashed(source, d, tmp) => d == hash(source) && s.inodes[tmp] == source
    case PutCopying(source, d, tmp, c) =>
      d == hash(source) && s.inodes[tmp] == source && tmp != c.into && Copied(s, c, source)
    case PutClosed(source, d, tmp, out) => d == hash(source) && s.inodes[tmp] == source && s.inodes[out] == source
    case PutAbsent(source, d, tmp, out) => d == hash(source) && s.inodes[tmp] == source && s.inodes[out] == source
    case PutStored(source, d, tmp) => d == hash(source) && s.inodes[tmp] == source
    case PutDone(source, d) => d == hash(source)
    case GetFound(d, _, row) => Holds(hash, s, d, row)
    case GetCopying(d, _, from, c) => Holds(hash, s, d, from) && from != c.into && Copied(s, c, s.inodes[from])
    case GetClosed(d, _, tmp) => Holds(hash, s, d, tmp)
    case GetOpened(d, tmp) => Holds(hash, s, d, tmp)
    case Reading(d, fd, got) => Holds(hash, s, d, fd) && got <= s.inodes[fd]
    case Got(d, content) => hash(content) == d
    case _ => true
  }

  /** Every file visible under a digest, in the cache or in the backend, is complete, has
      that digest and is written by nobody; every process stands where it should. */
  ghost predicate Safe(hash: Bytes -> Digest, s: System) {
    && (forall i :: i in s.inodes ==> i < s.next)
    && (forall d :: d in s.cache ==> Holds(hash, s, d, s.cache[d]))
    && (forall d :: d in s.backend ==> Holds(hash, s, d, s.backend[d]))
    && (forall p :: Inodes(At(s, p)) <= s.inodes.Keys)
    && (forall p :: Stands(hash, s, At(s, p)))
    && (forall p, i :: i in Writes(At(s, p)) ==> i !in s.cache.Values && i !in s.backend.Values)
    && (forall p, q, i :: p != q && i in Writes(At(s, p)) ==> i !in Inodes(At(s, q)))
  }

  /** What a step of process p leaves in place for everybody else. */
  ghost predicate Keeps(s: System, t: System, p: Pid) {
    && (forall q :: q != p ==> At(t, q) == At(s, q))
    && s.inodes.Keys <= t.inodes.Keys && s.next <= t.next
    && (forall i :: i in t.inodes ==> i in s.inodes || s.next <= i < t.next)
    && (forall i :: i in s.inodes && i !in Writes(At(s, p)) ==> t.inodes[i] == s.inodes[i])
    && (forall i :: i in t.cache.Values ==> i in s.cache.Values || i in Inodes(At(s, p)))
    && (forall i :: i in t.backend.Values ==> i in s.backend.Values || i in Inodes(At(s, p)))
    && (forall i :: i in Writes(At(t, p)) ==> i in Writes(At(s, p)) || s.next <= i)
    && (forall i :: i in Inodes(At(t, p)) ==>
          i in Inodes(At(s, p)) || s.next <= i || i in s.cache.Values || i in s.backend.Values)
    && (forall i :: i in Writes(At(t, p)) ==> i !in t.cache.Values && i !in t.backend.Values)
  }

  lemma KeepsSafe(hash: Bytes -> Digest, s: System, t: System, p: Pid)
    requires Safe(hash, s) && Keeps(s, t, p)
    requires forall d :: d in t.cache ==> Holds(hash, t, d, t.cache[d])
    requires forall d :: d in t.backend ==> Holds(hash, t, d, t.backend[d])
    requires Inodes(At(t, p)) <= t.inodes.Keys && Stands(hash, t, At(t, p))
    ensures Safe(hash, t)
  {
    hide Stands, Holds, Inodes, Writes, At;
    forall q
      ensures Inodes(At(t, q)) <= t.inodes.Keys && Stands(hash, t, At(t, q))
    {
      if q != p {
        OthersStand(hash, s, t, p, q);
      }
    }
    forall q, i | i in Writes(At(t, q))
      ensures i !in t.cache.Values && i !in t.backend.Values
    {
      if q != p {
        assert i in Writes(At(s, q));
      }
    }
    forall q, r, i | q != r && i in Writes(At(t, q))
      ensures i !in Inodes(At(t, r))
    {
      Exclusive(hash, s, t, p, q, r, i);
    }
  }

  lemma OthersStand(hash: Bytes -> Digest, s: System, t: System, p: Pid, q: Pid)
    requires Safe(hash, s) && Keeps(s, t, p) && p != q
    ensures Inodes(At(t, q)) <= t.inodes.Keys && Stands(hash, t, At(t, q))
  {
    assert Stands(hash, s, At(s, q));
    assert forall i :: i in Inodes(At(s, q)) ==> i in s.inodes && t.inodes[i] == s.inodes[i];
  }

  lemma Exclusive(hash: Bytes -> Digest, s: System, t: System, p: Pid, q: Pid, r: Pid, i: Inode)
    requires Safe(hash, s) && Keeps(s, t, p) && q != r && i in Writes(At(t, q))
    ensures i !in Inodes(At(t, r))
  {
    hide Stands, Holds, Inodes, Writes, At;
    WritesOwn(At(s, q));
    assert Inodes(At(s, q)) <= s.inodes.Keys && Inodes(At(s, r)) <= s.inodes.Keys;
    assert q != p ==> i in Writes(At(s, q));
  }

  lemma WritesOwn(q: Process)
    ensures Writes(q) <= Inodes(q)
  {
  }

  // ------------------------------------------------ the kinds of step there are

  lemma AtPut(s: System, p: Pid, q: Process)
    ensures At(Put(s, p, q), p) == q && forall r :: r != p ==> At(Put(s, p, q), r) == At(s, r)
  {
  }

  /** Only the process itself changes. */
  lemma OnlyProcess(hash: Bytes -> Digest, s: System, p: Pid, q: Process)
    requires Safe(hash, s)
    requires Inodes(q) <= Inodes(At(s, p)) + s.cache.Values + s.backend.Values && Writes(q) <= Writes(At(s, p))
    requires Inodes(q) <= s.inodes.Keys && Stands(hash, s, q)
    ensures Safe(hash, Put(s, p, q))
  {
    hide Stands, Inodes, Writes, At;
    AtPut(s, p, q);
    SameStands(hash, s, Put(s, p, q), q);
    KeepsSafe(hash, s, Put(s, p, q), p);
  }

  lemma SameStands(hash: Bytes -> Digest, s: System, t: System, q: Process)
    requires Inodes(q) <= s.inodes.Keys && Stands(hash, s, q) && t.inodes == s.inodes
    ensures Stands(hash, t, q)
  {
  }

  /** A new file is created. */
  lemma OnFresh(hash: Bytes -> Digest, s: System, p: Pid, q: Process)
    requires Safe(hash, s) && Writes(q) <= {s.next}
    requires Inodes(q) <= Inodes(At(s, p)) + s.cache.Values + s.backend.Values + {s.next}
    requires Inodes(q) <= Fresh(s).inodes.Keys && Stands(hash, Fresh(s), q)
    ensures Safe(hash, Put(Fresh(s), p, q))
  {
    hide Stands, Inodes, Writes, At;
    var t := Put(Fresh(s), p, q);
    SameStands(hash, Fresh(s), t, q);
    FreshKeeps(hash, s, p, q);
    KeepsSafe(hash, s, t, p);
  }

  lemma FreshKeeps(hash: Bytes -> Digest, s: System, p: Pid, q: Process)
    requires Safe(hash, s) && Writes(q) <= {s.next}
    requires Inodes(q) <= Inodes(At(s, p)) + s.cache.Values + s.backend.Values + {s.next}
    ensures var t := Put(Fresh(s), p, q);
      && Keeps(s, t, p) && At(t, p) == q
      && (forall d :: d in t.cache ==> Holds(hash, t, d, t.cache[d]))
      && (forall d :: d in t.backend ==> Holds(hash, t, d, t.backend[d]))
  {
    hide Stands, Inodes, Writes, At;
    AtPut(Fresh(s), p, q);
    assert forall r :: At(Fresh(s), r) == At(s, r) by { FreshAt(s); }
  }

  lemma FreshAt(s: System)
    ensures forall r :: At(Fresh(s), r) == At(s, r)
  {
  }

  /** A complete file is renamed into the cache. */
  lemma OnCache(hash: Bytes -> Digest, s: System, p: Pid, d: Digest, i: Inode, q: Process)
    requires Safe(hash, s) && i in Inodes(At(s, p)) && Holds(hash, s, d, i) && Writes(At(s, p)) == {} && Writes(q) == {}
    requires Inodes(q) <= Inodes(At(s, p)) && Inodes(q) <= s.inodes.Keys && Stands(hash, s, q)
    ensures Safe(hash, Put(s.(cache := s.cache[d := i]), p, q))
  {
    hide Stands, Inodes, Writes;
    var t := Put(s.(cache := s.cache[d := i]), p, q);
    SameStands(hash, s, t, q);
    assert forall r :: At(t, r) == if r == p then q else At(s, r);
    KeepsSafe(hash, s, t, p);
  }

  /** A complete file is renamed into the backend, or its row is inserted. */
  lemma OnBackend(hash: Bytes -> Digest, s: System, p: Pid, d: Digest, i: Inode, q: Process)
    requires Safe(hash, s) && i in Inodes(At(s, p)) && Holds(hash, s, d, i) && Writes(At(s, p)) == {} && Writes(q) == {}
    requires Inodes(q) <= Inodes(At(s, p)) && Inodes(q) <= s.inodes.Keys && Stands(hash, s, q)
    ensures Safe(hash, Put(s.(backend := s.backend[d := i]), p, q))
  {
    hide Stands, Inodes, Writes;
    var t := Put(s.(backend := s.backend[d := i]), p, q);
    SameStands(hash, s, t, q);
    assert forall r :: At(t, r) == if r == p then q else At(s, r);
    KeepsSafe(hash, s, t, p);
  }

  /** Names are removed. */
  lemma OnRemove(hash: Bytes -> Digest, s: System, p: Pid, cached: set<Digest>, stored: set<Digest>, gone: set<Inode>)
    requires Safe(hash, s)
    ensures Safe(hash, s.(cache := s.cache - cached, backend := s.backend - stored, gone := gone))
  {
    hide Stands, Inodes, Writes;
    var t := s.(cache := s.cache - cached, backend := s.backend - stored, gone := gone);
    assert forall r :: At(t, r) == At(s, r);
    forall i | i in t.cache.Values
      ensures i in s.cache.Values
    {
      var d :| d in t.cache && t.cache[d] == i;
      assert s.cache[d] == i;
    }
    forall i | i in t.backend.Values
      ensures i in s.backend.Values
    {
      var d :| d in t.backend && t.backend[d] == i;
      assert s.backend[d] == i;
    }
    SameStands(hash, s, t, At(s, p));
    KeepsSafe(hash, s, t, p);
  }

  /** The buffer of a copying process goes to its file. */
  lemma OnFlush(hash: Bytes -> Digest, s: System, p: Pid, n: nat, q: Process)
    requires Safe(hash, s) && Copying(At(s, p)) && At(s, p).copy.into in s.inodes
    requires Inodes(q) <= Inodes(At(s, p)) && Writes(q) <= Writes(At(s, p)) && Inodes(q) <= s.inodes.Keys
    requires Stands(hash, s.(inodes := Flushed(s, At(s, p).copy, n)), q)
    ensures Safe(hash, Put(s.(inodes := Flushed(s, At(s, p).copy, n)), p, q))
  {
    hide Stands, Inodes;
    var u := s.(inodes := Flushed(s, At(s, p).copy, n));
    var t := Put(u, p, q);
    SameStands(hash, u, t, q);
    assert forall r :: At(t, r) == if r == p then q else At(s, r);
    var c := At(s, p).copy;
    assert c.into in Writes(At(s, p));
    forall d | d in s.cache
      ensures s.cache[d] != c.into
    {
      assert s.cache[d] in s.cache.Values;
    }
    forall d | d in s.backend
      ensures s.backend[d] != c.into
    {
      assert s.backend[d] in s.backend.Values;
    }
    KeepsSafe(hash, s, t, p);
  }

  // ------------------------------------------------------ every step is safe

  lemma WriteCopied(s: System, c: Copy, from: Bytes, n: nat)
    requires c.into in s.inodes && c.pending != [] && Copied(s, c, from)
    ensures Copied(s, Write(c, n), from)
  {
    var k := Amount(n, |c.pending|);
    assert c.buffer + c.pending == c.buffer + c.pending[..k] + c.pending[k..];
    assert s.inodes[c.into] + c.buffer + c.pending == s.inodes[c.into] + (c.buffer + c.pending[..k]) + c.pending[k..];
  }

  lemma FillCopied(s: System, c: Copy, from: Bytes, n: nat)
    requires c.into in s.inodes && c.pending == [] && c.pos < |from| && Copied(s, c, from)
    ensures Copied(s, Fill(c, from, n), from)
  {
    var d := Fill(c, from, n);
    assert from[..d.pos] == from[..c.pos] + from[c.pos..d.pos];
  }

  lemma FlushCopied(s: System, c: Copy, from: Bytes, n: nat)
    requires c.into in s.inodes && Copied(s, c, from)
    ensures Copied(s.(inodes := Flushed(s, c, n)), c.(buffer := c.buffer[Min(n, |c.buffer|)..]), from)
  {
    var k := Min(n, |c.buffer|);
    assert c.buffer == c.buffer[..k] + c.buffer[k..];
  }

  /** When everything has been read, written and flushed, the copy is the original. */
  lemma CopyEnds(s: System, c: Copy, from: Bytes)
    requires c.into in s.inodes && Copied(s, c, from) && c.pending == [] && c.pos >= |from|
    ensures Flushed(s, c, |c.buffer|)[c.into] == from
  {
    assert c.buffer[..|c.buffer|] == c.buffer && from[..c.pos] == from;
    assert s.inodes[c.into] + c.buffer + [] == s.inodes[c.into] + c.buffer;
  }

  /** The original of a copy. */
  function Original(s: System, q: Process): Bytes
    requires Copying(q) && Inodes(q) <= s.inodes.Keys
  {
    if q.GetCopying? then s.inodes[q.from] else q.source
  }

  lemma CopyStepSafe(hash: Bytes -> Digest, s: System, p: Pid, n: nat)
    requires Safe(hash, s) && Copying(At(s, p)) && At(s, p).copy.pending != []
    ensures Safe(hash, Put(s, p, WithCopy(At(s, p), Write(At(s, p).copy, n))))
  {
    hide Safe;
    SafeAt(hash, s, p);
    var q := At(s, p);
    WriteCopied(s, q.copy, Original(s, q), n);
    OnlyProcess(hash, s, p, WithCopy(q, Write(q.copy, n)));
  }

  lemma CopyFillSafe(hash: Bytes -> Digest, s: System, p: Pid, n: nat)
    requires Safe(hash, s) && Copying(At(s, p)) && At(s, p).copy.pending == [] && !At(s, p).PutReading?
    requires Inodes(At(s, p)) <= s.inodes.Keys && At(s, p).copy.pos < |Original(s, At(s, p))|
    ensures Safe(hash, Put(s, p, WithCopy(At(s, p), Fill(At(s, p).copy, Original(s, At(s, p)), n))))
  {
    hide Safe;
    SafeAt(hash, s, p);
    var q := At(s, p);
    FillCopied(s, q.copy, Original(s, q), n);
    OnlyProcess(hash, s, p, WithCopy(q, Fill(q.copy, Original(s, q), n)));
  }

  lemma SafeAt(hash: Bytes -> Digest, s: System, p: Pid)
    requires Safe(hash, s)
    ensures Inodes(At(s, p)) <= s.inodes.Keys && Stands(hash, s, At(s, p))
    ensures forall i :: i in s.inodes ==> i < s.next
    ensures forall d :: d in s.cache ==> Holds(hash, s, d, s.cache[d]) && s.cache[d] in s.cache.Values
    ensures forall d :: d in s.backend ==> Holds(hash, s, d, s.backend[d]) && s.backend[d] in s.backend.Values
  {
  }

  lemma FillPutSafe(hash: Bytes -> Digest, s: System, p: Pid, n: nat)
    requires Safe(hash, s) && At(s, p).PutReading? && At(s, p).copy.pending == []
             && At(s, p).copy.pos < |At(s, p).source|
    ensures Safe(hash, AdvancePut(hash, s, p, n))
  {
    hide Safe;
    SafeAt(hash, s, p);
    var q := At(s, p);
    var d := Fill(q.copy, q.source, n);
    FillCopied(s, q.copy, q.source, n);
    assert q.source[..d.pos] == q.source[..q.copy.pos] + d.pending;
    OnlyProcess(hash, s, p, PutReading(q.source, q.fed + d.pending, d));
  }

  /** The end of one of the three copies. */
  lemma CopyEndSafe(hash: Bytes -> Digest, s: System, p: Pid, q: Process)
    requires Safe(hash, s) && Copying(At(s, p)) && At(s, p).copy.pending == []
    requires Inodes(At(s, p)) <= s.inodes.Keys && At(s, p).copy.pos >= |Original(s, At(s, p))|
    requires var r := At(s, p);
      match r
      case PutReading(source, fed, c) => q == PutHashed(source, hash(fed), c.into)
      case PutCopying(source, d, tmp, c) => q == PutClosed(source, d, tmp, c.into)
      case GetCopying(d, only, from, c) => q == GetClosed(d, only, c.into)
      case _ => false
    ensures Safe(hash, Put(s.(inodes := Flushed(s, At(s, p).copy, |At(s, p).copy.buffer|)), p, q))
  {
    hide Safe;
    SafeAt(hash, s, p);
    var r := At(s, p);
    CopyEnds(s, r.copy, Original(s, r));
    if r.PutReading? {
      assert r.source[..r.copy.pos] == r.source;
    }
    OnFlush(hash, s, p, |r.copy.buffer|, q);
  }

  lemma SpillSafe(hash: Bytes -> Digest, s: System, p: Pid, n: nat)
    requires Safe(hash, s) && Copying(At(s, p)) && Inodes(At(s, p)) <= s.inodes.Keys
    ensures Safe(hash, Take(hash, s, Event(p, Spill(n))))
  {
    hide Safe;
    SafeAt(hash, s, p);
    var q := At(s, p);
    FlushCopied(s, q.copy, Original(s, q), n);
    OnFlush(hash, s, p, n, WithCopy(q, q.copy.(buffer := q.copy.buffer[Min(n, |q.copy.buffer|)..])));
  }

  lemma PutSafe(hash: Bytes -> Digest, s: System, p: Pid, n: nat)
    requires Safe(hash, s) && Inodes(At(s, p)) <= s.inodes.Keys
    requires At(s, p).PutHashed? || At(s, p).PutClosed? || At(s, p).PutAbsent? || At(s, p).PutStored?
    ensures Safe(hash, AdvancePut(hash, s, p, n))
  {
    hide Safe;
    SafeAt(hash, s, p);
    var q := At(s, p);
    match q {
      case PutHashed(source, d, tmp) =>
        if s.kind.Null? || d in s.backend {
          OnlyProcess(hash, s, p, PutStored(source, d, tmp));
        } else {
          OnFresh(hash, s, p, PutCopying(source, d, tmp, Copy(0, s.next, [], [])));
        }
      case PutClosed(source, d, tmp, out) =>
        if d in s.backend {
          OnlyProcess(hash, s, p, PutStored(source, d, tmp));
        } else if s.kind.Database? {
          OnBackend(hash, s, p, d, out, PutStored(source, d, tmp));
        } else {
          OnlyProcess(hash, s, p, PutAbsent(source, d, tmp, out));
        }
      case PutAbsent(source, d, tmp, out) =>
        OnBackend(hash, s, p, d, out, PutStored(source, d, tmp));
      case PutStored(source, d, tmp) =>
        OnCache(hash, s, p, d, tmp, PutDone(source, d));
    }
  }

  lemma GetSafe(hash: Bytes -> Digest, s: System, p: Pid, n: nat)
    requires Safe(hash, s) && Inodes(At(s, p)) <= s.inodes.Keys
    requires At(s, p).GetStarted? || At(s, p).GetMissed? || At(s, p).GetClosed? || At(s, p).GetOpened?
    ensures Safe(hash, AdvanceGet(s, p, n))
  {
    hide Safe, AdvanceGet, Inodes;
    if At(s, p).GetStarted? || At(s, p).GetMissed? {
      StartedSafe(hash, s, p, n);
    } else {
      ClosedSafe(hash, s, p, n);
    }
  }

  lemma StartedSafe(hash: Bytes -> Digest, s: System, p: Pid, n: nat)
    requires Safe(hash, s) && Inodes(At(s, p)) <= s.inodes.Keys && (At(s, p).GetStarted? || At(s, p).GetMissed?)
    ensures Safe(hash, AdvanceGet(s, p, n))
  {
    hide Safe;
    SafeAt(hash, s, p);
    var q := At(s, p);
    match q {
      case GetStarted(d, only) =>
        if d in s.cache {
          OnlyProcess(hash, s, p, if only then Cached(d) else Reading(d, s.cache[d], []));
        } else {
          OnlyProcess(hash, s, p, GetMissed(d, only));
        }
      case GetMissed(d, only) =>
        OnlyProcess(hash, s, p,
                    if s.kind.Null? || d !in s.backend then Failed(d, NotFound) else GetFound(d, only, s.backend[d]));
    }
  }

  lemma ClosedSafe(hash: Bytes -> Digest, s: System, p: Pid, n: nat)
    requires Safe(hash, s) && Inodes(At(s, p)) <= s.inodes.Keys && (At(s, p).GetClosed? || At(s, p).GetOpened?)
    ensures Safe(hash, AdvanceGet(s, p, n))
  {
    hide Safe;
    SafeAt(hash, s, p);
    var q := At(s, p);
    match q {
      case GetClosed(d, only, tmp) =>
        if only {
          OnCache(hash, s, p, d, tmp, Cached(d));
        } else {
          OnlyProcess(hash, s, p, GetOpened(d, tmp));
        }
      case GetOpened(d, tmp) =>
        OnCache(hash, s, p, d, tmp, Reading(d, tmp, []));
    }
  }

  lemma FoundSafe(hash: Bytes -> Digest, s: System, p: Pid, n: nat)
    requires Safe(hash, s) && Inodes(At(s, p)) <= s.inodes.Keys && At(s, p).GetFound?
    ensures Safe(hash, AdvanceGet(s, p, n))
  {
    hide Safe;
    SafeAt(hash, s, p);
    var q := At(s, p);
    var d := q.digest;
    if if s.kind.Database? then q.row in s.gone else d !in s.backend {
      OnlyProcess(hash, s, p, Failed(d, Vanished));
    } else {
      var from := if s.kind.Database? then q.row else s.backend[d];
      OnFresh(hash, s, p, GetCopying(d, q.cacheOnly, from, Copy(0, s.next, [], [])));
    }
  }

  lemma ReadingSafe(hash: Bytes -> Digest, s: System, p: Pid, n: nat)
    requires Safe(hash, s) && Inodes(At(s, p)) <= s.inodes.Keys && At(s, p).Reading?
    ensures Safe(hash, AdvanceGet(s, p, n))
  {
    hide Safe;
    SafeAt(hash, s, p);
    var q := At(s, p);
    if |q.got| < |s.inodes[q.fd]| {
      var k := Amount(n, |s.inodes[q.fd]| - |q.got|);
      assert q.got + s.inodes[q.fd][|q.got|..|q.got| + k] == s.inodes[q.fd][..|q.got| + k];
      OnlyProcess(hash, s, p, Reading(q.digest, q.fd, q.got + s.inodes[q.fd][|q.got|..|q.got| + k]));
    } else {
      assert q.got == s.inodes[q.fd];
      OnlyProcess(hash, s, p, Got(q.digest, q.got));
    }
  }

  lemma DeleteSafe(hash: Bytes -> Digest, s: System, p: Pid)
    requires Safe(hash, s)
    ensures Safe(hash, AdvanceDelete(s, p))
  {
    hide Safe;
    SafeAt(hash, s, p);
    var q := At(s, p);
    if q.Dropped? || q.Unlinked? {
      var d := q.digest;
      var gone := if q.Dropped? && s.kind.Database? && d in s.backend then s.gone + {s.backend[d]} else s.gone;
      var stored := if q.Dropped? && (d !in s.backend || s.kind.Database?) then {} else {d};
      var t := s.(cache := s.cache - {}, backend := s.backend - stored, gone := gone);
      OnRemove(hash, s, p, {}, stored, gone);
      assert s.cache - {} == s.cache && s.backend - {} == s.backend;
      OnlyProcess(hash, t, p, if q.Dropped? && s.kind.Database? && d in s.backend then Unlinked(d) else Deleted(d));
    }
  }

  /** One step of any process keeps every visible file complete. */
  lemma StepSafe(hash: Bytes -> Digest, s: System, e: Event)
    requires Safe(hash, s)
    ensures Inodes(At(s, e.pid)) <= s.inodes.Keys && Safe(hash, Take(hash, s, e))
  {
    hide Safe, Stands;
    SafeAt(hash, s, e.pid);
    var p, q := e.pid, At(s, e.pid);
    match e.move {
      case StartPut(source) =>
        if Resting(q) {
          StartPutSafe(hash, s, p, source);
        }
      case StartGet(d, only) =>
        if Resting(q) {
          PlainSafe(hash, s, p, if d == TOMBSTONE then Failed(d, Tombstone) else GetStarted(d, only));
        }
      case StartDelete(d) =>
        if Resting(q) && d == TOMBSTONE {
          PlainSafe(hash, s, p, Deleted(d));
        } else if Resting(q) {
          DropSafe(hash, s, p, d);
          PlainSafe(hash, s.(cache := s.cache - {d}), p, Dropped(d));
        }
      case Drop(d) => DropSafe(hash, s, p, d);
      case Advance(n) => AdvanceSafe(hash, s, p, n);
      case Spill(n) =>
        if Copying(q) {
          SpillSafe(hash, s, p, n);
        }
      case Crash => PlainSafe(hash, s, p, Crashed);
    }
  }

  lemma StartPutSafe(hash: Bytes -> Digest, s: System, p: Pid, source: Bytes)
    requires Safe(hash, s)
    ensures Safe(hash, Put(Fresh(s), p, PutReading(source, [], Copy(0, s.next, [], []))))
  {
    OnFresh(hash, s, p, PutReading(source, [], Copy(0, s.next, [], [])));
  }

  lemma PlainSafe(hash: Bytes -> Digest, s: System, p: Pid, q: Process)
    requires Safe(hash, s) && (q.Failed? || q.GetStarted? || q.Deleted? || q.Dropped? || q.Crashed?)
    ensures Safe(hash, Put(s, p, q))
  {
    OnlyProcess(hash, s, p, q);
  }

  lemma DropSafe(hash: Bytes -> Digest, s: System, p: Pid, d: Digest)
    requires Safe(hash, s)
    ensures Safe(hash, s.(cache := s.cache - {d}))
  {
    OnRemove(hash, s, p, {d}, {}, s.gone);
    assert s.backend - {} == s.backend;
  }

  lemma AdvanceSafe(hash: Bytes -> Digest, s: System, p: Pid, n: nat)
    requires Safe(hash, s) && Inodes(At(s, p)) <= s.inodes.Keys
    ensures Safe(hash, AdvancePut(hash, s, p, n))
  {
    hide Safe, Stands;
    var q := At(s, p);
    if Copying(q) {
      if q.copy.pending != [] {
        CopyStepSafe(hash, s, p, n);
      } else if q.copy.pos >= |Original(s, q)| || (q.PutCopying? && q.copy.pos >= |s.inodes[q.tmp]|) {
        CopyingSource(hash, s, p);
        CopyEndSafe(hash, s, p, match q case PutReading(source, fed, c) => PutHashed(source, hash(fed), c.into)
                                case PutCopying(source, d, tmp, c) => PutClosed(source, d, tmp, c.into)
                                case GetCopying(d, only, from, c) => GetClosed(d, only, c.into));
      } else if q.PutReading? {
        FillPutSafe(hash, s, p, n);
      } else {
        CopyingSource(hash, s, p);
        CopyFillSafe(hash, s, p, n);
      }
    } else if q.PutHashed? || q.PutClosed? || q.PutAbsent? || q.PutStored? {
      PutSafe(hash, s, p, n);
    } else if q.Reading? {
      ReadingSafe(hash, s, p, n);
    } else if q.GetFound? {
      FoundSafe(hash, s, p, n);
    } else if q.GetStarted? || q.GetMissed? || q.GetClosed? || q.GetOpened? {
      GetSafe(hash, s, p, n);
    } else {
      DeleteSafe(hash, s, p);
    }
  }

  lemma CopyingSource(hash: Bytes -> Digest, s: System, p: Pid)
    requires Safe(hash, s) && Inodes(At(s, p)) <= s.inodes.Keys
    ensures At(s, p).PutCopying? ==> s.inodes[At(s, p).tmp] == At(s, p).source
  {
    assert Stands(hash, s, At(s, p));
  }
}
