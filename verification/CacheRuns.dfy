/** What the file cache promises over whole runs: any number of steps of any number of
    processes, in any order. */
module CacheRuns {
  import opened Basics
  import opened FileCacher

  // --------------------------------------------------------- over whole runs

  function Initial(kind: Kind): System {
    System(kind, map[], map[], 0, map[], map[], {})
  }

  /** Any number of steps of any number of processes, in any order. */
  ghost function Run(hash: Bytes -> Digest, s: System, events: seq<Event>): (t: System)
    requires Safe(hash, s)
    ensures Safe(hash, t)
    decreases |events|
  {
    if events == [] then s
    else
      StepSafe(hash, s, events[0]);
      Run(hash, Take(hash, s, events[0]), events[1..])
  }

  /** The backend can open the file: a large object can be unlinked before its row goes. */
  predicate Readable(s: System, d: Digest) {
    d in s.backend && (s.kind.Database? ==> s.backend[d] !in s.gone)
  }

  /** In every reachable state every file that can be opened is complete and has its digest, a
      get that returns gives bytes with the digest asked for, and a put returns the digest of
      the bytes it was given. */
  lemma VisibleIsComplete(hash: Bytes -> Digest, kind: Kind, events: seq<Event>)
    ensures Safe(hash, Initial(kind))
    ensures var s := Run(hash, Initial(kind), events);
      && (forall d :: d in s.cache ==> s.cache[d] in s.inodes && hash(s.inodes[s.cache[d]]) == d)
      && (forall d :: Readable(s, d) ==> s.backend[d] in s.inodes && hash(s.inodes[s.backend[d]]) == d)
      && (NoDelete(events) ==> forall d :: d in s.backend ==> Readable(s, d))
      && (forall p :: At(s, p).Got? ==> hash(At(s, p).content) == At(s, p).digest)
      && (forall p :: At(s, p).PutDone? ==> hash(At(s, p).source) == At(s, p).digest)
  {
    var s := Run(hash, Initial(kind), events);
    InitialIsSafe(hash, kind);
    if NoDelete(events) {
      RunIsStored(hash, Initial(kind), events);
    }
    forall p
      ensures At(s, p).Got? ==> hash(At(s, p).content) == At(s, p).digest
      ensures At(s, p).PutDone? ==> hash(At(s, p).source) == At(s, p).digest
    {
      assert Stands(hash, s, At(s, p));
    }
  }

  /** No delete is under way. */
  ghost predicate Undeleted(s: System) {
    s.gone == {} && forall p :: !At(s, p).Dropped? && !At(s, p).Unlinked?
  }

  ghost predicate NoDelete(events: seq<Event>) {
    forall i :: 0 <= i < |events| ==> !events[i].move.StartDelete?
  }

  /** Whatever a finished put stored is in the backend. */
  ghost predicate Stored(s: System) {
    !s.kind.Null? ==> forall p :: At(s, p).PutStored? || At(s, p).PutDone? ==> At(s, p).digest in s.backend
  }

  ghost predicate Lost(q: Process, d: Digest) {
    q == Failed(d, NotFound) || q == Failed(d, Vanished)
  }

  /** What a step other than a delete does to the backend and to the process that takes it. */
  ghost predicate Grows(s: System, t: System, p: Pid) {
    && t.kind == s.kind && t.gone == s.gone && s.backend.Keys <= t.backend.Keys
    && (forall r :: r != p ==> At(t, r) == At(s, r))
    && (At(t, p).Dropped? || At(t, p).Unlinked? ==> At(t, p) == At(s, p))
    && (At(t, p).PutStored? || At(t, p).PutDone? ==>
          s.kind.Null? || At(t, p).digest in t.backend
          || (At(s, p).PutStored? && At(s, p).digest == At(t, p).digest) || At(t, p) == At(s, p))
    && (At(t, p).Failed? && !At(t, p).error.Tombstone? ==>
          At(t, p) == At(s, p) || s.kind.Null? || s.gone != {} || At(t, p).digest !in s.backend)
  }

  /** A step changes its own process and the file that this process writes. */
  ghost predicate Local(s: System, t: System, p: Pid) {
    && (forall r :: r != p ==> At(t, r) == At(s, r))
    && (forall i :: i in s.inodes && i !in Writes(At(s, p)) ==> i in t.inodes && t.inodes[i] == s.inodes[i])
  }

  lemma Does(s: System, u: System, p: Pid, q: Process)
    requires u.processes == s.processes && u.kind == s.kind && u.gone == s.gone && s.backend.Keys <= u.backend.Keys
    requires || u.inodes == s.inodes || u == Fresh(s)
             || (Copying(At(s, p)) && At(s, p).copy.into in u.inodes
                 && u.inodes == s.inodes[At(s, p).copy.into := u.inodes[At(s, p).copy.into]])
    requires forall i :: i in s.inodes ==> i < s.next
    requires !q.Dropped? && !q.Unlinked? && (q.Failed? ==> s.kind.Null? || s.gone != {} || q.digest !in s.backend)
    requires q.PutStored? || q.PutDone? ==>
               s.kind.Null? || q.digest in u.backend || (At(s, p).PutStored? && At(s, p).digest == q.digest)
    ensures Local(s, Put(u, p, q), p) && Grows(s, Put(u, p, q), p)
  {
    assert Copying(At(s, p)) ==> At(s, p).copy.into in Writes(At(s, p));
  }

  lemma Nothing(s: System, p: Pid)
    ensures Local(s, s, p) && Grows(s, s, p)
  {
  }

  lemma GetDoes(s: System, p: Pid, n: nat)
    requires Inodes(At(s, p)) <= s.inodes.Keys && !At(s, p).Dropped? && !At(s, p).Unlinked?
    requires forall i :: i in s.inodes ==> i < s.next
    ensures Local(s, AdvanceGet(s, p, n), p) && Grows(s, AdvanceGet(s, p, n), p)
  {
    hide Local, Grows, Write, Fill, Amount, Min;
    Nothing(s, p);
    var q := At(s, p);
    match q {
      case GetStarted(d, only) =>
        Does(s, s, p,
             if d !in s.cache then GetMissed(d, only) else if only then Cached(d) else Reading(d, s.cache[d], []));
      case GetMissed(d, only) =>
        Does(s, s, p, if s.kind.Null? || d !in s.backend then Failed(d, NotFound) else GetFound(d, only, s.backend[d]));
      case GetFound(d, only, row) =>
        if if s.kind.Database? then row in s.gone else d !in s.backend {
          Does(s, s, p, Failed(d, Vanished));
        } else {
          Does(s, Fresh(s), p,
               GetCopying(d, only, if s.kind.Database? then row else s.backend[d], Copy(0, s.next, [], [])));
        }
      case GetCopying(d, only, from, c) =>
        if c.pending != [] {
          Does(s, s, p, WithCopy(q, Write(c, n)));
        } else if c.pos < |s.inodes[from]| {
          Does(s, s, p, WithCopy(q, Fill(c, s.inodes[from], n)));
        } else {
          Does(s, s.(inodes := Flushed(s, c, |c.buffer|)), p, GetClosed(d, only, c.into));
        }
      case GetClosed(d, only, tmp) =>
        Does(s, if only then s.(cache := s.cache[d := tmp]) else s, p, if only then Cached(d) else GetOpened(d, tmp));
      case GetOpened(d, tmp) =>
        Does(s, s.(cache := s.cache[d := tmp]), p, Reading(d, tmp, []));
      case Reading(d, fd, got) =>
        Does(s, s, p, At(AdvanceGet(s, p, n), p));
      case _ =>
    }
  }

  lemma PutDoes(hash: Bytes -> Digest, s: System, p: Pid, n: nat)
    requires Inodes(At(s, p)) <= s.inodes.Keys && !At(s, p).Dropped? && !At(s, p).Unlinked?
    requires forall i :: i in s.inodes ==> i < s.next
    ensures Local(s, AdvancePut(hash, s, p, n), p) && Grows(s, AdvancePut(hash, s, p, n), p)
  {
    hide Local, Grows, Write, Fill, Amount, Min, AdvanceGet;
    GetDoes(s, p, n);
    var q := At(s, p);
    match q {
      case PutReading(source, fed, c) =>
        if c.pending != [] {
          Does(s, s, p, WithCopy(q, Write(c, n)));
        } else if c.pos < |source| {
          Does(s, s, p, PutReading(source, fed + Fill(c, source, n).pending, Fill(c, source, n)));
        } else {
          Does(s, s.(inodes := Flushed(s, c, |c.buffer|)), p, PutHashed(source, hash(fed), c.into));
        }
      case PutHashed(source, d, tmp) =>
        if s.kind.Null? || d in s.backend {
          Does(s, s, p, PutStored(source, d, tmp));
        } else {
          Does(s, Fresh(s), p, PutCopying(source, d, tmp, Copy(0, s.next, [], [])));
        }
      case PutCopying(source, d, tmp, c) =>
        if c.pending != [] {
          Does(s, s, p, WithCopy(q, Write(c, n)));
        } else if c.pos < |s.inodes[tmp]| {
          Does(s, s, p, WithCopy(q, Fill(c, s.inodes[tmp], n)));
        } else {
          Does(s, s.(inodes := Flushed(s, c, |c.buffer|)), p, PutClosed(source, d, tmp, c.into));
        }
      case PutClosed(source, d, tmp, out) =>
        if d in s.backend {
          Does(s, s, p, PutStored(source, d, tmp));
        } else if s.kind.Database? {
          Does(s, s.(backend := s.backend[d := out]), p, PutStored(source, d, tmp));
        } else {
          Does(s, s, p, PutAbsent(source, d, tmp, out));
        }
      case PutAbsent(source, d, tmp, out) =>
        Does(s, s.(backend := s.backend[d := out]), p, PutStored(source, d, tmp));
      case PutStored(source, d, tmp) =>
        Does(s, s.(cache := s.cache[d := tmp]), p, PutDone(source, d));
      case _ =>
    }
  }

  lemma TakeGrows(hash: Bytes -> Digest, s: System, e: Event)
    requires Inodes(At(s, e.pid)) <= s.inodes.Keys && !At(s, e.pid).Dropped? && !At(s, e.pid).Unlinked?
    requires !e.move.StartDelete? && forall i :: i in s.inodes ==> i < s.next
    ensures Grows(s, Take(hash, s, e), e.pid)
  {
    hide AdvancePut, Min, Grows, Local;
    if e.move.Advance? {
      PutDoes(hash, s, e.pid, e.move.n);
    } else {
      OtherDoes(hash, s, e);
    }
  }

  /** The moves that are not the next step of an operation. */
  lemma OtherDoes(hash: Bytes -> Digest, s: System, e: Event)
    requires Inodes(At(s, e.pid)) <= s.inodes.Keys && !e.move.Advance? && !e.move.StartDelete?
    requires forall i :: i in s.inodes ==> i < s.next
    ensures Local(s, Take(hash, s, e), e.pid) && Grows(s, Take(hash, s, e), e.pid)
  {
    hide Grows, Local;
    var p, q := e.pid, At(s, e.pid);
    Nothing(s, p);
    match e.move {
      case StartPut(source) =>
        if Resting(q) {
          Does(s, Fresh(s), p, PutReading(source, [], Copy(0, s.next, [], [])));
        }
      case StartGet(d, only) =>
        if Resting(q) {
          StartedGet(s, p, d, only);
        }
      case Drop(d) => Dropping(s, p, d);
      case Spill(n) =>
        if Copying(q) {
          var c := q.copy.(buffer := q.copy.buffer[Min(n, |q.copy.buffer|)..]);
          Does(s, s.(inodes := Flushed(s, q.copy, n)), p, WithCopy(q, c));
        }
      case Crash => Does(s, s, p, Crashed);
      case _ =>
    }
  }

  lemma StartedGet(s: System, p: Pid, d: Digest, only: bool)
    ensures var t := Put(s, p, if d == TOMBSTONE then Failed(d, Tombstone) else GetStarted(d, only));
            Local(s, t, p) && Grows(s, t, p)
  {
  }

  lemma Dropping(s: System, p: Pid, d: Digest)
    ensures var t := if d == TOMBSTONE then s else s.(cache := s.cache - {d}); Local(s, t, p) && Grows(s, t, p)
  {
  }

  lemma DeletingIsLocal(s: System, p: Pid, d: Digest, q: Process)
    ensures Local(s, Put(s.(cache := s.cache - {d}), p, q), p) && Local(s, Put(s, p, q), p) && Local(s, s, p)
  {
  }

  lemma StepKeeps(hash: Bytes -> Digest, s: System, e: Event)
    requires Safe(hash, s) && Undeleted(s) && Stored(s) && !e.move.StartDelete? && Inodes(At(s, e.pid)) <= s.inodes.Keys
    ensures var t := Take(hash, s, e);
      && Undeleted(t) && Stored(t) && s.backend.Keys <= t.backend.Keys && t.kind == s.kind
      && forall p, d :: Lost(At(t, p), d) ==> Lost(At(s, p), d) || s.kind.Null? || d !in s.backend
  {
    hide Take, Inodes, At, Safe;
    SafeAt(hash, s, e.pid);
    TakeGrows(hash, s, e);
  }

  /** Without deletes, what has been put stays, and no get of it can fail from then on,
      whoever removes cache entries or crashes; without collisions it returns the content. */
  lemma {:induction false} PutThenGet(hash: Bytes -> Digest, s: System, events: seq<Event>, d: Digest)
    requires Safe(hash, s) && Undeleted(s) && Stored(s) && NoDelete(events) && !s.kind.Null? && d in s.backend
    ensures var t := Run(hash, s, events);
      Undeleted(t) && Stored(t) && d in t.backend && forall q :: Lost(At(t, q), d) ==> Lost(At(s, q), d)
    decreases |events|
  {
    hide Safe, Undeleted, Stored, Lost, Take;
    if events != [] {
      StepSafe(hash, s, events[0]);
      StepKeeps(hash, s, events[0]);
      PutThenGet(hash, Take(hash, s, events[0]), events[1..], d);
    }
  }

  lemma {:induction false} RunIsStored(hash: Bytes -> Digest, s: System, events: seq<Event>)
    requires Safe(hash, s) && Undeleted(s) && Stored(s) && NoDelete(events)
    ensures Undeleted(Run(hash, s, events)) && Stored(Run(hash, s, events)) && Run(hash, s, events).kind == s.kind
    decreases |events|
  {
    hide Safe, Undeleted, Stored, Take;
    if events != [] {
      StepSafe(hash, s, events[0]);
      StepKeeps(hash, s, events[0]);
      RunIsStored(hash, Take(hash, s, events[0]), events[1..]);
    }
  }

  lemma InitialIsSafe(hash: Bytes -> Digest, kind: Kind)
    ensures Safe(hash, Initial(kind)) && Undeleted(Initial(kind)) && Stored(Initial(kind))
  {
  }

  lemma DoneIsStored(hash: Bytes -> Digest, s: System, p: Pid)
    requires Safe(hash, s) && Stored(s) && At(s, p).PutDone?
    ensures hash(At(s, p).source) == At(s, p).digest && (s.kind.Null? || At(s, p).digest in s.backend)
  {
    assert Stands(hash, s, At(s, p));
  }

  lemma GotHolds(hash: Bytes -> Digest, s: System, p: Pid)
    requires Safe(hash, s)
    ensures At(s, p).Got? ==> hash(At(s, p).content) == At(s, p).digest
  {
    assert Stands(hash, s, At(s, p));
  }

  /** The round trip: a put that finished, then any later get of its digest. */
  lemma RoundTrip(hash: Bytes -> Digest, kind: Kind, before: seq<Event>, after: seq<Event>, p: Pid, q: Pid)
    requires forall x: Bytes, y: Bytes :: hash(x) == hash(y) ==> x == y
    requires !kind.Null? && NoDelete(before) && NoDelete(after)
    ensures Safe(hash, Initial(kind))
    ensures var s := Run(hash, Initial(kind), before); var t := Run(hash, s, after);
      At(s, p).PutDone? && !Lost(At(s, q), At(s, p).digest) ==>
        && !Lost(At(t, q), At(s, p).digest)
        && (At(t, q).Got? && At(t, q).digest == At(s, p).digest ==> At(t, q).content == At(s, p).source)
  {
    hide Safe, Undeleted, Stored, Take, Stands;
    InitialIsSafe(hash, kind);
    RunIsStored(hash, Initial(kind), before);
    var s := Run(hash, Initial(kind), before);
    if At(s, p).PutDone? {
      var t := Run(hash, s, after);
      DoneIsStored(hash, s, p);
      PutThenGet(hash, s, after, At(s, p).digest);
      GotHolds(hash, t, q);
    }
  }

  // ------------------------------------------ what an operation leaves behind

  /** A get, a load or a delete of a digest that is under way or has ended. */
  predicate Concerns(q: Process) {
    q.GetStarted? || q.GetMissed? || q.GetFound? || q.GetCopying? || q.GetClosed? || q.GetOpened? || q.Reading?
    || q.Got? || q.Cached? || q.Dropped? || q.Unlinked? || q.Deleted? || q.Failed?
  }

  /** The next step of a process stays with the digest that was asked for, and what it has
      finished it has left in the cache or taken out of the backend. */
  ghost predicate Faithful(s: System, t: System, p: Pid) {
    var q, r := At(s, p), At(t, p);
    && (Concerns(q) <==> Concerns(r)) && (Concerns(q) ==> r.digest == q.digest)
    && (q.GetStarted? || q.GetMissed? || q.GetFound? || q.GetCopying? || q.GetClosed? || q.GetOpened? ==>
          r.Cached? || r.Reading? ==> r.digest in t.cache)
    && (q.PutStored? ==> r == PutDone(q.source, q.digest) && q.digest in t.cache && t.cache[q.digest] == q.tmp)
    && (q.Dropped? || q.Unlinked? ==> r.Deleted? ==> q.digest !in t.backend)
  }

  predicate Putting(q: Process) {
    q.PutReading? || q.PutHashed? || q.PutCopying? || q.PutClosed? || q.PutAbsent? || q.PutStored? || q.PutDone?
  }

  predicate Loading(q: Process) {
    q.GetStarted? || q.GetMissed? || q.GetFound? || q.GetCopying? || q.GetClosed?
  }

  predicate Deleting(q: Process) {
    q.Dropped? || q.Unlinked? || q.Deleted?
  }

  /** What the next step makes of a load. */
  lemma LoadGoesOn(s: System, p: Pid, n: nat)
    requires Inodes(At(s, p)) <= s.inodes.Keys && Loading(At(s, p))
    ensures var q, r := At(s, p), At(AdvanceGet(s, p, n), p);
      && (Loading(r) || r.Failed? || r.Cached? || r.GetOpened? || r.Reading?) && r.digest == q.digest
      && (Loading(r) ==> r.cacheOnly == q.cacheOnly) && (r.Failed? ==> r.error != Tombstone)
      && (r.Cached? ==> q.cacheOnly) && (r.GetOpened? || r.Reading? ==> !q.cacheOnly)
  {
    hide Write, Fill, Flushed, Amount, AdvanceDelete, Inodes;
    if At(s, p).GetCopying? {
      CopyGoesOn(s, p, n);
    }
  }

  lemma CopyGoesOn(s: System, p: Pid, n: nat)
    requires Inodes(At(s, p)) <= s.inodes.Keys && At(s, p).GetCopying?
    ensures var q, r := At(s, p), At(AdvanceGet(s, p, n), p);
      (r.GetCopying? || r.GetClosed?) && r.digest == q.digest && r.cacheOnly == q.cacheOnly
  {
    hide Write, Fill, Flushed, Amount, AdvanceDelete;
  }

  lemma DeleteIsFaithful(s: System, p: Pid, n: nat)
    requires Inodes(At(s, p)) <= s.inodes.Keys && (At(s, p).Dropped? || At(s, p).Unlinked?)
    ensures Faithful(s, AdvanceGet(s, p, n), p)
  {
  }

  lemma LoadIsFaithful(s: System, p: Pid, n: nat)
    requires Inodes(At(s, p)) <= s.inodes.Keys && (Loading(At(s, p)) || At(s, p).GetOpened?)
    ensures var t := AdvanceGet(s, p, n);
      (At(t, p).Cached? || At(t, p).Reading?) ==> At(s, p).digest in t.cache
  {
    hide Write, Fill, Flushed, Amount, AdvanceDelete, Inodes;
  }

  lemma ReadIsFaithful(s: System, p: Pid, n: nat)
    requires Inodes(At(s, p)) <= s.inodes.Keys && Concerns(At(s, p)) && !Loading(At(s, p)) && !Deleting(At(s, p))
    ensures var q, r := At(s, p), At(AdvanceGet(s, p, n), p);
      r.digest == q.digest && (r == q || r.Reading? || r.Got?)
  {
    hide Amount, Inodes;
  }

  lemma GetIsFaithful(s: System, p: Pid, n: nat)
    requires Inodes(At(s, p)) <= s.inodes.Keys && Concerns(At(s, p))
    ensures Faithful(s, AdvanceGet(s, p, n), p)
  {
    hide AdvanceGet, Inodes;
    var q := At(s, p);
    if q.Dropped? || q.Unlinked? {
      DeleteIsFaithful(s, p, n);
    } else if q.Deleted? {
      Ended(s, p, n);
    } else if Loading(q) {
      LoadGoesOn(s, p, n);
      LoadIsFaithful(s, p, n);
    } else {
      ReadIsFaithful(s, p, n);
      if q.GetOpened? {
        LoadIsFaithful(s, p, n);
      }
    }
  }

  lemma Ended(s: System, p: Pid, n: nat)
    requires Inodes(At(s, p)) <= s.inodes.Keys && At(s, p).Deleted?
    ensures AdvanceGet(s, p, n) == s
  {
    hide Inodes;
  }

  /** What the next step makes of a put. */
  lemma StoreGoesOn(hash: Bytes -> Digest, s: System, p: Pid, n: nat)
    requires Inodes(At(s, p)) <= s.inodes.Keys && Putting(At(s, p)) && !At(s, p).PutDone?
    ensures var r := At(AdvancePut(hash, s, p, n), p); Putting(r) && r.source == At(s, p).source
  {
    hide Write, Fill, Flushed, Amount, AdvanceGet, Inodes;
  }

  lemma PutEnds(hash: Bytes -> Digest, s: System, p: Pid, n: nat)
    requires Inodes(At(s, p)) <= s.inodes.Keys && At(s, p).PutStored?
    ensures var q := At(s, p);
            AdvancePut(hash, s, p, n) == Put(s.(cache := s.cache[q.digest := q.tmp]), p, PutDone(q.source, q.digest))
  {
    hide AdvanceGet, Inodes;
  }

  lemma NothingToDo(hash: Bytes -> Digest, s: System, p: Pid, n: nat)
    requires Inodes(At(s, p)) <= s.inodes.Keys && (At(s, p).PutDone? || At(s, p).Idle? || At(s, p).Crashed?)
    ensures AdvancePut(hash, s, p, n) == s
  {
    hide Inodes;
  }

  lemma PutIsFaithful(hash: Bytes -> Digest, s: System, p: Pid, n: nat)
    requires Inodes(At(s, p)) <= s.inodes.Keys && !Concerns(At(s, p))
    ensures Faithful(s, AdvancePut(hash, s, p, n), p)
  {
    hide AdvancePut, Inodes;
    if At(s, p).PutStored? {
      PutEnds(hash, s, p, n);
    } else if Putting(At(s, p)) && !At(s, p).PutDone? {
      StoreGoesOn(hash, s, p, n);
    } else {
      NothingToDo(hash, s, p, n);
    }
  }

  lemma AdvanceIsFaithful(hash: Bytes -> Digest, s: System, p: Pid, n: nat)
    requires Inodes(At(s, p)) <= s.inodes.Keys
    ensures Faithful(s, Take(hash, s, Event(p, Advance(n))), p)
  {
    hide AdvanceGet, Faithful, Inodes;
    if Concerns(At(s, p)) {
      GetIsFaithful(s, p, n);
    } else {
      PutIsFaithful(hash, s, p, n);
    }
  }

  // ------------------------------------------- the answer belongs to the question

  predicate Starts(m: Move) {
    m.StartPut? || m.StartGet? || m.StartDelete?
  }

  /** The process is at work on the last request it took up, or has answered that one. */
  ghost predicate Answers(q: Process, asked: Option<Move>) {
    q.Crashed? ||
    match asked
    case None => q.Idle?
    case Some(StartPut(source)) => Putting(q) && q.source == source
    case Some(StartGet(d, only)) =>
      if d == TOMBSTONE then q == Failed(d, Tombstone)
      else if Loading(q) then q.digest == d && q.cacheOnly == only
      else if q.Failed? then q.digest == d && q.error != Tombstone
      else if only then q == Cached(d)
      else (q.GetOpened? || q.Reading? || q.Got?) && q.digest == d
    case Some(StartDelete(d)) => if d == TOMBSTONE then q == Deleted(d) else Deleting(q) && q.digest == d
    case _ => false
  }

  /** The last request that process p has taken up after the event e. */
  function TakenUp(s: System, e: Event, p: Pid, asked: Option<Move>): Option<Move> {
    if e.pid == p && Starts(e.move) && Resting(At(s, p)) then Some(e.move) else asked
  }

  /** The last request that process p has taken up in a run. */
  ghost function Asked(hash: Bytes -> Digest, s: System, events: seq<Event>, p: Pid, asked: Option<Move>): Option<Move>
    requires Safe(hash, s)
    decreases |events|
  {
    if events == [] then asked
    else
      StepSafe(hash, s, events[0]);
      Asked(hash, Take(hash, s, events[0]), events[1..], p, TakenUp(s, events[0], p, asked))
  }

  lemma LoadAnswers(s: System, p: Pid, n: nat, asked: Option<Move>)
    requires Inodes(At(s, p)) <= s.inodes.Keys && Loading(At(s, p)) && Answers(At(s, p), asked)
    ensures Answers(At(AdvanceGet(s, p, n), p), asked)
  {
    hide AdvanceGet, Inodes;
    LoadGoesOn(s, p, n);
    LoadAsked(At(s, p), asked);
  }

  lemma LoadAsked(q: Process, asked: Option<Move>)
    requires Loading(q) && Answers(q, asked)
    ensures asked == Some(StartGet(q.digest, q.cacheOnly)) && q.digest != TOMBSTONE
  {
  }

  lemma GetAnswers(s: System, p: Pid, n: nat, asked: Option<Move>)
    requires Inodes(At(s, p)) <= s.inodes.Keys && Answers(At(s, p), asked)
    requires !Loading(At(s, p)) && !Deleting(At(s, p))
    ensures Answers(At(AdvanceGet(s, p, n), p), asked)
  {
    hide Write, Fill, Flushed, Amount, Inodes;
  }

  lemma DeleteAnswers(s: System, p: Pid, asked: Option<Move>)
    requires Deleting(At(s, p)) && Answers(At(s, p), asked)
    ensures Answers(At(AdvanceDelete(s, p), p), asked)
  {
  }

  lemma DeleteAdvances(hash: Bytes -> Digest, s: System, p: Pid, n: nat)
    requires Inodes(At(s, p)) <= s.inodes.Keys && Deleting(At(s, p))
    ensures AdvancePut(hash, s, p, n) == AdvanceDelete(s, p)
  {
  }

  lemma GetAdvances(hash: Bytes -> Digest, s: System, p: Pid, n: nat)
    requires Inodes(At(s, p)) <= s.inodes.Keys && (!Putting(At(s, p)) || At(s, p).PutDone?)
    ensures AdvancePut(hash, s, p, n) == AdvanceGet(s, p, n)
  {
    hide AdvanceGet, Inodes;
  }

  lemma StoreAnswers(hash: Bytes -> Digest, s: System, p: Pid, n: nat, asked: Option<Move>)
    requires Inodes(At(s, p)) <= s.inodes.Keys && Putting(At(s, p)) && !At(s, p).PutDone? && Answers(At(s, p), asked)
    ensures Answers(At(AdvancePut(hash, s, p, n), p), asked)
  {
    hide AdvancePut, Answers, Inodes;
    StoreGoesOn(hash, s, p, n);
    StoreAsked(At(s, p), asked);
    StoreAnswered(At(AdvancePut(hash, s, p, n), p), asked);
  }

  lemma StoreAsked(q: Process, asked: Option<Move>)
    requires Putting(q) && Answers(q, asked)
    ensures asked == Some(StartPut(q.source))
  {
  }

  lemma StoreAnswered(q: Process, asked: Option<Move>)
    requires Putting(q) && asked == Some(StartPut(q.source))
    ensures Answers(q, asked)
  {
  }

  lemma PutAnswers(hash: Bytes -> Digest, s: System, p: Pid, n: nat, asked: Option<Move>)
    requires Inodes(At(s, p)) <= s.inodes.Keys && Answers(At(s, p), asked)
    ensures Answers(At(AdvancePut(hash, s, p, n), p), asked)
  {
    hide Answers, AdvancePut, AdvanceGet, Inodes;
    if Loading(At(s, p)) {
      LoadAnswers(s, p, n, asked);
      GetAdvances(hash, s, p, n);
    } else if Deleting(At(s, p)) {
      DeleteAnswers(s, p, asked);
      DeleteAdvances(hash, s, p, n);
    } else if !Putting(At(s, p)) || At(s, p).PutDone? {
      GetAnswers(s, p, n, asked);
      GetAdvances(hash, s, p, n);
    } else {
      StoreAnswers(hash, s, p, n, asked);
    }
  }

  /** A process that takes up a request is at work on it. */
  lemma StartAnswers(hash: Bytes -> Digest, s: System, e: Event)
    requires Inodes(At(s, e.pid)) <= s.inodes.Keys && Starts(e.move) && Resting(At(s, e.pid))
    ensures Answers(At(Take(hash, s, e), e.pid), Some(e.move))
  {
    hide AdvancePut, Inodes;
    var p := e.pid;
    match e.move {
      case StartPut(source) => assert At(Take(hash, s, e), p) == PutReading(source, [], Copy(0, s.next, [], []));
      case StartGet(d, only) =>
        assert At(Take(hash, s, e), p) == if d == TOMBSTONE then Failed(d, Tombstone) else GetStarted(d, only);
      case StartDelete(d) => assert At(Take(hash, s, e), p) == if d == TOMBSTONE then Deleted(d) else Dropped(d);
      case _ =>
    }
  }

  lemma BusyRefuses(hash: Bytes -> Digest, s: System, e: Event)
    requires Inodes(At(s, e.pid)) <= s.inodes.Keys && Starts(e.move) && !Resting(At(s, e.pid))
    ensures Take(hash, s, e) == s
  {
    hide AdvancePut, Inodes;
  }

  lemma SpillAnswers(q: Process, c: Copy, asked: Option<Move>)
    requires Answers(q, asked)
    ensures Answers(WithCopy(q, c), asked)
  {
  }

  /** Whatever else happens to a process while it is at work. */
  lemma OtherAnswers(hash: Bytes -> Digest, s: System, e: Event, asked: Option<Move>)
    requires Inodes(At(s, e.pid)) <= s.inodes.Keys && !Starts(e.move) && !e.move.Advance?
             && Answers(At(s, e.pid), asked)
    ensures Answers(At(Take(hash, s, e), e.pid), asked)
  {
    hide AdvancePut, Flushed, WithCopy;
    if e.move.Spill? && Copying(At(s, e.pid)) {
      var q := At(s, e.pid);
      SpillAnswers(q, q.copy.(buffer := q.copy.buffer[Min(e.move.n, |q.copy.buffer|)..]), asked);
    }
  }

  lemma StepAnswers(hash: Bytes -> Digest, s: System, e: Event, p: Pid, asked: Option<Move>)
    requires Safe(hash, s) && Inodes(At(s, e.pid)) <= s.inodes.Keys && Answers(At(s, p), asked)
    ensures Answers(At(Take(hash, s, e), p), TakenUp(s, e, p, asked))
  {
    hide Safe, Take, Answers, Local, Inodes;
    if e.pid != p {
      OnlyWrites(hash, s, e);
      OthersStay(s, Take(hash, s, e), e.pid, p);
    } else if e.move.Advance? {
      PutAnswers(hash, s, p, e.move.n, asked);
      TakeAdvances(hash, s, e);
    } else if Starts(e.move) {
      if Resting(At(s, p)) {
        StartAnswers(hash, s, e);
      } else {
        BusyRefuses(hash, s, e);
      }
    } else {
      OtherAnswers(hash, s, e, asked);
    }
  }

  lemma TakeAdvances(hash: Bytes -> Digest, s: System, e: Event)
    requires Inodes(At(s, e.pid)) <= s.inodes.Keys && e.move.Advance?
    ensures Take(hash, s, e) == AdvancePut(hash, s, e.pid, e.move.n)
  {
    hide AdvancePut, Inodes;
  }

  lemma OthersStay(s: System, t: System, p: Pid, q: Pid)
    requires Local(s, t, p) && q != p
    ensures At(t, q) == At(s, q)
  {
  }

  /** However the processes interleave, a process that has an answer has the answer to the
      last request it took up: the digest it asked for, and content only when it asked for
      content; a get of the tombstone has failed and a delete of it has ended on the spot. */
  lemma {:induction false} RunAnswers(hash: Bytes -> Digest, s: System, events: seq<Event>, p: Pid, asked: Option<Move>)
    requires Safe(hash, s) && Answers(At(s, p), asked)
    ensures Answers(At(Run(hash, s, events), p), Asked(hash, s, events, p, asked))
    decreases |events|
  {
    hide Safe, Answers, Take, TakenUp, Inodes;
    if events != [] {
      var e := events[0];
      StepSafe(hash, s, e);
      SafeAt(hash, s, e.pid);
      StepAnswers(hash, s, e, p, asked);
      RunAnswers(hash, Take(hash, s, e), events[1..], p, TakenUp(s, e, p, asked));
    }
  }

  /** Along any run, a request for the tombstone never gets as far as the cache or the
      backend, and nothing is ever stored under it. */
  lemma TombstoneStaysOut(hash: Bytes -> Digest, kind: Kind, events: seq<Event>, p: Pid)
    requires forall x: Bytes :: hash(x) != TOMBSTONE
    ensures Safe(hash, Initial(kind))
    ensures var s := Run(hash, Initial(kind), events);
      && TOMBSTONE !in s.cache && TOMBSTONE !in s.backend
      && (Concerns(At(s, p)) && At(s, p).digest == TOMBSTONE ==>
            At(s, p) == Failed(TOMBSTONE, Tombstone) || At(s, p) == Deleted(TOMBSTONE))
  {
    hide Safe, Asked;
    InitialIsSafe(hash, kind);
    RunAnswers(hash, Initial(kind), events, p, None);
    SafeIsStored(hash, Run(hash, Initial(kind), events), TOMBSTONE);
  }

  lemma SafeIsStored(hash: Bytes -> Digest, s: System, d: Digest)
    requires Safe(hash, s)
    ensures d in s.cache || d in s.backend ==> exists x: Bytes :: hash(x) == d
  {
    if d in s.cache {
      assert Holds(hash, s, d, s.cache[d]);
    } else if d in s.backend {
      assert Holds(hash, s, d, s.backend[d]);
    }
  }

  // ------------------------------------------------------- what a delete leaves

  /** The process may still put a file under the digest d. */
  ghost predicate Brings(hash: Bytes -> Digest, q: Process, d: Digest) {
    if q.PutReading? then hash(q.source) == d
    else (Putting(q) || Loading(q) || q.GetOpened?) && !q.PutDone? && q.digest == d
  }

  ghost predicate NobodyBrings(hash: Bytes -> Digest, s: System, d: Digest) {
    forall p :: !Brings(hash, At(s, p), d)
  }

  /** No put or get of d starts. */
  ghost predicate Spares(hash: Bytes -> Digest, m: Move, d: Digest) {
    match m
    case StartPut(source) => hash(source) != d
    case StartGet(e, _) => e != d
    case _ => true
  }

  /** d is out of the cache, and out of the backend when process p has deleted it. */
  ghost predicate Away(s: System, p: Pid, d: Digest) {
    d !in s.cache && (At(s, p) == Deleted(d) ==> d !in s.backend)
  }

  /** A step of process p that does not bring d back. */
  ghost predicate Withholds(hash: Bytes -> Digest, s: System, t: System, p: Pid, d: Digest) {
    && (d in t.cache ==> d in s.cache) && (d in t.backend ==> d in s.backend)
    && !Brings(hash, At(t, p), d)
    && (At(t, p) == Deleted(d) ==> d !in t.backend || At(s, p) == Deleted(d) || d == TOMBSTONE)
  }

  lemma LoadWithholds(hash: Bytes -> Digest, s: System, p: Pid, n: nat, d: Digest)
    requires Inodes(At(s, p)) <= s.inodes.Keys && Loading(At(s, p)) && At(s, p).digest != d
    ensures Withholds(hash, s, AdvanceGet(s, p, n), p, d)
  {
    hide Write, Fill, Flushed, Amount, AdvanceDelete, Withholds, Inodes;
    LoadGoesOn(s, p, n);
    var t := AdvanceGet(s, p, n);
    Withheld(hash, s, t, p, At(t, p), d);
  }

  lemma GetWithholds(hash: Bytes -> Digest, s: System, p: Pid, n: nat, d: Digest)
    requires Inodes(At(s, p)) <= s.inodes.Keys && !Deleting(At(s, p)) && !Loading(At(s, p))
             && !Brings(hash, At(s, p), d)
    ensures Withholds(hash, s, AdvanceGet(s, p, n), p, d)
  {
    hide Amount, AdvanceDelete, Withholds, Inodes;
    NothingToDelete(s, p);
    var t := AdvanceGet(s, p, n);
    Withheld(hash, s, t, p, At(t, p), d);
  }

  lemma NothingToDelete(s: System, p: Pid)
    requires !Deleting(At(s, p))
    ensures AdvanceDelete(s, p) == s
  {
  }

  lemma DeleteWithholds(hash: Bytes -> Digest, s: System, p: Pid, d: Digest)
    requires Deleting(At(s, p))
    ensures Withholds(hash, s, AdvanceDelete(s, p), p, d)
  {
  }

  lemma PutWithholds(hash: Bytes -> Digest, s: System, p: Pid, n: nat, d: Digest)
    requires Inodes(At(s, p)) <= s.inodes.Keys && Stands(hash, s, At(s, p)) && !Brings(hash, At(s, p), d)
    ensures Withholds(hash, s, AdvancePut(hash, s, p, n), p, d)
  {
    hide Write, Fill, Flushed, Amount, AdvanceGet, Copied, Holds;
    var q := At(s, p);
    if Deleting(q) {
      DeleteWithholds(hash, s, p, d);
      DeleteAdvances(hash, s, p, n);
    } else if Loading(q) {
      LoadWithholds(hash, s, p, n, d);
      GetAdvances(hash, s, p, n);
    } else if !Putting(q) || q.PutDone? {
      GetWithholds(hash, s, p, n, d);
      GetAdvances(hash, s, p, n);
    } else if q.PutReading? {
      assert q.copy.pos == |q.source| ==> q.fed == q.source;
    }
  }

  lemma StepWithholds(hash: Bytes -> Digest, s: System, e: Event, d: Digest)
    requires Inodes(At(s, e.pid)) <= s.inodes.Keys && Stands(hash, s, At(s, e.pid)) && !Brings(hash, At(s, e.pid), d)
    requires Spares(hash, e.move, d)
    ensures Withholds(hash, s, Take(hash, s, e), e.pid, d)
  {
    hide AdvancePut, Withholds, Flushed, Min, Stands, Inodes;
    if e.move.Advance? {
      PutWithholds(hash, s, e.pid, e.move.n, d);
    } else {
      OtherWithholds(hash, s, e, d);
    }
  }

  lemma OtherWithholds(hash: Bytes -> Digest, s: System, e: Event, d: Digest)
    requires Inodes(At(s, e.pid)) <= s.inodes.Keys && !Brings(hash, At(s, e.pid), d)
    requires !e.move.Advance? && Spares(hash, e.move, d)
    ensures Withholds(hash, s, Take(hash, s, e), e.pid, d)
  {
    hide AdvancePut, Withholds, Flushed;
    var p, q := e.pid, At(s, e.pid);
    Withheld(hash, s, s, p, q, d);
    match e.move {
      case StartPut(source) => Withheld(hash, s, Fresh(s), p, PutReading(source, [], Copy(0, s.next, [], [])), d);
      case StartGet(c, only) =>
        Withheld(hash, s, s, p, if c == TOMBSTONE then Failed(c, Tombstone) else GetStarted(c, only), d);
      case StartDelete(c) =>
        if c == TOMBSTONE {
          Withheld(hash, s, s, p, Deleted(c), d);
        } else {
          Withheld(hash, s, s.(cache := s.cache - {c}), p, Dropped(c), d);
        }
      case Drop(c) => Withheld(hash, s, s.(cache := s.cache - {c}), p, q, d);
      case Spill(n) =>
        if Copying(q) {
          var c := q.copy.(buffer := q.copy.buffer[Min(n, |q.copy.buffer|)..]);
          Withheld(hash, s, s.(inodes := Flushed(s, q.copy, n)), p, WithCopy(q, c), d);
        }
      case Crash => Withheld(hash, s, s, p, Crashed, d);
      case _ =>
    }
  }

  lemma Withheld(hash: Bytes -> Digest, s: System, u: System, p: Pid, q: Process, d: Digest)
    requires (d in u.cache ==> d in s.cache) && (d in u.backend ==> d in s.backend) && !Brings(hash, q, d)
    requires q == Deleted(d) ==> d !in u.backend || At(s, p) == Deleted(d) || d == TOMBSTONE
    ensures Withholds(hash, s, Put(u, p, q), p, d)
    ensures q == At(u, p) ==> Withholds(hash, s, u, p, d)
  {
  }

  lemma StepStaysAway(hash: Bytes -> Digest, s: System, e: Event, p: Pid, d: Digest)
    requires Safe(hash, s) && Inodes(At(s, e.pid)) <= s.inodes.Keys && d != TOMBSTONE
    requires NobodyBrings(hash, s, d) && Spares(hash, e.move, d) && Away(s, p, d)
    ensures var t := Take(hash, s, e); NobodyBrings(hash, t, d) && Away(t, p, d)
  {
    hide Safe, Take, Spares, Brings, Inodes, Stands;
    SafeStands(hash, s, e.pid);
    StepWithholds(hash, s, e, d);
    OnlyWrites(hash, s, e);
  }

  lemma SafeStands(hash: Bytes -> Digest, s: System, p: Pid)
    requires Safe(hash, s) && Inodes(At(s, p)) <= s.inodes.Keys
    ensures Stands(hash, s, At(s, p))
  {
  }

  lemma {:induction false} RunStaysAway(hash: Bytes -> Digest, s: System, events: seq<Event>, p: Pid, d: Digest)
    requires Safe(hash, s) && d != TOMBSTONE && NobodyBrings(hash, s, d) && Away(s, p, d)
    requires forall i :: 0 <= i < |events| ==> Spares(hash, events[i].move, d)
    ensures var t := Run(hash, s, events); NobodyBrings(hash, t, d) && Away(t, p, d)
    decreases |events|
  {
    hide Safe, Take, Spares, NobodyBrings, Away, Inodes;
    if events != [] {
      StepSafe(hash, s, events[0]);
      SafeAt(hash, s, events[0].pid);
      StepStaysAway(hash, s, events[0], p, d);
      RunStaysAway(hash, Take(hash, s, events[0]), events[1..], p, d);
    }
  }

  /** A delete that has ended leaves the digest in neither the cache nor the backend, and it
      stays away, whatever all the processes do in between and afterwards with other digests. */
  lemma DeleteForgets(hash: Bytes -> Digest, s: System, p: Pid, d: Digest, events: seq<Event>)
    requires Safe(hash, s) && d != TOMBSTONE && Resting(At(s, p)) && NobodyBrings(hash, s, d)
    requires forall i :: 0 <= i < |events| ==> Spares(hash, events[i].move, d)
    ensures var t := Run(hash, s, [Event(p, StartDelete(d))] + events);
      d !in t.cache && (At(t, p) == Deleted(d) ==> d !in t.backend)
  {
    hide Safe, Spares, Brings, Inodes;
    var e := Event(p, StartDelete(d));
    StepSafe(hash, s, e);
    SafeAt(hash, s, p);
    StartedDelete(hash, s, p, d);
    RunStaysAway(hash, Take(hash, s, e), events, p, d);
    assert ([e] + events)[1..] == events;
  }

  lemma StartedDelete(hash: Bytes -> Digest, s: System, p: Pid, d: Digest)
    requires Inodes(At(s, p)) <= s.inodes.Keys && d != TOMBSTONE && Resting(At(s, p)) && NobodyBrings(hash, s, d)
    ensures var t := Take(hash, s, Event(p, StartDelete(d))); NobodyBrings(hash, t, d) && Away(t, p, d)
  {
    var t := Take(hash, s, Event(p, StartDelete(d)));
    assert At(t, p) == Dropped(d) && forall q :: q != p ==> At(t, q) == At(s, q);
  }

  // ------------------------------------------------- a delete that breaks off

  /** The database has a row for d whose large object is gone, nobody is deleting or loading d,
      and whoever has found the row has found this one. */
  ghost predicate Broken(s: System, d: Digest) {
    && s.kind.Database? && d in s.backend && s.backend[d] in s.gone
    && forall p :: Stuck(s, At(s, p), d)
  }

  ghost predicate Stuck(s: System, q: Process, d: Digest) {
    && !q.PutAbsent? && (q.Dropped? || q.Unlinked? ==> q.digest != d)
    && (q.GetCopying? || q.GetClosed? || q.GetOpened? ==> q.digest != d)
    && (q.GetFound? && q.digest == d ==> q.row in s.gone)
  }

  /** What a step of p leaves of the row. */
  ghost predicate KeepsRow(s: System, t: System, p: Pid, d: Digest) {
    && t.kind == s.kind && d in s.backend && d in t.backend && t.backend[d] == s.backend[d] && s.gone <= t.gone
    && Stuck(t, At(t, p), d)
  }

  lemma RowKept(s: System, u: System, p: Pid, q: Process, d: Digest)
    requires d in s.backend && u.kind == s.kind && d in u.backend && u.backend[d] == s.backend[d] && s.gone <= u.gone
    requires Stuck(u, q, d)
    ensures KeepsRow(s, Put(u, p, q), p, d)
    ensures At(u, p) == q ==> KeepsRow(s, u, p, d)
  {
  }

  lemma LoadKeepsRow(s: System, p: Pid, n: nat, d: Digest)
    requires Broken(s, d) && Inodes(At(s, p)) <= s.inodes.Keys && Loading(At(s, p))
    ensures KeepsRow(s, AdvanceGet(s, p, n), p, d)
  {
    hide Write, Fill, Flushed, Amount, AdvanceDelete, Inodes;
    assert Stuck(s, At(s, p), d);
  }

  lemma ReadKeepsRow(s: System, p: Pid, n: nat, d: Digest)
    requires Broken(s, d) && Inodes(At(s, p)) <= s.inodes.Keys && !Loading(At(s, p)) && !Deleting(At(s, p))
    ensures KeepsRow(s, AdvanceGet(s, p, n), p, d)
  {
    hide Amount, Inodes;
    assert Stuck(s, At(s, p), d);
  }

  lemma DeleteKeepsRow(s: System, p: Pid, d: Digest)
    requires Broken(s, d) && Deleting(At(s, p))
    ensures KeepsRow(s, AdvanceDelete(s, p), p, d)
  {
    assert Stuck(s, At(s, p), d);
  }

  lemma StoreKeepsRow(hash: Bytes -> Digest, s: System, p: Pid, n: nat, d: Digest)
    requires Broken(s, d) && Inodes(At(s, p)) <= s.inodes.Keys && Putting(At(s, p)) && !At(s, p).PutDone?
    ensures KeepsRow(s, AdvancePut(hash, s, p, n), p, d)
  {
    hide Write, Fill, Flushed, Amount, AdvanceGet, Inodes;
    assert Stuck(s, At(s, p), d);
  }

  lemma OtherKeepsRow(hash: Bytes -> Digest, s: System, e: Event, d: Digest)
    requires Broken(s, d) && Inodes(At(s, e.pid)) <= s.inodes.Keys && !e.move.Advance?
    requires e.move.StartDelete? ==> e.move.digest != d
    ensures KeepsRow(s, Take(hash, s, e), e.pid, d)
  {
    hide AdvancePut, Flushed, KeepsRow;
    var p, q := e.pid, At(s, e.pid);
    assert Stuck(s, q, d);
    RowKept(s, s, p, q, d);
    match e.move {
      case StartPut(source) => RowKept(s, Fresh(s), p, PutReading(source, [], Copy(0, s.next, [], [])), d);
      case StartGet(c, only) =>
        RowKept(s, s, p, if c == TOMBSTONE then Failed(c, Tombstone) else GetStarted(c, only), d);
      case StartDelete(c) =>
        RowKept(s, s, p, Deleted(c), d);
        RowKept(s, s.(cache := s.cache - {c}), p, Dropped(c), d);
      case Drop(c) => RowKept(s, s.(cache := s.cache - {c}), p, q, d);
      case Spill(n) =>
        if Copying(q) {
          var c := q.copy.(buffer := q.copy.buffer[Min(n, |q.copy.buffer|)..]);
          RowKept(s, s.(inodes := Flushed(s, q.copy, n)), p, WithCopy(q, c), d);
        }
      case Crash => RowKept(s, s, p, Crashed, d);
      case _ =>
    }
  }

  lemma StepKeepsRow(hash: Bytes -> Digest, s: System, e: Event, d: Digest)
    requires Broken(s, d) && Inodes(At(s, e.pid)) <= s.inodes.Keys
    requires e.move.StartDelete? ==> e.move.digest != d
    ensures KeepsRow(s, Take(hash, s, e), e.pid, d)
  {
    hide Take, AdvancePut, AdvanceGet, AdvanceDelete, KeepsRow, Broken, Inodes;
    var p, q := e.pid, At(s, e.pid);
    if e.move.Advance? {
      TakeAdvances(hash, s, e);
      if Deleting(q) {
        DeleteAdvances(hash, s, p, e.move.n);
        DeleteKeepsRow(s, p, d);
      } else if Putting(q) && !q.PutDone? {
        StoreKeepsRow(hash, s, p, e.move.n, d);
      } else {
        GetAdvances(hash, s, p, e.move.n);
        if Loading(q) {
          LoadKeepsRow(s, p, e.move.n, d);
        } else {
          ReadKeepsRow(s, p, e.move.n, d);
        }
      }
    } else {
      OtherKeepsRow(hash, s, e, d);
    }
  }

  lemma StillBroken(s: System, t: System, p: Pid, d: Digest)
    requires Broken(s, d) && KeepsRow(s, t, p, d) && Local(s, t, p)
    ensures Broken(t, d)
  {
    forall q
      ensures Stuck(t, At(t, q), d)
    {
      assert Stuck(s, At(s, q), d);
    }
  }

  /** A row whose large object is gone is repaired by nothing but another delete: no get loads d
      from the backend, and puts of d end without storing it, in every run. */
  lemma {:induction false} BrokenRowStays(hash: Bytes -> Digest, s: System, events: seq<Event>, d: Digest)
    requires Safe(hash, s) && Broken(s, d)
    requires forall i :: 0 <= i < |events| && events[i].move.StartDelete? ==> events[i].move.digest != d
    ensures Broken(Run(hash, s, events), d) && Run(hash, s, events).backend[d] == s.backend[d]
    decreases |events|
  {
    hide Safe, Take, Stuck, Inodes, Local;
    if events != [] {
      var e := events[0];
      SafeAt(hash, s, e.pid);
      StepSafe(hash, s, e);
      StepKeepsRow(hash, s, e, d);
      OnlyWrites(hash, s, e);
      StillBroken(s, Take(hash, s, e), e.pid, d);
      BrokenRowStays(hash, Take(hash, s, e), events[1..], d);
    }
  }

  /** A delete that crashes after it has unlinked the large object leaves such a row. */
  lemma DeleteBreaksOff(hash: Bytes -> Digest, s: System, p: Pid, n: nat, d: Digest)
    requires Safe(hash, s) && s.kind.Database? && d in s.backend && At(s, p) == Dropped(d)
    requires forall q :: q != p ==> Stuck(s, At(s, q), d)
    ensures Broken(Run(hash, s, [Event(p, Advance(n)), Event(p, Crash)]), d)
  {
    hide Safe, Inodes, AdvanceGet, Stuck;
    var e, f := Event(p, Advance(n)), Event(p, Crash);
    SafeAt(hash, s, p);
    StepSafe(hash, s, e);
    TakeAdvances(hash, s, e);
    DeleteAdvances(hash, s, p, n);
    var t := Take(hash, s, e);
    assert t == Put(s.(gone := s.gone + {s.backend[d]}), p, Unlinked(d));
    SafeAt(hash, t, p);
    StepSafe(hash, t, f);
    assert [e, f][1..] == [f] && [f][1..] == [];
    assert Run(hash, t, [f]) == Take(hash, t, f) == Put(t, p, Crashed);
    CrashBreaks(s, p, d);
  }

  lemma CrashBreaks(s: System, p: Pid, d: Digest)
    requires s.kind.Database? && d in s.backend && forall q :: q != p ==> Stuck(s, At(s, q), d)
    ensures Broken(Put(Put(s.(gone := s.gone + {s.backend[d]}), p, Unlinked(d)), p, Crashed), d)
  {
    hide Stuck;
    var u := Put(Put(s.(gone := s.gone + {s.backend[d]}), p, Unlinked(d)), p, Crashed);
    forall q
      ensures Stuck(u, At(u, q), d)
    {
      assert At(u, q) == if q == p then Crashed else At(s, q);
      StuckLater(s, u, At(u, q), d);
    }
  }

  lemma StuckLater(s: System, t: System, q: Process, d: Digest)
    requires s.gone <= t.gone
    ensures Stuck(s, q, d) || q.Crashed? ==> Stuck(t, q, d)
  {
  }

  lemma OnlyWrites(hash: Bytes -> Digest, s: System, e: Event)
    requires Safe(hash, s) && Inodes(At(s, e.pid)) <= s.inodes.Keys
    ensures Local(s, Take(hash, s, e), e.pid)
  {
    hide Safe, AdvancePut, Local, Grows;
    SafeAt(hash, s, e.pid);
    var q := At(s, e.pid);
    if e.move.Advance? {
      if q.Dropped? || q.Unlinked? {
        DeleteIsLocal(hash, s, e.pid, e.move.n);
      } else {
        PutDoes(hash, s, e.pid, e.move.n);
      }
    } else if e.move.StartDelete? {
      DeletingIsLocal(s, e.pid, e.move.digest, Dropped(e.move.digest));
      DeletingIsLocal(s, e.pid, e.move.digest, Deleted(e.move.digest));
    } else {
      OtherDoes(hash, s, e);
    }
  }

  lemma DeleteIsLocal(hash: Bytes -> Digest, s: System, p: Pid, n: nat)
    requires (At(s, p).Dropped? || At(s, p).Unlinked?)
    ensures Local(s, AdvancePut(hash, s, p, n), p)
  {
  }
}
