/** Every operation on the file cache ends: however little a read or write moves, and whatever
    the other processes do in between. */
module CacheEnds {
  import opened Basics
  import opened FileCacher
  import opened CacheRuns

  // ------------------------------------------------------------- no loop spins

  /** How many steps of another kind are still to come. */
  function Stage(q: Process): nat {
    match q
    case PutReading(_, _, _) => 9
    case PutHashed(_, _, _) => 8
    case PutCopying(_, _, _, _) => 7
    case PutClosed(_, _, _, _) => 6
    case PutAbsent(_, _, _, _) => 5
    case PutStored(_, _, _) => 4
    case GetStarted(_, _) => 9
    case GetMissed(_, _) => 8
    case GetFound(_, _, _) => 7
    case GetCopying(_, _, _, _) => 6
    case GetClosed(_, _, _) => 5
    case GetOpened(_, _) => 4
    case Reading(_, _, _) => 3
    case Dropped(_) => 2
    case Unlinked(_) => 1
    case _ => 0
  }

  /** What the loop that the process is in has still to read and write. */
  function Left(s: System, q: Process): int
    requires Inodes(q) <= s.inodes.Keys
  {
    if Copying(q) then 2 * (|Original(s, q)| - q.copy.pos) + |q.copy.pending|
    else if q.Reading? then |s.inodes[q.fd]| - |q.got|
    else 0
  }

  /** However little a read or write moves, every step of a process that is busy brings it
      nearer to its end. */
  ghost predicate Lower(s: System, t: System, p: Pid) {
    && Inodes(At(s, p)) <= s.inodes.Keys && Inodes(At(t, p)) <= t.inodes.Keys
    && (|| Stage(At(t, p)) < Stage(At(s, p))
        || (Stage(At(t, p)) == Stage(At(s, p)) && 0 <= Left(t, At(t, p)) < Left(s, At(s, p))))
  }

  lemma AdvanceLowers(hash: Bytes -> Digest, s: System, p: Pid, n: nat)
    requires Safe(hash, s) && Inodes(At(s, p)) <= s.inodes.Keys && Stage(At(s, p)) > 0
    ensures Lower(s, Take(hash, s, Event(p, Advance(n))), p)
  {
    hide Safe, Stands, Flushed;
    StepSafe(hash, s, Event(p, Advance(n)));
    var t := Take(hash, s, Event(p, Advance(n)));
    SafeAt(hash, s, p);
    SafeAt(hash, t, p);
    if Copying(At(s, p)) {
      CopyLowers(hash, s, p, n);
    } else {
      assert Stands(hash, s, At(s, p));
      ReadingLowers(hash, s, p, n);
    }
  }

  lemma CopyLowers(hash: Bytes -> Digest, s: System, p: Pid, n: nat)
    requires Safe(hash, s) && Inodes(At(s, p)) <= s.inodes.Keys && Copying(At(s, p))
    ensures Lower(s, AdvancePut(hash, s, p, n), p)
  {
    hide Safe, Lower, AdvancePut, Inodes, Stands;
    SafeStands(hash, s, p);
    match At(s, p) {
      case PutReading(_, _, _) => ReadingCopyLowers(hash, s, p, n);
      case PutCopying(_, _, _, _) => StoringCopyLowers(hash, s, p, n);
      case GetCopying(_, _, _, _) => LoadingCopyLowers(hash, s, p, n);
      case _ =>
    }
  }

  lemma ReadingCopyLowers(hash: Bytes -> Digest, s: System, p: Pid, n: nat)
    requires Inodes(At(s, p)) <= s.inodes.Keys && At(s, p).PutReading? && Stands(hash, s, At(s, p))
    ensures Lower(s, AdvancePut(hash, s, p, n), p)
  {
    hide AdvanceGet, Copied;
  }

  lemma StoringCopyLowers(hash: Bytes -> Digest, s: System, p: Pid, n: nat)
    requires Inodes(At(s, p)) <= s.inodes.Keys && At(s, p).PutCopying? && Stands(hash, s, At(s, p))
    ensures Lower(s, AdvancePut(hash, s, p, n), p)
  {
    hide AdvanceGet;
  }

  lemma LoadingCopyLowers(hash: Bytes -> Digest, s: System, p: Pid, n: nat)
    requires Inodes(At(s, p)) <= s.inodes.Keys && At(s, p).GetCopying? && Stands(hash, s, At(s, p))
    ensures Lower(s, AdvancePut(hash, s, p, n), p)
  {
    hide AdvanceDelete;
  }

  lemma ReadingLowers(hash: Bytes -> Digest, s: System, p: Pid, n: nat)
    requires Safe(hash, s) && Inodes(At(s, p)) <= s.inodes.Keys && !Copying(At(s, p)) && Stage(At(s, p)) > 0
    ensures Lower(s, AdvancePut(hash, s, p, n), p)
  {
    hide Safe, Left, Stands, Inodes, AdvancePut, AdvanceGet;
    StepSafe(hash, s, Event(p, Advance(n)));
    SafeAt(hash, AdvancePut(hash, s, p, n), p);
    var q := At(s, p);
    if q.Reading? {
      ChunkLowers(hash, s, p, n);
    } else {
      StageLowers(hash, s, p, n);
    }
  }

  lemma ChunkLowers(hash: Bytes -> Digest, s: System, p: Pid, n: nat)
    requires Inodes(At(s, p)) <= s.inodes.Keys && At(s, p).Reading?
    ensures var t := AdvancePut(hash, s, p, n); Inodes(At(t, p)) <= t.inodes.Keys ==> Lower(s, t, p)
  {
  }

  lemma StageLowers(hash: Bytes -> Digest, s: System, p: Pid, n: nat)
    requires Inodes(At(s, p)) <= s.inodes.Keys && !Copying(At(s, p)) && !At(s, p).Reading? && Stage(At(s, p)) > 0
    ensures Stage(At(AdvancePut(hash, s, p, n), p)) < Stage(At(s, p))
  {
    hide AdvanceGet;
    var q := At(s, p);
    if !q.PutHashed? && !q.PutClosed? && !q.PutAbsent? && !q.PutStored? {
      StageGetLowers(s, p, n);
    }
  }

  lemma StageGetLowers(s: System, p: Pid, n: nat)
    requires Inodes(At(s, p)) <= s.inodes.Keys && !Copying(At(s, p)) && !At(s, p).Reading? && Stage(At(s, p)) > 0
    requires !At(s, p).PutHashed? && !At(s, p).PutClosed? && !At(s, p).PutAbsent? && !At(s, p).PutStored?
    ensures Stage(At(AdvanceGet(s, p, n), p)) < Stage(At(s, p))
  {
    hide Inodes, AdvanceDelete;
    if At(s, p).Dropped? || At(s, p).Unlinked? {
      StageDeleteLowers(s, p, n);
    }
  }

  lemma StageDeleteLowers(s: System, p: Pid, n: nat)
    requires Inodes(At(s, p)) <= s.inodes.Keys && (At(s, p).Dropped? || At(s, p).Unlinked?)
    ensures AdvanceGet(s, p, n) == AdvanceDelete(s, p) && Stage(At(AdvanceDelete(s, p), p)) < Stage(At(s, p))
  {
    hide Inodes;
  }

  /** And nobody else can set it back. */
  lemma OthersDoNotRaise(hash: Bytes -> Digest, s: System, e: Event, p: Pid)
    requires Safe(hash, s) && Inodes(At(s, e.pid)) <= s.inodes.Keys && p != e.pid
    ensures var t := Take(hash, s, e);
      && At(t, p) == At(s, p) && Inodes(At(t, p)) <= t.inodes.Keys && Inodes(At(s, p)) <= s.inodes.Keys
      && Left(t, At(t, p)) == Left(s, At(s, p))
  {
    hide Take, Stands, Holds;
    OnlyWrites(hash, s, e);
    assert forall i :: i in Inodes(At(s, p)) ==> i in s.inodes && i !in Writes(At(s, e.pid));
  }

  // -------------------------------------------------------- every request ends

  /** A schedule: whatever the others do before each step of process p, and how far that step
      of p can get. */
  datatype Schedule = Schedule(others: nat -> seq<Event>, pace: nat -> nat)

  /** The others are not p. */
  ghost predicate Apart(plan: Schedule, p: Pid) {
    forall i: nat, j :: 0 <= j < |plan.others(i)| ==> plan.others(i)[j].pid != p
  }

  function Round(plan: Schedule, p: Pid, i: nat): seq<Event> {
    plan.others(i) + [Event(p, Advance(plan.pace(i)))]
  }

  /** The events of m rounds from round i on. */
  function Rounds(plan: Schedule, p: Pid, i: nat, m: nat): seq<Event>
    decreases m
  {
    if m == 0 then [] else Round(plan, p, i) + Rounds(plan, p, i + 1, m - 1)
  }

  lemma {:induction false} RunOn(hash: Bytes -> Digest, s: System, a: seq<Event>, b: seq<Event>)
    requires Safe(hash, s)
    ensures Run(hash, s, a + b) == Run(hash, Run(hash, s, a), b)
    decreases |a|
  {
    hide Safe, Take;
    if a == [] {
      assert a + b == b;
    } else {
      assert (a + b)[1..] == a[1..] + b;
      StepSafe(hash, s, a[0]);
      RunOn(hash, Take(hash, s, a[0]), a[1..], b);
    }
  }

  ghost predicate NotBy(events: seq<Event>, p: Pid) {
    forall j :: 0 <= j < |events| ==> events[j].pid != p
  }

  /** Whatever the others do, p stays where it is, with as much still to do. */
  lemma {:induction false} OthersRun(hash: Bytes -> Digest, s: System, events: seq<Event>, p: Pid)
    requires Safe(hash, s) && NotBy(events, p)
    ensures var t := Run(hash, s, events);
      && At(t, p) == At(s, p) && Inodes(At(s, p)) <= s.inodes.Keys && Inodes(At(t, p)) <= t.inodes.Keys
      && Left(t, At(t, p)) == Left(s, At(s, p))
    decreases |events|
  {
    hide Safe, Take, Left, Inodes;
    SafeAt(hash, s, p);
    if events != [] {
      var e := events[0];
      SafeAt(hash, s, e.pid);
      StepSafe(hash, s, e);
      OthersDoNotRaise(hash, s, e, p);
      OthersRun(hash, Take(hash, s, e), events[1..], p);
    }
  }

  /** One round: the others, then a step of p. */
  lemma RoundLowers(hash: Bytes -> Digest, s: System, plan: Schedule, p: Pid, i: nat)
    requires Safe(hash, s) && Apart(plan, p) && Stage(At(s, p)) > 0
    ensures Lower(s, Run(hash, s, Round(plan, p, i)), p)
  {
    hide Safe, Take, Left, Inodes, Stage;
    var e := Event(p, Advance(plan.pace(i)));
    var t := Run(hash, s, plan.others(i));
    OthersRun(hash, s, plan.others(i), p);
    RunOn(hash, s, plan.others(i), [e]);
    StepSafe(hash, t, e);
    AdvanceLowers(hash, t, p, plan.pace(i));
    assert [e][1..] == [];
    assert Run(hash, t, [e]) == Take(hash, t, e);
  }

  /** However the processes are scheduled, some number of its own steps brings p to rest. */
  lemma {:induction false} ComesToRest(hash: Bytes -> Digest, s: System, plan: Schedule, p: Pid, i: nat)
    returns (m: nat)
    requires Safe(hash, s) && Apart(plan, p) && Inodes(At(s, p)) <= s.inodes.Keys
    ensures Stage(At(Run(hash, s, Rounds(plan, p, i, m)), p)) == 0
    decreases Stage(At(s, p)), Left(s, At(s, p))
  {
    hide Safe, Left, Inodes, Stage, Apart;
    if Stage(At(s, p)) == 0 {
      m := 0;
    } else {
      var t := Run(hash, s, Round(plan, p, i));
      RoundLowers(hash, s, plan, p, i);
      var more := ComesToRest(hash, t, plan, p, i + 1);
      m := more + 1;
      RunOn(hash, s, Round(plan, p, i), Rounds(plan, p, i + 1, more));
    }
  }

  /** p takes steps of its own operations only. */
  ghost predicate OnlyAdvances(events: seq<Event>, p: Pid) {
    forall j :: 0 <= j < |events| && events[j].pid == p ==> events[j].move.Advance?
  }

  lemma OnlyAdvancesBoth(a: seq<Event>, b: seq<Event>, p: Pid)
    requires OnlyAdvances(a, p) && OnlyAdvances(b, p)
    ensures OnlyAdvances(a + b, p)
  {
  }

  lemma {:induction false} RoundsOnlyAdvance(plan: Schedule, p: Pid, i: nat, m: nat)
    requires Apart(plan, p)
    ensures OnlyAdvances(Rounds(plan, p, i, m), p)
    decreases m
  {
    if m > 0 {
      RoundsOnlyAdvance(plan, p, i + 1, m - 1);
      OnlyAdvancesBoth(plan.others(i), [Event(p, Advance(plan.pace(i)))], p);
      OnlyAdvancesBoth(Round(plan, p, i), Rounds(plan, p, i + 1, m - 1), p);
    }
  }

  lemma AdvanceDoesNotCrash(hash: Bytes -> Digest, s: System, p: Pid, n: nat)
    requires Inodes(At(s, p)) <= s.inodes.Keys && !At(s, p).Crashed?
    ensures !At(Take(hash, s, Event(p, Advance(n))), p).Crashed?
  {
    hide Take, AdvancePut, Inodes;
    TakeAdvances(hash, s, Event(p, Advance(n)));
    if Concerns(At(s, p)) {
      AdvanceIsFaithful(hash, s, p, n);
    } else if Putting(At(s, p)) && !At(s, p).PutDone? {
      StoreGoesOn(hash, s, p, n);
    } else {
      NothingToDo(hash, s, p, n);
    }
  }

  /** p is still at work on the request, or has answered it. */
  lemma {:induction false} StillAnswers(hash: Bytes -> Digest, s: System, events: seq<Event>, p: Pid, move: Move)
    requires Safe(hash, s) && OnlyAdvances(events, p) && Answers(At(s, p), Some(move)) && !At(s, p).Crashed?
    ensures var t := Run(hash, s, events); Answers(At(t, p), Some(move)) && !At(t, p).Crashed?
    decreases |events|
  {
    hide Safe, Take, Answers, Inodes;
    if events != [] {
      var e := events[0];
      SafeAt(hash, s, e.pid);
      StepSafe(hash, s, e);
      StepAnswers(hash, s, e, p, Some(move));
      if e.pid == p {
        AdvanceDoesNotCrash(hash, s, p, e.move.n);
      } else {
        OthersDoNotRaise(hash, s, e, p);
      }
      StillAnswers(hash, Take(hash, s, e), events[1..], p, move);
    }
  }

  lemma AtRest(q: Process, move: Move)
    requires Stage(q) == 0 && !q.Crashed? && Answers(q, Some(move))
    ensures Resting(q)
    ensures move.StartPut? ==> q.PutDone? && q.source == move.source
    ensures move.StartDelete? ==> q == Deleted(move.digest)
    ensures move.StartGet? && !q.Failed? ==>
              if move.cacheOnly then q == Cached(move.digest) else q.Got? && q.digest == move.digest
    ensures move.StartGet? && q.Failed? ==>
              q.digest == move.digest && (q.error == Tombstone <==> move.digest == TOMBSTONE)
  {
  }

  /** Every request ends, under every schedule: a put with the digest of its source, a delete as
      deleted, a get with what it asked for or with an error. */
  lemma RequestEnds(hash: Bytes -> Digest, s: System, plan: Schedule, p: Pid, move: Move) returns (m: nat)
    requires Safe(hash, s) && Apart(plan, p) && Resting(At(s, p)) && Starts(move)
    ensures var q := At(Run(hash, s, [Event(p, move)] + Rounds(plan, p, 0, m)), p);
      && Resting(q)
      && (move.StartPut? ==> q == PutDone(move.source, hash(move.source)))
      && (move.StartDelete? ==> q == Deleted(move.digest))
      && (move.StartGet? && !q.Failed? ==>
            if move.cacheOnly then q == Cached(move.digest) else q.Got? && q.digest == move.digest)
      && (move.StartGet? && q.Failed? ==>
            q.digest == move.digest && (q.error == Tombstone <==> move.digest == TOMBSTONE))
  {
    hide Safe, Take, Answers, Inodes, Stage, Apart, Stands;
    var e := Event(p, move);
    SafeAt(hash, s, p);
    StepSafe(hash, s, e);
    Started(hash, s, p, move);
    var u := Take(hash, s, e);
    SafeAt(hash, u, p);
    m := ComesToRest(hash, u, plan, p, 0);
    var events := Rounds(plan, p, 0, m);
    RoundsOnlyAdvance(plan, p, 0, m);
    StillAnswers(hash, u, events, p, move);
    assert ([e] + events)[1..] == events;
    var t := Run(hash, u, events);
    AtRest(At(t, p), move);
    PutHashes(hash, t, p);
  }

  lemma Started(hash: Bytes -> Digest, s: System, p: Pid, move: Move)
    requires Inodes(At(s, p)) <= s.inodes.Keys && Resting(At(s, p)) && Starts(move)
    ensures var q := At(Take(hash, s, Event(p, move)), p); Answers(q, Some(move)) && !q.Crashed?
    ensures move.StartGet? && move.digest != TOMBSTONE ==>
              At(Take(hash, s, Event(p, move)), p) == GetStarted(move.digest, move.cacheOnly)
  {
    hide AdvancePut, Inodes;
    StartAnswers(hash, s, Event(p, move));
  }

  lemma PutHashes(hash: Bytes -> Digest, s: System, p: Pid)
    requires Safe(hash, s)
    ensures At(s, p).PutDone? ==> hash(At(s, p).source) == At(s, p).digest
  {
    assert Stands(hash, s, At(s, p));
  }

  /** Without deletes, a get of what the backend has arrives under every schedule: with the
      file in the cache, or with bytes that have the digest. */
  lemma GetArrives(hash: Bytes -> Digest, s: System, plan: Schedule, p: Pid, d: Digest, only: bool) returns (m: nat)
    requires Safe(hash, s) && Undeleted(s) && Stored(s) && !s.kind.Null? && d in s.backend && d != TOMBSTONE
    requires Apart(plan, p) && Resting(At(s, p)) && forall i: nat :: NoDelete(plan.others(i))
    ensures var q := At(Run(hash, s, [Event(p, StartGet(d, only))] + Rounds(plan, p, 0, m)), p);
      if only then q == Cached(d) else q.Got? && q.digest == d && hash(q.content) == d
  {
    hide Safe, Take, Inodes, Stage, Apart, Stands, Undeleted, Stored, Answers;
    var e := Event(p, StartGet(d, only));
    m := RequestEnds(hash, s, plan, p, e.move);
    var events := Rounds(plan, p, 0, m);
    RoundsWithoutDelete(plan, p, 0, m);
    SafeAt(hash, s, p);
    StepSafe(hash, s, e);
    StepKeeps(hash, s, e);
    Started(hash, s, p, e.move);
    var u := Take(hash, s, e);
    PutThenGet(hash, u, events, d);
    assert ([e] + events)[1..] == events;
    GotHolds(hash, Run(hash, u, events), p);
    assert At(u, p) == GetStarted(d, only);
  }

  lemma {:induction false} RoundsWithoutDelete(plan: Schedule, p: Pid, i: nat, m: nat)
    requires forall j: nat :: NoDelete(plan.others(j))
    ensures NoDelete(Rounds(plan, p, i, m))
    decreases m
  {
    if m > 0 {
      RoundsWithoutDelete(plan, p, i + 1, m - 1);
      assert NoDelete(plan.others(i));
    }
  }
}
