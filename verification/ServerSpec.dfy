/** The stores of the ranking server: entities are created, updated, merged and deleted
    with cascades, while the scores and the clients are kept up to date by callbacks. */
module ServerSpec {
  import opened Basics
  import opened ScoreSpec
  import opened ScoreTheorems
  import opened ScoreRuns
  import opened StoreSpec
  import opened MirrorSpec
  import opened Scoring

  datatype Action = Created | Updated | Deleted

  /** A message to the clients about an entity. */
  datatype Event = Event(action: Action, ref: Ref)

  /** The kinds of entities that clients are told about. */
  predicate Watched(kind: Kind) {
    kind == Contest || kind == Task || kind == Team || kind == User
  }

  /** The entities a client knows after some events. */
  function Known(base: set<Ref>, events: seq<Event>): set<Ref> {
    if events == [] then base
    else
      var known, e := Known(base, events[..|events| - 1]), events[|events| - 1];
      match e.action
      case Created => known + {e.ref}
      case Updated => known
      case Deleted => known - {e.ref}
  }

  ghost function WatchedRefs(t: Table): set<Ref> {
    set r | r in t && Watched(r.kind)
  }

  /** The events since then take a client from one set of entities to another. */
  ghost predicate Reported(a: set<Ref>, before: seq<Event>, b: set<Ref>, after: seq<Event>) {
    before <= after && b == Known(a, after[|before|..])
  }

  lemma {:induction false} KnownAppend(base: set<Ref>, a: seq<Event>, b: seq<Event>)
    ensures Known(base, a + b) == Known(Known(base, a), b)
  {
    if b == [] {
      assert a + b == a;
    } else {
      assert (a + b)[..|a + b| - 1] == a + b[..|b| - 1];
      KnownAppend(base, a, b[..|b| - 1]);
    }
  }

  lemma ReportedTransitive(a: set<Ref>, x: seq<Event>, b: set<Ref>, y: seq<Event>, c: set<Ref>, z: seq<Event>)
    requires Reported(a, x, b, y) && Reported(b, y, c, z)
    ensures Reported(a, x, c, z)
  {
    assert z[|x|..] == y[|x|..] + z[|y|..];
    KnownAppend(a, y[|x|..], z[|y|..]);
  }

  lemma ReportedOne(a: set<Ref>, events: seq<Event>, e: Event)
    ensures Reported(a, events, Known(a, [e]), events + [e])
    ensures Reported(a, events, a, events)
    ensures Known(a, [e]) == match e.action case Created => a + {e.ref} case Updated => a case Deleted => a - {e.ref}
  {
    assert (events + [e])[|events|..] == [e];
    assert events[|events|..] == [];
    assert [e][..0] == [];
    assert Known(a, []) == a;
  }

  lemma {:induction false} KnownWithout(base: set<Ref>, events: seq<Event>, r: Ref)
    ensures Known(base, events) - {r} == Known(base - {r}, events) - {r}
  {
    if events != [] {
      KnownWithout(base, events[..|events| - 1], r);
      var a, b, e :=
        Known(base, events[..|events| - 1]), Known(base - {r}, events[..|events| - 1]), events[|events| - 1];
      forall x
        ensures x in a && x != r <==> x in b && x != r
      {
        assert x in a - {r} <==> x in b - {r};
      }
      assert (a + {e.ref}) - {r} == (b + {e.ref}) - {r};
      assert (a - {e.ref}) - {r} == (b - {e.ref}) - {r};
    }
  }

  /** The report of a cascade, followed by that of the deleted entity itself. */
  lemma ReportDeleted(t: Table, r: Ref, before: seq<Event>, u: Table, after: seq<Event>)
    requires Reported(WatchedRefs(t - {r}), before, WatchedRefs(u), after) && r !in u && r in t
    ensures Reported(WatchedRefs(t), before, WatchedRefs(u),
                     if Watched(r.kind) then after + [Event(Deleted, r)] else after)
  {
    var more := after[|before|..];
    assert WatchedRefs(t - {r}) == WatchedRefs(t) - {r};
    if Watched(r.kind) {
      KnownWithout(WatchedRefs(t), more, r);
      ReportedOne(Known(WatchedRefs(t), more), after, Event(Deleted, r));
      KnownAppend(WatchedRefs(t), more, [Event(Deleted, r)]);
      assert (after + [Event(Deleted, r)])[|before|..] == more + [Event(Deleted, r)];
    } else {
      assert WatchedRefs(t - {r}) == WatchedRefs(t);
    }
  }

  /** From one state of stores, scores and notes to another, every tier of the mirror is
      carried over and the notes tell the clients of all score changes. */
  ghost predicate Carried(t: Table, v: View, a: seq<Note>, u: Table, w: View, b: seq<Note>) {
    Heard(v, a, w, b) && forall tier :: Mirror(tier, t, v) ==> Mirror(tier, u, w)
  }

  lemma CarriedTransitive(t: Table, v: View, a: seq<Note>, u: Table, w: View, b: seq<Note>, s: Table, x: View,
        c: seq<Note>)
    requires Carried(t, v, a, u, w, b) && Carried(u, w, b, s, x, c)
    ensures Carried(t, v, a, s, x, c)
  {
    hide Mirror, Heard;
    HeardTransitive(v, a, w, b, x, c);
  }

  lemma CarriedNothing(t: Table, v: View, notes: seq<Note>)
    ensures Carried(t, v, notes, t, v, notes)
  {
    hide Mirror;
    HeardNothing(v, notes);
  }

  // ------------------------------------------------------------- deletions

  /** A subchange whose submission has just been deleted. */
  ghost predicate Dangling(t: Table, r: Ref)
    requires r in t
  {
    t[r].ASubchange? && Ref(Submission, t[r].change.submission) !in t
  }

  lemma RemainingNothing(t: Table, target: Ref)
    requires Typed(t)
    ensures Remaining(t, target, {}) == t - {target}
  {
  }

  /** Deleting a submission takes away itself and its subchanges. */
  lemma PruneSubmission(t: Table, s: Ref)
    requires Typed(t) && s in t && s.kind == Submission
    ensures forall r: Ref :: r.kind == Submission || r.kind == Subchange ==>
              (r in Prune(t, s) <==> r in t && r != s && s !in Refs(t[r]))
              && (r in Prune(t, s) ==> Prune(t, s)[r] == t[r])
  {
    forall r: Ref | r in t && (r.kind == Submission || r.kind == Subchange)
      ensures Reaches(t, r, s) <==> r == s || s in Refs(t[r])
    {
      if Reaches(t, r, s) && r != s {
        ReachGoesUp(t, r, s);
        var q :| q in Refs(t[r]) && (RefsGoUp(t, r, q); Reaches(t, q, s));
        RefsGoUp(t, r, q);
        ReachGoesUp(t, q, s);
      }
      if s in Refs(t[r]) {
        DirectReach(t, r, s, s);
      }
    }
  }

  /** Nothing refers to a subchange. */
  lemma PruneSubchange(t: Table, c: Ref)
    requires Typed(t) && c.kind == Subchange
    ensures Prune(t, c) == t - {c}
  {
    forall r | r in t
      ensures Reaches(t, r, c) <==> r == c
    {
      if Reaches(t, r, c) {
        ReachGoesUp(t, r, c);
      }
    }
  }

  lemma DropSubmissionStep(t: Table, s: Ref, p: Pair)
    requires Typed(t) && s in t && s.kind == Submission && IsSub(t, p, s.key)
    ensures OneStep(t, Prune(t, s), p, DropSubmission(s.key))
  {
    hide ContentOf, Next, Prune, Reaches;
    PruneSubmission(t, s);
    forall q
      ensures ContentOf(Prune(t, s), q) ==
              if q == p then Next(ContentOf(t, q), DropSubmission(s.key)) else ContentOf(t, q)
    {
      ContentDropSubmission(t, Prune(t, s), s.key, q);
    }
  }

  lemma DeleteSubmissionCarries(t: Table, s: Ref, v: View, notes: seq<Note>)
    requires Typed(t) && s in t && s.kind == Submission && Mirror(Covering, t, v)
    ensures t[s].ASubmission? && PairOf(t[s]) in v
    ensures var p := PairOf(t[s]);
            && WellFormed(v[p]) && s.key in v[p].times
            && var r := DeleteSubmission(v[p], s.key);
               Carried(t, v, notes, Prune(t, s), Shelve(v, p, r),
                       Notified(notes, p, ScoreAt(v, p), CurrentScore(r.history)))
  {
    hide ContentOf, Next, Prune, Fold, DeleteSubmission, Heard, Notified;
    assert Fits(s, t[s]);
    var p, op := PairOf(t[s]), DropSubmission(s.key);
    assert IsSub(t, p, s.key);
    ContentIsAll(t, p);
    assert MirrorAt(Covering, t, v, p);
    assert s.key in ContentOf(t, p).times;
    DropSubmissionStep(t, s, p);
    PruneTasks(t, s);
    forall tier | Mirror(tier, t, v)
      ensures Mirror(tier, Prune(t, s), Shelve(v, p, DeleteSubmission(v[p], s.key)))
    {
      MirrorStep(tier, t, Prune(t, s), v, p, op, v[p].mode);
    }
    DeletedIsSilent(v[p], s.key);
    AfterHeard(v, notes, p, DeleteSubmission(v[p], s.key));
  }

  lemma PruneTasks(t: Table, target: Ref)
    requires Typed(t)
    ensures SameTasks(t, Prune(t, target))
  {
  }

  lemma DeleteChangeCarries(t: Table, c: Ref, v: View, notes: seq<Note>)
    requires Typed(t) && c in t && c.kind == Subchange && Mirror(Covering, t, v) && !Dangling(t, c)
    ensures t[c].ASubchange? && t[Ref(Submission, t[c].change.submission)].ASubmission?
    ensures var p := PairOf(t[Ref(Submission, t[c].change.submission)]);
            && p in v && WellFormed(v[p]) && t[c].change.submission in v[p].times
            && var r := DeleteChange(v[p], c.key);
               Carried(t, v, notes, t - {c}, Shelve(v, p, r),
                       Notified(notes, p, ScoreAt(v, p), CurrentScore(r.history)))
  {
    hide ContentOf, Next, Fold, DeleteChange, Heard, Notified;
    assert Fits(c, t[c]);
    var s := Ref(Submission, t[c].change.submission);
    assert Fits(s, t[s]);
    var p, op := PairOf(t[s]), DropChange(c.key);
    assert IsSub(t, p, s.key);
    ContentIsAll(t, p);
    assert MirrorAt(Covering, t, v, p);
    assert s.key in ContentOf(t, p).times;
    forall q
      ensures ContentOf(t - {c}, q) == if q == p then Next(ContentOf(t, q), op) else ContentOf(t, q)
    {
      ContentDropChange(t, c.key, q);
    }
    assert OneStep(t, t - {c}, p, op);
    DoTimes(v[p], op);
    forall tier | Mirror(tier, t, v)
      ensures Mirror(tier, t - {c}, Shelve(v, p, DeleteChange(v[p], c.key)))
    {
      MirrorStep(tier, t, t - {c}, v, p, op, v[p].mode);
    }
    AfterHeard(v, notes, p, DeleteChange(v[p], c.key));
  }

  /** Removing an entity that is neither a submission nor a subchange does not touch the scores. */
  lemma OtherCarries(t: Table, u: Table, v: View, notes: seq<Note>)
    requires forall r: Ref ::
               r.kind == Submission || r.kind == Subchange ==> (r in t <==> r in u) && (r in t ==> t[r] == u[r])
    requires SameTasks(t, u)
    ensures Carried(t, v, notes, u, v, notes)
  {
    hide ContentOf, Heard, Follows;
    HeardNothing(v, notes);
    forall p {
      SameContent(t, u, p);
    }
    forall tier | Mirror(tier, t, v)
      ensures Mirror(tier, u, v)
    {
      forall p
        ensures MirrorAt(tier, u, v, p)
      {
        assert MirrorAt(tier, t, v, p);
        SameContent(t, u, p);
      }
    }
  }

  // ----------------------------------------------- creations and updates

  ghost function PairOfChange(t: Table, c: Change): Pair
    requires Ref(Submission, c.submission) in t && t[Ref(Submission, c.submission)].ASubmission?
  {
    PairOf(t[Ref(Submission, c.submission)])
  }

  ghost function ModeOf(t: Table, p: Pair): Mode {
    var r := Ref(Task, p.task);
    if r in t && t[r].ATask? then t[r].mode else Max
  }

  /** The updates after which the scores may fall behind the stores: a submission that moves
      while it has changes, a change that gets another time or a negative value, a task that
      gets another mode. All others are calm. */
  ghost predicate Calm(tier: Tier, t: Table, r: Ref, e: Entity) {
    match e
    case ASubmission(_, _, _) =>
      tier != Covering && r in t && t[r].ASubmission? && PairOf(t[r]) != PairOf(e) ==> NoChangeOf(t, r.key)
    case ASubchange(c) =>
      tier == Showing ==>
        && (r in t && t[r].ASubchange? && t[r].change.submission == c.submission ==> t[r].change.time == c.time)
        && (NonNegative(c)
            || (Ref(Submission, c.submission) in t && t[Ref(Submission, c.submission)].ASubmission?
                && ModeOf(t, PairOfChange(t, c)) == MaxTokenedLast))
    case ATask(_, mode) => tier == Showing && r in t && t[r].ATask? ==> mode == t[r].mode
    case _ => true
  }

  ghost predicate PutCarried(t: Table, v: View, a: seq<Note>, r: Ref, e: Entity, w: View, b: seq<Note>) {
    Heard(v, a, w, b) && forall tier :: Calm(tier, t, r, e) && Mirror(tier, t, v) ==> Mirror(tier, t[r := e], w)
  }

  lemma PairHasTask(t: Table, v: View, p: Pair)
    requires Integral(t) && Mirror(Covering, t, v) && p in v
    ensures Ref(Task, p.task) in t && t[Ref(Task, p.task)].ATask?
  {
    hide ContentOf, Follows;
    assert MirrorAt(Covering, t, v, p);
    var k :| k in ContentOf(t, p).times;
    ContentIsAll(t, p);
    var s := Ref(Submission, k);
    assert IsSub(t, p, k);
    assert Ref(Task, p.task) in Refs(t[s]);
    assert Consistent(t, t[s]);
    assert Fits(Ref(Task, p.task), t[Ref(Task, p.task)]);
  }

  lemma PutOtherCarries(t: Table, r: Ref, e: Entity, v: View, notes: seq<Note>)
    requires Integral(t) && Fits(r, e) && Watched(r.kind)
    ensures PutCarried(t, v, notes, r, e, v, notes)
  {
    hide ContentOf, Heard, Follows;
    HeardNothing(v, notes);
    var u := t[r := e];
    forall tier | Calm(tier, t, r, e) && Mirror(tier, t, v)
      ensures Mirror(tier, u, v)
    {
      MirrorWeaker(tier, t, v);
      forall p
        ensures MirrorAt(tier, u, v, p)
      {
        assert MirrorAt(tier, t, v, p);
        SameContent(t, u, p);
        if p in v {
          PairHasTask(t, v, p);
        }
      }
    }
  }

  lemma CreateSubmissionCarries(t: Table, k: Key, e: Entity, v: View, notes: seq<Note>)
    requires Integral(t) && e.ASubmission? && Ref(Submission, k) !in t && Consistent(t, e) && Mirror(Covering, t, v)
    ensures var p := PairOf(e);
            && (p in v ==> WellFormed(v[p]) && k !in v[p].times)
            && Ref(Task, p.task) in t && t[Ref(Task, p.task)].ATask?
            && var r := CreateSubmission(At(v, p, ModeOf(t, p)), k, e.time);
               PutCarried(t, v, notes, Ref(Submission, k), e, Shelve(v, p, r),
                          Notified(notes, p, ScoreAt(v, p), CurrentScore(r.history)))
  {
    hide ContentOf, Next, Fold, Heard, Notified, Follows;
    var p, op, mode := PairOf(e), NewSubmission(k, e.time), ModeOf(t, PairOf(e));
    assert Ref(Task, p.task) in Refs(e);
    assert Fits(Ref(Task, p.task), t[Ref(Task, p.task)]);
    var u := t[Ref(Submission, k) := e];
    AtFollows(Covering, t, v, p, mode);
    FollowsTimes(Covering, At(v, p, mode), ContentOf(t, p));
    ContentIsAll(t, p);
    assert !IsSub(t, p, k);
    forall q
      ensures ContentOf(u, q) == if q == p then Next(ContentOf(t, q), op) else ContentOf(t, q)
    {
      ContentNewSubmission(t, k, e, q);
    }
    assert OneStep(t, u, p, op);
    forall tier | Mirror(tier, t, v)
      ensures Mirror(tier, u, Shelve(v, p, CreateSubmission(At(v, p, mode), k, e.time)))
    {
      MirrorStep(tier, t, u, v, p, op, mode);
    }
    var r := CreateSubmission(At(v, p, mode), k, e.time);
    assert k in r.times;
    AfterHeard(v, notes, p, r);
  }

  lemma RenewSubmissionCarries(t: Table, k: Key, e: Entity, v: View, notes: seq<Note>)
    requires Integral(t) && e.ASubmission? && IsSub(t, PairOf(e), k) && Mirror(Covering, t, v)
    ensures var p := PairOf(e);
            && p in v && WellFormed(v[p]) && k in v[p].times
            && var r := UpdateSubmission(v[p], k, e.time).(mode := ModeOf(t, p));
               PutCarried(t, v, notes, Ref(Submission, k), e, Shelve(v, p, r),
                          Notified(notes, p, ScoreAt(v, p), CurrentScore(r.history)))
  {
    hide ContentOf, Next, Fold, Heard, Notified, Follows, UpdateSubmission;
    var p, op := PairOf(e), SetSubmission(k, e.time);
    var u := t[Ref(Submission, k) := e];
    ContentIsAll(t, p);
    assert k in ContentOf(t, p).times;
    assert MirrorAt(Covering, t, v, p);
    FollowsTimes(Covering, v[p], ContentOf(t, p));
    PairHasTask(t, v, p);
    forall q
      ensures ContentOf(u, q) == if q == p then Next(ContentOf(t, q), op) else ContentOf(t, q)
    {
      ContentSetSubmission(t, k, e, q);
    }
    assert OneStep(t, u, p, op);
    DoTimes(v[p], op);
    var s := UpdateSubmission(v[p], k, e.time);
    SetIsUpdate(v[p], k, e.time);
    assert k in s.times;
    forall tier | Mirror(tier, t, v)
      ensures Mirror(tier, u, Shelve(v, p, s.(mode := ModeOf(t, p))))
    {
      MirrorStep(tier, t, u, v, p, op, v[p].mode);
      SetModeMirrors(tier, u, Shelve(v, p, s), p, ModeOf(t, p));
      assert Shelve(v, p, s)[p := s.(mode := ModeOf(t, p))] == Shelve(v, p, s.(mode := ModeOf(t, p)));
    }
    AfterHeard(v, notes, p, s.(mode := ModeOf(t, p)));
  }

  /** Taking the mode of the task does no harm. */
  lemma SetModeMirrors(tier: Tier, t: Table, v: View, p: Pair, mode: Mode)
    requires Mirror(tier, t, v) && p in v && Ref(Task, p.task) in t && t[Ref(Task, p.task)].ATask?
    requires mode == t[Ref(Task, p.task)].mode
    ensures Mirror(tier, t, v[p := v[p].(mode := mode)])
  {
    hide ContentOf, Fold, Shows;
    var w := v[p := v[p].(mode := mode)];
    forall q
      ensures MirrorAt(tier, t, w, q)
    {
      assert MirrorAt(tier, t, v, q);
      if tier == Showing && q == p {
        assert w[p] == v[p];
      }
    }
  }

  lemma MoveSubmissionCarries(t: Table, k: Key, e: Entity, p: Pair, v: View, a: seq<Note>, b: seq<Note>)
    requires Integral(t) && e.ASubmission? && IsSub(t, p, k) && p != PairOf(e) && Mirror(Covering, t, v)
    requires Consistent(t, e)
    ensures p in v && WellFormed(v[p]) && k in v[p].times
    ensures PairOf(e) in v ==> k !in v[PairOf(e)].times
    ensures var w := Moved(v, k, p, e, ModeOf(t, PairOf(e)));
            Heard(v, a, w, b) ==> PutCarried(t, v, a, Ref(Submission, k), e, w, b)
  {
    hide ContentOf, Next, Fold, Heard, Follows, DeleteSubmission, CreateSubmission, Moved;
    var q, mode := PairOf(e), ModeOf(t, PairOf(e));
    ContentIsAll(t, p);
    ContentIsAll(t, q);
    assert k in ContentOf(t, p).times && k !in ContentOf(t, q).times;
    assert MirrorAt(Covering, t, v, p) && MirrorAt(Covering, t, v, q);
    FollowsTimes(Covering, v[p], ContentOf(t, p));
    if q in v {
      FollowsTimes(Covering, v[q], ContentOf(t, q));
    }
    forall tier | Calm(tier, t, Ref(Submission, k), e) && Mirror(tier, t, v)
      ensures Mirror(tier, t[Ref(Submission, k) := e], Moved(v, k, p, e, mode))
    {
      MoveKeepsMirror(tier, t, v, k, e, p, mode);
    }
  }

  /** What holds of the submission of a consistent change. */
  lemma ChangeHasPair(t: Table, c: Change, v: View)
    requires Typed(t) && Ref(Submission, c.submission) in t && Mirror(Covering, t, v)
    ensures t[Ref(Submission, c.submission)].ASubmission?
    ensures var p := PairOfChange(t, c);
            IsSub(t, p, c.submission) && p in v && WellFormed(v[p]) && c.submission in v[p].times
            && ContentOf(t, p).times == v[p].times
  {
    hide ContentOf, Follows;
    var s := Ref(Submission, c.submission);
    assert Fits(s, t[s]);
    var p := PairOf(t[s]);
    ContentIsAll(t, p);
    assert IsSub(t, p, c.submission);
    assert c.submission in ContentOf(t, p).times;
    assert MirrorAt(Covering, t, v, p);
    FollowsTimes(Covering, v[p], ContentOf(t, p));
  }

  lemma CreateChangeCarries(t: Table, c: Change, v: View, notes: seq<Note>)
    requires Typed(t) && Ref(Submission, c.submission) in t && Mirror(Covering, t, v)
    requires Ref(Subchange, c.key) !in t
    ensures t[Ref(Submission, c.submission)].ASubmission?
    ensures var p := PairOfChange(t, c);
            && p in v && WellFormed(v[p]) && c.submission in v[p].times
            && var r := CreateChange(v[p], c);
               PutCarried(t, v, notes, Ref(Subchange, c.key), ASubchange(c), Shelve(v, p, r),
                          Notified(notes, p, ScoreAt(v, p), CurrentScore(r.history)))
  {
    hide ContentOf, Next, Fold, Heard, Notified, Follows, CreateChange;
    ChangeHasPair(t, c, v);
    var p, op := PairOfChange(t, c), NewChange(c);
    var u := t[Ref(Subchange, c.key) := ASubchange(c)];
    ContentIsAll(t, p);
    assert !IsChange(t, p, c.key);
    forall q
      ensures ContentOf(u, q) == if q == p then Next(ContentOf(t, q), op) else ContentOf(t, q)
    {
      ContentPutChange(t, c, q);
    }
    assert OneStep(t, u, p, op);
    DoTimes(v[p], op);
    forall tier | Calm(tier, t, Ref(Subchange, c.key), ASubchange(c)) && Mirror(tier, t, v)
      ensures Mirror(tier, u, Shelve(v, p, CreateChange(v[p], c)))
    {
      assert MirrorAt(tier, t, v, p);
      MirrorStep(tier, t, u, v, p, op, v[p].mode);
    }
    AfterHeard(v, notes, p, CreateChange(v[p], c));
  }

  lemma SetChangeCarries(t: Table, c: Change, v: View, notes: seq<Note>)
    requires Typed(t) && Ref(Submission, c.submission) in t && Mirror(Covering, t, v)
    requires Ref(Subchange, c.key) in t && t[Ref(Subchange, c.key)].ASubchange?
    requires t[Ref(Subchange, c.key)].change.submission == c.submission
    ensures t[Ref(Submission, c.submission)].ASubmission?
    ensures var p := PairOfChange(t, c);
            && p in v && WellFormed(v[p]) && c.submission in v[p].times
            && var r := UpdateChange(v[p], c.key, c);
               PutCarried(t, v, notes, Ref(Subchange, c.key), ASubchange(c), Shelve(v, p, r),
                          Notified(notes, p, ScoreAt(v, p), CurrentScore(r.history)))
  {
    hide ContentOf, Fold, Heard, Notified, Follows, UpdateChange;
    ChangeHasPair(t, c, v);
    var p, op := PairOfChange(t, c), SetChange(c);
    var u := t[Ref(Subchange, c.key) := ASubchange(c)];
    ContentIsAll(t, p);
    assert IsChange(t, p, c.key);
    forall q
      ensures ContentOf(u, q) == if q == p then Next(ContentOf(t, q), op) else ContentOf(t, q)
    {
      ContentPutChange(t, c, q);
    }
    assert OneStep(t, u, p, op);
    DoTimes(v[p], op);
    forall tier | Calm(tier, t, Ref(Subchange, c.key), ASubchange(c)) && Mirror(tier, t, v)
      ensures Mirror(tier, u, Shelve(v, p, UpdateChange(v[p], c.key, c)))
    {
      assert MirrorAt(tier, t, v, p);
      MirrorStep(tier, t, u, v, p, op, v[p].mode);
    }
    AfterHeard(v, notes, p, UpdateChange(v[p], c.key, c));
  }

  /** A change that goes to another submission is deleted from one Score and created in the other. */
  lemma TransferChangeCarries(t: Table, c: Change, v: View, x: seq<Note>, w: View, y: seq<Note>, z: View, n: seq<Note>)
    requires Ref(Subchange, c.key) in t && t[Ref(Subchange, c.key)].ASubchange?
    requires t[Ref(Subchange, c.key)].change.submission != c.submission
    requires Carried(t, v, x, t - {Ref(Subchange, c.key)}, w, y)
    requires PutCarried(t - {Ref(Subchange, c.key)}, w, y, Ref(Subchange, c.key), ASubchange(c), z, n)
    ensures PutCarried(t, v, x, Ref(Subchange, c.key), ASubchange(c), z, n)
  {
    hide ContentOf, Heard, Mirror;
    HeardTransitive(v, x, w, y, z, n);
    var r := Ref(Subchange, c.key);
    assert (t - {r})[r := ASubchange(c)] == t[r := ASubchange(c)];
    forall tier | Calm(tier, t, r, ASubchange(c)) && Mirror(tier, t, v)
      ensures Mirror(tier, t[r := ASubchange(c)], z)
    {
      assert Calm(tier, t - {r}, r, ASubchange(c));
    }
  }

  // -------------------------------------------------------------- cascades

  /** What a cascade has done so far, from the moment the target left its store. */
  ghost predicate Cascading(target: Ref, t: Table, done: set<Ref>, v: View, a: seq<Note>, x: seq<Event>,
                            u: Table, w: View, b: seq<Note>, y: seq<Event>)
    requires Typed(t)
  {
    && u == Remaining(t, target, done)
    && Reported(WatchedRefs(t - {target}), x, WatchedRefs(u), y)
    && (if Watched(target.kind) then Carried(t - {target}, v, a, u, w, b) else w == v && b == a)
  }

  lemma CascadeStarts(target: Ref, t: Table, v: View, a: seq<Note>, x: seq<Event>)
    requires Typed(t)
    ensures Cascading(target, t, {}, v, a, x, t - {target}, v, a, x)
  {
    hide Carried, Remaining;
    RemainingNothing(t, target);
    CarriedNothing(t - {target}, v, a);
    ReportedOne(WatchedRefs(t - {target}), x, Event(Updated, target));
  }

  lemma CascadeSkips(target: Ref, t: Table, done: set<Ref>, o: Ref, v: View, a: seq<Note>, x: seq<Event>,
                     u: Table, w: View, b: seq<Note>, y: seq<Event>)
    requires Typed(t) && Cascading(target, t, done, v, a, x, u, w, b, y)
    requires o in t && target !in Refs(t[o])
    ensures Cascading(target, t, done + {o}, v, a, x, u, w, b, y)
  {
    hide Carried, Remaining, Reported;
    RemainingSkip(t, target, done, o);
  }

  /** What the cascade needs to delete one more referrer. */
  lemma CascadeReady(target: Ref, t: Table, done: set<Ref>, o: Ref, v: View, a: seq<Note>, x: seq<Event>,
                     u: Table, w: View, b: seq<Note>, y: seq<Event>)
    requires Typed(t) && ConsistentBelow(t, Depth(target.kind)) && Cascading(target, t, done, v, a, x, u, w, b, y)
    requires o in t && o.kind in Depends(target.kind) && o !in done && target in Refs(t[o])
    requires forall d :: d in done ==> d.kind == o.kind
    requires Watched(target.kind) ==> Mirror(Covering, t - {target}, v)
    ensures Typed(u) && o in u && u[o] == t[o] && ConsistentBelow(u, Depth(o.kind))
    ensures if Watched(target.kind) then !Dangling(u, o) && Mirror(Covering, u, w) else Dangling(u, o)
  {
    hide Reported, Mirror, ConsistentBelow;
    NotYetGone(t, target, done, o);
    RemainingTyped(t, target, done);
    RemainingConsistentBelow(t, target, done, o.kind);
    RefsGoUp(t, o, target);
    assert Fits(o, t[o]);
    assert target !in u;
  }

  lemma CascadeDeletes(target: Ref, t: Table, done: set<Ref>, o: Ref, v: View, a: seq<Note>, x: seq<Event>,
                       u: Table, w: View, b: seq<Note>, y: seq<Event>,
                       u': Table, w': View, b': seq<Note>, y': seq<Event>)
    requires Typed(t) && Typed(u) && Cascading(target, t, done, v, a, x, u, w, b, y)
    requires o in t && target in Refs(t[o])
    requires u' == Prune(u, o) && Reported(WatchedRefs(u), y, WatchedRefs(u'), y')
    requires if Watched(target.kind) then Carried(u, w, b, u', w', b') else w' == w && b' == b
    ensures Cascading(target, t, done + {o}, v, a, x, u', w', b', y')
  {
    hide Carried, Remaining, Reported, Prune;
    RemainingStep(t, target, done, o);
    ReportedTransitive(WatchedRefs(t - {target}), x, WatchedRefs(u), y, WatchedRefs(u'), y');
    if Watched(target.kind) {
      CarriedTransitive(t - {target}, v, a, u, w, b, u', w', b');
    }
  }

  lemma CascadeEnds(target: Ref, t: Table, done: set<Ref>, v: View, a: seq<Note>, x: seq<Event>,
                    u: Table, w: View, b: seq<Note>, y: seq<Event>)
    requires Typed(t) && Cascading(target, t, done, v, a, x, u, w, b, y)
    requires forall o :: o in t && o.kind in Depends(target.kind) ==> o in done
    ensures u == Prune(t, target) && target !in u && Typed(u)
  {
    hide Carried, Reported;
    RemainingIsPrune(t, target, done);
    RemainingTyped(t, target, done);
  }

  /** An entity other than a submission or a change leaves its store. */
  lemma LeavingCarries(t: Table, r: Ref, v: View, notes: seq<Note>)
    ensures Watched(r.kind) ==> Carried(t, v, notes, t - {r}, v, notes)
    ensures Watched(r.kind) && Mirror(Covering, t, v) ==> Mirror(Covering, t - {r}, v)
  {
    hide Mirror, Heard;
    if Watched(r.kind) {
      OtherCarries(t, t - {r}, v, notes);
    }
  }

  lemma CascadeReports(r: Ref, t: Table, v: View, a: seq<Note>, x: seq<Event>, u: Table, w: View, b: seq<Note>,
        y: seq<Event>)
    requires Typed(t) && exists done :: Cascading(r, t, done, v, a, x, u, w, b, y)
    ensures Reported(WatchedRefs(t - {r}), x, WatchedRefs(u), y)
    ensures Watched(r.kind) ==> Carried(t - {r}, v, a, u, w, b)
    ensures !Watched(r.kind) ==> w == v && b == a
  {
    hide Carried, Reported, Remaining;
  }

  /** What the delete callbacks find after the cascade. */
  lemma BeforeDelete(r: Ref, t: Table, u: Table, v: View)
    requires Typed(t) && r in t && u == Prune(t, r)
    requires !Dangling(t, r) ==> Mirror(Covering, t, v)
    ensures t[r].ASubmission? ==> PairOf(t[r]) in v
    ensures t[r].ASubchange? ==> u == t - {r}
    ensures t[r].ASubchange? && Ref(Submission, t[r].change.submission) in u ==>
              && u[Ref(Submission, t[r].change.submission)].ASubmission?
              && PairOfChange(u, t[r].change) in v && v[PairOfChange(u, t[r].change)].times != map[]
              && PairOfChange(u, t[r].change) == PairOfChange(t, t[r].change)
  {
    hide Mirror, Carried, Prune, Fold, Notified, DeleteSubmission, DeleteChange;
    assert Fits(r, t[r]);
    if t[r].ASubmission? {
      DeleteSubmissionCarries(t, r, v, []);
    }
    if t[r].ASubchange? {
      PruneSubchange(t, r);
      if !Dangling(t, r) {
        DeleteChangeCarries(t, r, v, []);
      }
    }
  }

  lemma InTable(t: Table, e: Entity)
    requires Integral(t) && Consistent(t, e)
    ensures Typed(t)
    ensures e.ASubchange? ==> Ref(Submission, e.change.submission) in t
    ensures e.ASubmission? ==> Ref(Task, e.task) in t && t[Ref(Task, e.task)].ATask?
  {
    if e.ASubchange? {
      assert Ref(Submission, e.change.submission) in Refs(e);
    }
    if e.ASubmission? {
      assert Ref(Task, e.task) in Refs(e);
      assert Fits(Ref(Task, e.task), t[Ref(Task, e.task)]);
    }
  }

  lemma SameKind(t: Table, r: Ref, e: Entity)
    requires Integral(t) && r in t && Fits(r, e)
    ensures KindOf(t[r]) == KindOf(e) == r.kind
    ensures e.ASubmission? ==> t[r].ASubmission?
    ensures e.ASubchange? ==> t[r].ASubchange?
  {
    assert Fits(r, t[r]);
  }

  lemma ConsistentEntry(t: Table, r: Ref)
    requires Integral(t) && r in t
    ensures Consistent(t, t[r]) && Fits(r, t[r])
    ensures t[r].ASubchange? ==> Ref(Submission, t[r].change.submission) in t && !Dangling(t, r)
  {
    if t[r].ASubchange? {
      assert Ref(Submission, t[r].change.submission) in Refs(t[r]);
    }
  }

  lemma CarriedCovering(t: Table, v: View, a: seq<Note>, u: Table, w: View, b: seq<Note>)
    requires Carried(t, v, a, u, w, b) && Mirror(Covering, t, v)
    ensures Mirror(Covering, u, w)
  {
  }

  /** After a create or an update the server is ready for the next request. */
  lemma PutServes(t: Table, r: Ref, e: Entity, v: View, a: seq<Note>, w: View, b: seq<Note>, x: seq<Event>)
    requires Integral(t) && Fits(r, e) && Consistent(t, e) && Mirror(Covering, t, v)
    requires PutCarried(t, v, a, r, e, w, b)
    ensures Integral(t[r := e]) && Mirror(Covering, t[r := e], w)
    ensures Watched(r.kind) ==>
              Reported(WatchedRefs(t), x, WatchedRefs(t[r := e]), x + [Event(if r in t then Updated else Created, r)])
    ensures !Watched(r.kind) ==> Reported(WatchedRefs(t), x, WatchedRefs(t[r := e]), x)
  {
    hide Mirror, Heard;
    PutIntegral(t, r, e);
    ReportedOne(WatchedRefs(t), x, Event(if r in t then Updated else Created, r));
    assert WatchedRefs(t[r := e]) == if Watched(r.kind) then WatchedRefs(t) + {r} else WatchedRefs(t);
    assert r in t && Watched(r.kind) ==> WatchedRefs(t) + {r} == WatchedRefs(t);
    assert Calm(Covering, t, r, e);
  }

  // ----------------------------------------------------------- merge_list

  /** Keys are only checked up to their first character. */
  predicate MergeableKey(k: Key) {
    k != "" && ('A' <= k[0] <= 'Z' || 'a' <= k[0] <= 'z' || '0' <= k[0] <= '9' || k[0] == '_')
  }

  predicate Acceptable(t: Table, k: Key, data: Option<Entity>) {
    MergeableKey(k) && data.Some? && Consistent(t, data.value)
  }

  /** The entities of one kind with the keys in `done` have been put into the table. */
  ghost predicate Merging(t: Table, kind: Kind, items: map<Key, Entity>, done: set<Key>, u: Table) {
    && (forall r :: r in u <==> r in t || (r.kind == kind && r.key in done))
    && (forall r :: r in u ==>
          if r.kind == kind && r.key in done then r.key in items && u[r] == items[r.key] else r in t && u[r] == t[r])
  }

  ghost predicate AllCalm(tier: Tier, t: Table, kind: Kind, items: map<Key, Entity>) {
    forall k :: k in items ==> Calm(tier, t, Ref(kind, k), items[k])
  }

  ghost predicate MergeCarried(t: Table, v: View, a: seq<Note>, kind: Kind, items: map<Key, Entity>,
                               u: Table, w: View, b: seq<Note>) {
    Heard(v, a, w, b) && forall tier :: AllCalm(tier, t, kind, items) && Mirror(tier, t, v) ==> Mirror(tier, u, w)
  }

  /** Merging the others of a kind does not make an update less calm. */
  lemma StillCalm(tier: Tier, t: Table, kind: Kind, items: map<Key, Entity>, done: set<Key>, u: Table, k: Key)
    requires Merging(t, kind, items, done, u) && Typed(t) && Typed(u)
    requires k in items && k !in done && Fits(Ref(kind, k), items[k]) && Calm(tier, t, Ref(kind, k), items[k])
    ensures Calm(tier, u, Ref(kind, k), items[k])
  {
    var r := Ref(kind, k);
    assert r in u <==> r in t;
    match items[k]
    case ASubmission(_, _, _) =>
      forall q | q in u && u[q].ASubchange?
        ensures q in t && u[q] == t[q]
      {
        assert Fits(q, u[q]);
      }
    case ASubchange(c) =>
      assert Ref(Submission, c.submission) in u <==> Ref(Submission, c.submission) in t;
      if Ref(Submission, c.submission) in t && t[Ref(Submission, c.submission)].ASubmission? {
        var q := Ref(Task, PairOfChange(t, c).task);
        assert q in u <==> q in t;
      }
    case _ =>
  }

  lemma MergeStarts(t: Table, v: View, a: seq<Note>, x: seq<Event>, kind: Kind, items: map<Key, Entity>)
    ensures Merging(t, kind, items, {}, t) && MergeCarried(t, v, a, kind, items, t, v, a)
    ensures Reported(WatchedRefs(t), x, WatchedRefs(t), x)
  {
    hide Mirror;
    HeardNothing(v, a);
    ReportedOne(WatchedRefs(t), x, Event(Updated, Ref(kind, "")));
  }

  lemma IntegralTyped(t: Table)
    requires Integral(t)
    ensures Typed(t)
  {
  }

  lemma MergeStep(t: Table, v: View, a: seq<Note>, x: seq<Event>, kind: Kind, items: map<Key, Entity>, done: set<Key>,
        k: Key,
                  u: Table, w: View, b: seq<Note>, y: seq<Event>, w': View, b': seq<Note>, y': seq<Event>)
    requires Typed(t) && Integral(u) && Merging(t, kind, items, done, u) && Mirror(Covering, u, w)
    requires MergeCarried(t, v, a, kind, items, u, w, b) && Reported(WatchedRefs(t), x, WatchedRefs(u), y)
    requires k in items && k !in done && Fits(Ref(kind, k), items[k]) && Consistent(t, items[k])
    requires PutCarried(u, w, b, Ref(kind, k), items[k], w', b')
    requires y' ==
             if Watched(kind) then y + [Event(if Ref(kind, k) in u then Updated else Created, Ref(kind, k))] else y
    ensures var u' := u[Ref(kind, k) := items[k]];
            && Integral(u') && Mirror(Covering, u', w') && Merging(t, kind, items, done + {k}, u')
            && MergeCarried(t, v, a, kind, items, u', w', b') && Reported(WatchedRefs(t), x, WatchedRefs(u'), y')
  {
    hide Mirror, Heard, Calm, Reported, WatchedRefs, Integral, Consistent, Fits;
    var r := Ref(kind, k);
    var u' := u[r := items[k]];
    MergeConsistent(t, kind, items, done, u, items[k]);
    IntegralTyped(u);
    PutServes(u, r, items[k], w, b, w', b', y);
    ReportedTransitive(WatchedRefs(t), x, WatchedRefs(u), y, WatchedRefs(u'), y');
    HeardTransitive(v, a, w, b, w', b');
    forall tier | AllCalm(tier, t, kind, items) && Mirror(tier, t, v)
      ensures Mirror(tier, u', w')
    {
      StillCalm(tier, t, kind, items, done, u, k);
    }
  }

  lemma MergeConsistent(t: Table, kind: Kind, items: map<Key, Entity>, done: set<Key>, u: Table, e: Entity)
    requires Merging(t, kind, items, done, u) && Consistent(t, e)
    ensures Consistent(u, e)
  {
  }

  // ----------------------------------------------------------- delete_list

  /** The table without everything that reaches one of the targets. */
  ghost function PruneAll(t: Table, targets: set<Ref>): Table
    requires Typed(t)
  {
    map r | r in t && !(exists d :: d in targets && Reaches(t, r, d)) :: t[r]
  }

  lemma {:induction false} PruneAllReach(t: Table, targets: set<Ref>, r: Ref, d: Ref)
    requires Typed(t) && Typed(PruneAll(t, targets)) && r in PruneAll(t, targets)
    ensures Reaches(PruneAll(t, targets), r, d) <==> Reaches(t, r, d)
    decreases Depth(r.kind)
  {
    var u := PruneAll(t, targets);
    forall q | q in Refs(t[r])
      ensures Reaches(u, q, d) <==> Reaches(t, q, d)
    {
      RefsGoUp(t, r, q);
      if q in t {
        forall d' | d' in targets && Reaches(t, q, d')
          ensures false
        {
          DirectReach(t, r, q, d');
        }
        PruneAllReach(t, targets, q, d);
      }
    }
  }

  lemma PruneAllStep(t: Table, targets: set<Ref>, d: Ref)
    requires Typed(t)
    ensures Typed(PruneAll(t, targets))
    ensures Prune(PruneAll(t, targets), d) == PruneAll(t, targets + {d})
  {
    var u := PruneAll(t, targets);
    forall r | r in u {
      PruneAllReach(t, targets, r, d);
    }
    assert forall r :: (exists e :: e in targets + {d} && Reaches(t, r, e)) <==>
                       (exists e :: e in targets && Reaches(t, r, e)) || Reaches(t, r, d);
  }

  lemma PruneAllKeeps(t: Table, targets: set<Ref>, d: Ref)
    requires Typed(t) && d in t && d !in targets && forall e :: e in targets ==> e.kind == d.kind
    ensures d in PruneAll(t, targets)
  {
    forall e | e in targets && Reaches(t, d, e)
      ensures false
    {
      ReachGoesUp(t, d, e);
    }
  }

  // ----------------------------------------------------------------- runs

  /** The requests of the HTTP interface. Data that cannot be parsed is None. */
  datatype Request =
    | PutOne(ref: Ref, data: Option<Entity>)
    | PutList(kind: Kind, list: map<Key, Option<Entity>>)
    | DeleteOne(ref: Ref)
    | DeleteAll(kind: Kind)

  ghost predicate WellTyped(q: Request) {
    match q
    case PutOne(r, data) => data.Some? ==> Fits(r, data.value)
    case PutList(kind, list) => forall k :: k in list && list[k].Some? ==> Fits(Ref(kind, k), list[k].value)
    case _ => true
  }

  /** A single key has to consist of letters, digits and underscores; the pattern that is
      matched lets one line feed pass at the end. */
  predicate PlainKey(k: Key) {
    var s := if k != "" && k[|k| - 1] == '\n' then k[..|k| - 1] else k;
    s != "" && forall i :: 0 <= i < |s| ==> MergeableKey(s[i..])
  }

  ghost predicate Mergeable(t: Table, list: map<Key, Option<Entity>>) {
    forall k :: k in list ==> Acceptable(t, k, list[k])
  }

  ghost function Items(list: map<Key, Option<Entity>>): map<Key, Entity> {
    map k | k in list && list[k].Some? :: list[k].value
  }

  ghost function Merged(t: Table, kind: Kind, items: map<Key, Entity>): Table {
    map r | r in t.Keys + (set k | k in items :: Ref(kind, k)) ::
      if r.kind == kind && r.key in items then items[r.key] else t[r]
  }

  /** What a request makes of the stores. */
  ghost function NextTable(t: Table, q: Request): (u: Table)
    requires Integral(t) && WellTyped(q)
    ensures Integral(u)
  {
    match q
    case PutOne(r, data) =>
      if PlainKey(r.key) && data.Some? && Consistent(t, data.value) then t[r := data.value] else t
    case PutList(kind, list) =>
      if Mergeable(t, list) then MergedIntegral(t, kind, list); Merged(t, kind, Items(list)) else t
    case DeleteOne(r) => if PlainKey(r.key) && r in t then PruneIntegral(t, r); Prune(t, r) else t
    case DeleteAll(kind) =>
      var targets := set r | r in t && r.kind == kind;
      PruneAllIntegral(t, targets);
      PruneAll(t, targets)
  }

  lemma MergedIntegral(t: Table, kind: Kind, list: map<Key, Option<Entity>>)
    requires Integral(t) && Mergeable(t, list) && WellTyped(PutList(kind, list))
    ensures Integral(Merged(t, kind, Items(list)))
  {
    var u := Merged(t, kind, Items(list));
    forall r | r in u
      ensures Fits(r, u[r]) && Consistent(u, u[r])
    {
      if r.kind == kind && r.key in Items(list) {
        assert Acceptable(t, r.key, list[r.key]);
      } else {
        assert Consistent(t, t[r]);
      }
    }
  }

  lemma PruneAllIntegral(t: Table, targets: set<Ref>)
    requires Integral(t)
    ensures Integral(PruneAll(t, targets))
  {
    var u := PruneAll(t, targets);
    forall r | r in u
      ensures Consistent(u, u[r])
    {
      assert Consistent(t, t[r]);
      forall q | q in Refs(t[r])
        ensures q in u
      {
        forall d | d in targets && Reaches(t, q, d)
          ensures false
        {
          DirectReach(t, r, q, d);
        }
      }
    }
  }

  ghost function TableAfter(t: Table, qs: seq<Request>): (u: Table)
    requires Integral(t) && forall i :: 0 <= i < |qs| ==> WellTyped(qs[i])
    ensures Integral(u)
  {
    if qs == [] then t else NextTable(TableAfter(t, qs[..|qs| - 1]), qs[|qs| - 1])
  }

  ghost predicate CalmRequest(tier: Tier, t: Table, q: Request) {
    match q
    case PutOne(r, data) => data.Some? ==> Calm(tier, t, r, data.value)
    case PutList(kind, list) => AllCalm(tier, t, kind, Items(list))
    case _ => true
  }

  ghost predicate CalmRun(tier: Tier, t: Table, qs: seq<Request>)
    requires Integral(t) && forall i :: 0 <= i < |qs| ==> WellTyped(qs[i])
  {
    forall i :: 0 <= i < |qs| ==> CalmRequest(tier, TableAfter(t, qs[..i]), qs[i])
  }

  /** From one state to another by a request. */
  ghost predicate RequestCarried(t: Table, q: Request, v: View, a: seq<Note>, u: Table, w: View, b: seq<Note>) {
    Heard(v, a, w, b) && forall tier :: CalmRequest(tier, t, q) && Mirror(tier, t, v) ==> Mirror(tier, u, w)
  }

  lemma MergingIsMerged(t: Table, kind: Kind, items: map<Key, Entity>, u: Table)
    requires Merging(t, kind, items, items.Keys, u)
    ensures u == Merged(t, kind, items)
  {
  }

  /** From one state to another by a run. */
  ghost predicate RunCarried(t: Table, qs: seq<Request>, v: View, a: seq<Note>, u: Table, w: View, b: seq<Note>)
    requires Integral(t) && forall i :: 0 <= i < |qs| ==> WellTyped(qs[i])
  {
    Heard(v, a, w, b) && forall tier :: CalmRun(tier, t, qs) && Mirror(tier, t, v) ==> Mirror(tier, u, w)
  }

  lemma RunStep(t: Table, qs: seq<Request>, q: Request, v: View, a: seq<Note>, u: Table, w: View, b: seq<Note>,
                u': Table, w': View, b': seq<Note>)
    requires Integral(t) && forall i :: 0 <= i < |qs + [q]| ==> WellTyped((qs + [q])[i])
    requires forall i :: 0 <= i < |qs| ==> WellTyped(qs[i])
    requires u == TableAfter(t, qs) && RunCarried(t, qs, v, a, u, w, b) && RequestCarried(u, q, w, b, u', w', b')
    ensures RunCarried(t, qs + [q], v, a, u', w', b')
  {
    hide Mirror, Heard, CalmRequest, TableAfter;
    HeardTransitive(v, a, w, b, w', b');
    var all := qs + [q];
    forall tier | CalmRun(tier, t, all) && Mirror(tier, t, v)
      ensures Mirror(tier, u', w')
    {
      forall i | 0 <= i < |qs|
        ensures CalmRequest(tier, TableAfter(t, qs[..i]), qs[i])
      {
        assert all[..i] == qs[..i] && all[i] == qs[i];
      }
      assert CalmRun(tier, t, qs);
      assert all[..|qs|] == qs && all[|qs|] == q;
      assert CalmRequest(tier, u, q);
    }
  }

  /** An empty server mirrors perfectly. */
  lemma EmptyMirrors(tier: Tier)
    ensures Integral(map[]) && Mirror(tier, map[], map[])
  {
    hide Follows;
    forall p
      ensures MirrorAt(tier, map[], map[], p)
    {
      ContentIsAll(map[], p);
      assert ContentOf(map[], p).times == map[];
    }
  }

  // ------------------------------------------------- what the scores mean

  /** When the mirror shows, the score of a user on a task is the declared score of the
      submissions and of the sorted subchanges in the stores; 0.0 without submissions. */
  lemma ScoreboardIsDeclared(t: Table, v: View, p: Pair)
    requires Integral(t) && Mirror(Showing, t, v)
    ensures p !in v ==> ContentOf(t, p).times == map[] && ScoreAt(v, p) == 0.0
    ensures p in v ==>
              && WellFormed(v[p]) && Ref(Task, p.task) in t && t[Ref(Task, p.task)].ATask?
              && var times, cs, last := v[p].times, v[p].changes, v[p].board.last;
                 && Sorted(cs) && SameChanges(cs, ContentOf(t, p).changes) && times == ContentOf(t, p).times
                 && IsLast(times, cs, last)
                 && ScoreAt(v, p) == Declared(t[Ref(Task, p.task)].mode, times, cs, last)
                 && InTimeOrder(v[p].history)
  {
    hide ContentOf, Fold, Declared, Points, Compress;
    assert MirrorAt(Showing, t, v, p);
    if p in v {
      MirrorWeaker(Showing, t, v);
      PairHasTask(t, v, p);
      CurrentScoreIsDeclared(v[p].mode, v[p].times, v[p].changes);
      HistoryInTimeOrder(v[p].mode, v[p].times, v[p].changes);
    }
  }

  lemma RunStarts(t: Table, v: View, a: seq<Note>)
    requires Integral(t)
    ensures RunCarried(t, [], v, a, t, v, a)
  {
    hide Mirror;
    HeardNothing(v, a);
  }

  lemma DeletedAll(t: Table, kind: Kind, u: Table)
    requires Typed(t)
    requires forall r :: r in u <==> r in t && !exists d: Ref :: d.kind == kind && d in t && Reaches(t, r, d)
    requires forall r :: r in u ==> u[r] == t[r]
    ensures u == PruneAll(t, set r | r in t && r.kind == kind)
  {
    var targets := set r | r in t && r.kind == kind;
    forall r | r in t
      ensures (exists d :: d in targets && Reaches(t, r, d)) <==>
                (exists d: Ref :: d.kind == kind && d in t && Reaches(t, r, d))
    {
    }
  }

  /** The stores determine the scores that show them, histories included. */
  lemma ShowingIsUnique(t: Table, v: View, w: View)
    requires Integral(t) && Mirror(Showing, t, v) && Mirror(Showing, t, w)
    ensures v == w
  {
    hide ContentOf, Fold, Points, Compress, Reset;
    MirrorWeaker(Showing, t, v);
    forall p
      ensures p in v <==> p in w
      ensures p in v ==> v[p] == w[p]
    {
      assert MirrorAt(Showing, t, v, p) && MirrorAt(Showing, t, w, p);
      if p in v {
        PairHasTask(t, v, p);
        ShowsIsFunctional(v[p], w[p], ContentOf(t, p));
      }
    }
  }

  // ------------------------------------------------------------- init_store

  /** The table with only some of its submissions and subchanges. */
  ghost function Loaded(t: Table, done: set<Ref>): Table {
    map r | r in t && (Watched(r.kind) || r in done) :: t[r]
  }

  /** The changes that may be loaded without the history becoming dependent on their order. */
  ghost predicate CalmLoad(t: Table) {
    forall r :: r in t ==> Calm(Showing, t - {r}, r, t[r])
  }

  ghost predicate LoadedMirrors(t: Table, done: set<Ref>, v: View) {
    Mirror(Complete, Loaded(t, done), v) && (CalmLoad(t) ==> Mirror(Showing, Loaded(t, done), v))
  }

  lemma LoadStarts(t: Table)
    ensures LoadedMirrors(t, {}, map[])
  {
    hide Follows;
    var u := Loaded(t, {});
    forall tier, p
      ensures MirrorAt(tier, u, map[], p)
    {
      ContentIsAll(u, p);
      assert ContentOf(u, p).times == map[];
    }
  }

  /** Loading an entity after those it refers to. */
  lemma LoadReady(t: Table, done: set<Ref>, r: Ref, v: View)
    requires Integral(t) && r in t && !Watched(r.kind) && r !in done
    requires r.kind == Subchange ==> forall q :: q in t && q.kind == Submission ==> q in done
    requires forall q :: q in done ==> q in t
    requires forall q :: q in done && q.kind == Subchange ==> forall s :: s in t && s.kind == Submission ==> s in done
    requires LoadedMirrors(t, done, v)
    ensures var u := Loaded(t, done);
            Integral(u) && r !in u && Fits(r, t[r]) && Consistent(u, t[r]) && Mirror(Covering, u, v)
            && u[r := t[r]] == Loaded(t, done + {r})
  {
    hide Mirror;
    var u := Loaded(t, done);
    MirrorWeaker(Complete, u, v);
    forall q | q in u || q == r
      ensures Consistent(u, t[q])
    {
      assert Consistent(t, t[q]) && Fits(q, t[q]);
      forall x | x in Refs(t[q])
        ensures x in u
      {
        RefsGoUp(t, q, x);
      }
    }
  }

  lemma LoadStep(t: Table, done: set<Ref>, r: Ref, v: View, a: seq<Note>, w: View, b: seq<Note>)
    requires Integral(t) && r in t && !Watched(r.kind) && r !in done && Fits(r, t[r])
    requires Loaded(t, done)[r := t[r]] == Loaded(t, done + {r})
    requires LoadedMirrors(t, done, v) && Consistent(Loaded(t, done), t[r])
    requires PutCarried(Loaded(t, done), v, a, r, t[r], w, b)
    ensures LoadedMirrors(t, done + {r}, w)
  {
    hide Mirror, Heard, Integral;
    var u := Loaded(t, done);
    assert Calm(Complete, u, r, t[r]);
    if CalmLoad(t) {
      assert Calm(Showing, t - {r}, r, t[r]);
      assert Calm(Showing, u, r, t[r]) by {
        if t[r].ASubchange? {
          assert Ref(Submission, t[r].change.submission) in Refs(t[r]);
        }
      }
    }
  }

  lemma LoadedAgrees(t: Table, done: set<Ref>)
    ensures forall r :: r in Loaded(t, done) ==> r in t && Loaded(t, done)[r] == t[r]
  {
  }

  lemma LoadEnds(t: Table, done: set<Ref>, v: View)
    requires LoadedMirrors(t, done, v)
    requires forall r :: r in t && (r.kind == Submission || r.kind == Subchange) ==> r in done
    ensures Mirror(Covering, t, v) && Mirror(Complete, t, v) && (CalmLoad(t) ==> Mirror(Showing, t, v))
  {
    hide Mirror, CalmLoad;
    assert forall r: Ref :: Watched(r.kind) || r.kind == Submission || r.kind == Subchange;
    assert Loaded(t, done) == t;
    MirrorWeaker(Complete, t, v);
  }
}
