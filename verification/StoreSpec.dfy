/** The six entity stores as one table, with the references between entities and
    what a cascading deletion takes away. */
module StoreSpec {
  import opened Basics
  import opened ScoreSpec

  datatype Kind = Contest | Task | Team | User | Submission | Subchange

  /** An entity of one of the stores, by its key. */
  datatype Ref = Ref(kind: Kind, key: Key)

  datatype Entity =
    | AContest
    | ATask(contest: Key, mode: Mode)
    | ATeam
    | AUser(team: Option<Key>)
    | ASubmission(user: Key, task: Key, time: int)
    | ASubchange(change: Change)

  type Table = map<Ref, Entity>

  function KindOf(e: Entity): Kind {
    match e
    case AContest => Contest
    case ATask(_, _) => Task
    case ATeam => Team
    case AUser(_) => User
    case ASubmission(_, _, _) => Submission
    case ASubchange(_) => Subchange
  }

  /** The entities that e refers to. */
  function Refs(e: Entity): set<Ref> {
    match e
    case AContest => {}
    case ATask(contest, _) => {Ref(Contest, contest)}
    case ATeam => {}
    case AUser(team) => if team.Some? then {Ref(Team, team.value)} else {}
    case ASubmission(user, task, _) => {Ref(Task, task), Ref(User, user)}
    case ASubchange(change) => {Ref(Submission, change.submission)}
  }

  /** The stores that hold the entities referring to this one. */
  function Depends(kind: Kind): seq<Kind> {
    match kind
    case Contest => [Task]
    case Task => [Submission]
    case Team => [User]
    case User => [Submission]
    case Submission => [Subchange]
    case Subchange => []
  }

  /** How many references lead from a kind to the top. */
  function Depth(kind: Kind): nat {
    match kind
    case Contest => 0
    case Team => 0
    case Task => 1
    case User => 1
    case Submission => 2
    case Subchange => 3
  }

  predicate Consistent(t: Table, e: Entity) {
    forall r :: r in Refs(e) ==> r in t
  }

  predicate Fits(r: Ref, e: Entity) {
    KindOf(e) == r.kind && (e.ASubchange? ==> e.change.key == r.key)
  }

  ghost predicate Typed(t: Table) {
    forall r :: r in t ==> Fits(r, t[r])
  }

  /** Referential integrity of the entities deeper than a kind. */
  ghost predicate ConsistentBelow(t: Table, depth: int) {
    forall r :: r in t && Depth(r.kind) > depth ==> Consistent(t, t[r])
  }

  /** Referential integrity of the whole table. */
  ghost predicate Integral(t: Table) {
    Typed(t) && forall r :: r in t ==> Consistent(t, t[r])
  }

  lemma RefsGoUp(t: Table, r: Ref, q: Ref)
    requires Typed(t) && r in t && q in Refs(t[r])
    ensures Depth(q.kind) == Depth(r.kind) - 1 && r.kind in Depends(q.kind)
  {
    assert Fits(r, t[r]);
  }

  // ---------------------------------------------------------------- cascade

  /** r refers to the target, directly or through other entities, or is the target. */
  ghost predicate Reaches(t: Table, r: Ref, target: Ref)
    requires Typed(t)
    decreases Depth(r.kind)
  {
    r == target || (r in t && exists q :: q in Refs(t[r]) && (RefsGoUp(t, r, q); Reaches(t, q, target)))
  }

  /** The table without the entities that reach the target. */
  ghost function Prune(t: Table, target: Ref): Table
    requires Typed(t)
  {
    map r | r in t && !Reaches(t, r, target) :: t[r]
  }

  lemma {:induction false} ReachGoesUp(t: Table, r: Ref, target: Ref)
    requires Typed(t) && Reaches(t, r, target)
    ensures r == target || Depth(target.kind) < Depth(r.kind)
    decreases Depth(r.kind)
  {
    if r != target {
      var q :| q in Refs(t[r]) && (RefsGoUp(t, r, q); Reaches(t, q, target));
      RefsGoUp(t, r, q);
      ReachGoesUp(t, q, target);
    }
  }

  lemma {:induction false} ReachIsTransitive(t: Table, a: Ref, b: Ref, c: Ref)
    requires Typed(t) && Reaches(t, a, b) && Reaches(t, b, c)
    ensures Reaches(t, a, c)
    decreases Depth(a.kind)
  {
    if a != b {
      var q :| q in Refs(t[a]) && (RefsGoUp(t, a, q); Reaches(t, q, b));
      RefsGoUp(t, a, q);
      ReachIsTransitive(t, q, b, c);
    }
  }

  /** Whatever reaches the target reaches one of the entities that refer to it directly. */
  lemma {:induction false} LastStep(t: Table, r: Ref, target: Ref) returns (o: Ref)
    requires Typed(t) && Reaches(t, r, target) && r != target
    ensures o in t && target in Refs(t[o]) && Reaches(t, r, o)
    decreases Depth(r.kind)
  {
    var q :| q in Refs(t[r]) && (RefsGoUp(t, r, q); Reaches(t, q, target));
    if q == target {
      o := r;
    } else {
      RefsGoUp(t, r, q);
      o := LastStep(t, q, target);
    }
  }

  lemma DirectReach(t: Table, r: Ref, q: Ref, target: Ref)
    requires Typed(t) && r in t && q in Refs(t[r]) && Reaches(t, q, target)
    ensures Reaches(t, r, target)
  {
    RefsGoUp(t, r, q);
  }

  /** The entities gone once the direct referrers in `done` have been deleted. */
  ghost predicate Gone(t: Table, target: Ref, done: set<Ref>, r: Ref)
    requires Typed(t)
  {
    r == target || exists o :: o in done && o in t && target in Refs(t[o]) && Reaches(t, r, o)
  }

  lemma GoneSpreads(t: Table, target: Ref, done: set<Ref>, r: Ref, q: Ref)
    requires Typed(t) && r in t && q in Refs(t[r])
    ensures Gone(t, target, done, q) && q != target ==> Gone(t, target, done, r)
  {
    if Gone(t, target, done, q) && q != target {
      var d :| d in done && d in t && target in Refs(t[d]) && Reaches(t, q, d);
      DirectReach(t, r, q, d);
    }
  }

  ghost function Remaining(t: Table, target: Ref, done: set<Ref>): Table
    requires Typed(t)
  {
    map r | r in t && !Gone(t, target, done, r) :: t[r]
  }

  lemma RemainingTyped(t: Table, target: Ref, done: set<Ref>)
    requires Typed(t)
    ensures Typed(Remaining(t, target, done))
  {
  }

  /** In the middle of a cascade a referrer is inconsistent exactly if it refers to the target. */
  lemma InconsistentIffReferrer(t: Table, target: Ref, done: set<Ref>, o: Ref)
    requires Typed(t) && ConsistentBelow(t, Depth(target.kind))
    requires o in t && o.kind in Depends(target.kind)
    requires forall d :: d in done ==> d.kind == o.kind
    ensures Consistent(Remaining(t, target, done), t[o]) <==> target !in Refs(t[o])
  {
    var now := Remaining(t, target, done);
    assert Consistent(t, t[o]);
    forall q | q in Refs(t[o]) && q != target
      ensures q in now
    {
      RefsGoUp(t, o, q);
      forall d | d in done && d in t && Reaches(t, q, d)
        ensures false
      {
        ReachGoesUp(t, q, d);
      }
    }
  }

  lemma NotYetGone(t: Table, target: Ref, done: set<Ref>, o: Ref)
    requires Typed(t) && o in t && o.kind in Depends(target.kind) && o !in done
    requires forall d :: d in done ==> d.kind == o.kind
    ensures !Gone(t, target, done, o)
  {
    forall d | d in done && d in t && Reaches(t, o, d)
      ensures false
    {
      ReachGoesUp(t, o, d);
    }
  }

  /** In the middle of a cascade everything deeper than the referrers is consistent. */
  lemma RemainingConsistentBelow(t: Table, target: Ref, done: set<Ref>, kind: Kind)
    requires Typed(t) && ConsistentBelow(t, Depth(target.kind)) && kind in Depends(target.kind)
    ensures ConsistentBelow(Remaining(t, target, done), Depth(kind))
  {
    var now := Remaining(t, target, done);
    forall r | r in now && Depth(r.kind) > Depth(kind)
      ensures Consistent(now, now[r])
    {
      assert Consistent(t, t[r]);
      forall q | q in Refs(t[r])
        ensures q in now
      {
        RefsGoUp(t, r, q);
        GoneSpreads(t, target, done, r, q);
      }
    }
  }

  /** For what remains, reaching a referrer means the same as before the cascade. */
  lemma {:induction false} RemainingReach(t: Table, target: Ref, done: set<Ref>, r: Ref, o: Ref)
    requires Typed(t) && Typed(Remaining(t, target, done))
    requires r in t && !Gone(t, target, done, r)
    requires o in t && target in Refs(t[o])
    ensures Reaches(Remaining(t, target, done), r, o) <==> Reaches(t, r, o)
    decreases Depth(r.kind)
  {
    var now := Remaining(t, target, done);
    if r != o && Reaches(t, r, o) {
      var q :| q in Refs(t[r]) && (RefsGoUp(t, r, q); Reaches(t, q, o));
      RefsGoUp(t, r, q);
      GoneSpreads(t, target, done, r, q);
      ReachGoesUp(t, q, o);
      RefsGoUp(t, o, target);
      if q in t {
        RemainingReach(t, target, done, q, o);
      }
      assert Reaches(now, q, o);
      DirectReach(now, r, q, o);
    }
    if r != o && Reaches(now, r, o) {
      var q :| q in Refs(now[r]) && (RefsGoUp(now, r, q); Reaches(now, q, o));
      RefsGoUp(now, r, q);
      if q in now {
        RemainingReach(t, target, done, q, o);
      }
      assert Reaches(t, q, o);
      DirectReach(t, r, q, o);
    }
  }

  /** Deleting one more referrer from what remains. */
  lemma RemainingStep(t: Table, target: Ref, done: set<Ref>, o: Ref)
    requires Typed(t) && Typed(Remaining(t, target, done))
    requires o in t && target in Refs(t[o])
    ensures Prune(Remaining(t, target, done), o) == Remaining(t, target, done + {o})
  {
    var now := Remaining(t, target, done);
    forall r | r in t
      ensures Gone(t, target, done + {o}, r) <==> Gone(t, target, done, r) || Reaches(t, r, o)
    {
    }
    forall r | r in now {
      RemainingReach(t, target, done, r, o);
    }
  }

  /** Skipping an entity that does not refer to the target. */
  lemma RemainingSkip(t: Table, target: Ref, done: set<Ref>, o: Ref)
    requires Typed(t) && o in t && target !in Refs(t[o])
    ensures Remaining(t, target, done + {o}) == Remaining(t, target, done)
  {
    forall r | r in t
      ensures Gone(t, target, done + {o}, r) <==> Gone(t, target, done, r)
    {
    }
  }

  /** Once every entity of the depending store has been looked at, the cascade is complete. */
  lemma RemainingIsPrune(t: Table, target: Ref, done: set<Ref>)
    requires Typed(t)
    requires forall o :: o in t && o.kind in Depends(target.kind) ==> o in done
    ensures Remaining(t, target, done) == Prune(t, target)
  {
    forall r | r in t
      ensures Gone(t, target, done, r) <==> Reaches(t, r, target)
    {
      if Reaches(t, r, target) && r != target {
        var o := LastStep(t, r, target);
        RefsGoUp(t, o, target);
      }
      if r != target && Gone(t, target, done, r) {
        var o :| o in done && o in t && target in Refs(t[o]) && Reaches(t, r, o);
        DirectReach(t, o, target, target);
        ReachIsTransitive(t, r, o, target);
      }
    }
  }

  /** A cascade restores referential integrity. */
  lemma PruneIntegral(t: Table, target: Ref)
    requires Integral(t)
    ensures Integral(Prune(t, target))
  {
    var now := Prune(t, target);
    forall r | r in now
      ensures Consistent(now, now[r])
    {
      assert Consistent(t, t[r]);
      forall q | q in Refs(t[r])
        ensures q in now
      {
        if Reaches(t, q, target) {
          DirectReach(t, r, q, target);
        }
      }
    }
  }

  /** Adding or replacing a consistent entity keeps referential integrity. */
  lemma PutIntegral(t: Table, r: Ref, e: Entity)
    requires Integral(t) && Fits(r, e) && Consistent(t, e)
    ensures Integral(t[r := e])
  {
  }
}
