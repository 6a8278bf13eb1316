/** The class of the six stores with their callbacks. */
module Server {
  import opened Basics
  import opened ScoreSpec
  import opened StoreSpec
  import opened MirrorSpec
  import opened Scoring
  import opened ServerSpec

  datatype Outcome = Done | InvalidKey | InvalidData

  class RankingServer {
    var table: Table
    const scoring: ScoringStore
    // The messages about entities sent to the clients.
    var events: seq<Event>

    ghost predicate Valid()
      reads this, scoring, scoring.Repr
    {
      scoring.Valid() && this !in scoring.Repr && Typed(table)
    }

    constructor ()
      ensures Valid() && Integral(table) && table == map[] && events == []
      ensures scoring.view == map[] && scoring.notes == []
      ensures fresh(scoring) && fresh(scoring.Repr)
    {
      table := map[];
      events := [];
      scoring := new ScoringStore();
    }

    method Send(e: Event)
      modifies this`events
      ensures events == if Watched(e.ref.kind) then old(events) + [e] else old(events)
    {
      if Watched(e.ref.kind) {
        events := events + [e];
      }
    }

    // -------------------------------------------------------------- delete

    /** The delete callbacks, called when the entity and its dependents have left the stores. */
    method OnDelete(r: Ref, e: Entity)
      requires Valid() && Fits(r, e)
      requires e.ASubmission? ==> PairOf(e) in scoring.view
      requires e.ASubchange? && Ref(Submission, e.change.submission) in table ==>
                 && table[Ref(Submission, e.change.submission)].ASubmission?
                 && PairOfChange(table, e.change) in scoring.view
                 && scoring.view[PairOfChange(table, e.change)].times != map[]
      modifies this`events, scoring, scoring.Repr
      ensures Valid() && fresh(scoring.Repr - old(scoring.Repr))
      ensures events == if Watched(r.kind) then old(events) + [Event(Deleted, r)] else old(events)
      ensures e.ASubmission? ==>
                var p := PairOf(e);
                WellFormed(old(scoring.view)[p])
                && scoring.After(p, old(scoring.view), old(scoring.notes),
                                 DeleteSubmission(old(scoring.view)[p], r.key))
      ensures e.ASubchange? && Ref(Submission, e.change.submission) in table ==>
                var p := PairOfChange(table, e.change);
                WellFormed(old(scoring.view)[p])
                && scoring.After(p, old(scoring.view), old(scoring.notes), DeleteChange(old(scoring.view)[p], r.key))
      ensures Watched(r.kind) || (e.ASubchange? && Ref(Submission, e.change.submission) !in table) ==>
                scoring.view == old(scoring.view) && scoring.notes == old(scoring.notes)
    {
      hide ScoringStore.Valid, DeleteSubmission, DeleteChange, Typed;
      match e
      case ASubmission(user, task, _) =>
        scoring.DeleteSubmission(r.key, Pair(user, task));
      case ASubchange(c) =>
        if Ref(Submission, c.submission) in table {
          var s := table[Ref(Submission, c.submission)];
          scoring.DeleteSubchange(Pair(s.user, s.task), r.key);
        }
      case _ =>
        Send(Event(Deleted, r));
    }

    /** The keys of one store, in some order. */
    method Snapshot(kind: Kind) returns (refs: seq<Ref>)
      ensures forall r :: r in refs <==> r in table && r.kind == kind
      ensures forall i, j :: 0 <= i < j < |refs| ==> refs[i] != refs[j]
    {
      refs := [];
      var rest := set r | r in table && r.kind == kind;
      while rest != {}
        invariant forall r :: r in table && r.kind == kind <==> r in refs || r in rest
        invariant forall r :: r in refs ==> r !in rest
        invariant forall i, j :: 0 <= i < j < |refs| ==> refs[i] != refs[j]
      {
        var r :| r in rest;
        refs := refs + [r];
        rest := rest - {r};
      }
    }

    /** delete: the entity leaves its store, then everything that refers to it is deleted,
        then the callbacks are called. */
    method Delete(r: Ref) returns (o: Outcome)
      requires Valid()
      requires r in table ==> ConsistentBelow(table, Depth(r.kind))
      requires r in table && !Dangling(table, r) ==> Mirror(Covering, table, scoring.view)
      modifies this`table, this`events, scoring, scoring.Repr
      ensures Valid() && fresh(scoring.Repr - old(scoring.Repr))
      ensures o == if r in old(table) then Done else InvalidKey
      ensures o == InvalidKey ==>
                (table == old(table) && events == old(events)
                 && scoring.view == old(scoring.view) && scoring.notes == old(scoring.notes))
      ensures o == Done ==> table == Prune(old(table), r)
      ensures o == Done ==> Reported(old(WatchedRefs(table)), old(events), WatchedRefs(table), events)
      ensures o == Done && old(Dangling(table, r)) ==>
                scoring.view == old(scoring.view) && scoring.notes == old(scoring.notes)
      ensures o == Done && !old(Dangling(table, r)) ==>
                Carried(old(table), old(scoring.view), old(scoring.notes), table, scoring.view, scoring.notes)
      decreases 4 - Depth(r.kind), 2
    {
      hide ScoringStore.Valid, Carried, Mirror, Prune, Reported, Reaches, ConsistentBelow, WatchedRefs,
           Shelve, Notified, ScoreSpec.DeleteSubmission, DeleteChange;
      if r !in table {
        return InvalidKey;
      }
      ghost var t, v, notes := table, scoring.view, scoring.notes;
      var e := table[r];
      LeavingCarries(t, r, v, notes);
      table := table - {r};
      Cascade(r, t);
      ghost var n, w := scoring.notes, scoring.view;
      ghost var sent := events;
      CascadeReports(r, t, v, notes, old(events), table, w, n, sent);
      BeforeDelete(r, t, table, v);
      OnDelete(r, e);
      o := Done;
      ReportDeleted(t, r, old(events), table, sent);
      if e.ASubmission? {
        DeleteSubmissionCarries(t, r, v, notes);
      } else if e.ASubchange? {
        if Ref(Submission, e.change.submission) in t {
          DeleteChangeCarries(t, r, v, notes);
        }
      } else {
        CarriedTransitive(t, v, notes, t - {r}, v, notes, table, w, n);
      }
    }

    /** Enforces consistency: goes through the depending stores and deletes what is no longer consistent. */
    method Cascade(r: Ref, ghost t: Table)
      requires Valid() && r in t && table == t - {r} && Typed(t) && ConsistentBelow(t, Depth(r.kind))
      requires Watched(r.kind) ==> Mirror(Covering, table, scoring.view)
      modifies this`table, this`events, scoring, scoring.Repr
      ensures Valid() && fresh(scoring.Repr - old(scoring.Repr))
      ensures table == Prune(t, r) && r !in table
      ensures exists done :: Cascading(r, t, done, old(scoring.view), old(scoring.notes), old(events),
                                       table, scoring.view, scoring.notes, events)
      decreases 4 - Depth(r.kind), 1
    {
      hide ScoringStore.Valid, Cascading, Mirror, Prune, ConsistentBelow;
      var depends := Depends(r.kind);
      CascadeStarts(r, t, scoring.view, scoring.notes, events);
      ghost var done: set<Ref> := {};
      for i := 0 to |depends|
        invariant Valid() && fresh(scoring.Repr - old(scoring.Repr))
        invariant i == 0 ==> done == {} && table == t - {r} && scoring.view == old(scoring.view)
        invariant i == 1 ==> forall o :: o in t && o.kind in depends ==> o in done
        invariant Cascading(r, t, done, old(scoring.view), old(scoring.notes), old(events),
                            table, scoring.view, scoring.notes, events)
      {
        done := Sweep(r, t, depends[i], old(scoring.view), old(scoring.notes), old(events));
      }
      CascadeEnds(r, t, done, old(scoring.view), old(scoring.notes), old(events),
                  table, scoring.view, scoring.notes, events);
    }

    /** Goes through one depending store. */
    method Sweep(r: Ref, ghost t: Table, kind: Kind, ghost v: View, ghost a: seq<Note>, ghost x: seq<Event>)
      returns (ghost done: set<Ref>)
      requires Valid() && r in t && table == t - {r} && Typed(t) && ConsistentBelow(t, Depth(r.kind))
      requires Depends(r.kind) == [kind]
      requires Watched(r.kind) ==> Mirror(Covering, table, v)
      requires Cascading(r, t, {}, v, a, x, table, scoring.view, scoring.notes, events)
      modifies this`table, this`events, scoring, scoring.Repr
      ensures Valid() && fresh(scoring.Repr - old(scoring.Repr))
      ensures forall o :: o in t && o.kind == kind ==> o in done
      ensures Cascading(r, t, done, v, a, x, table, scoring.view, scoring.notes, events)
      decreases 4 - Depth(r.kind), 0
    {
      hide ScoringStore.Valid, Mirror, Prune, ConsistentBelow, Carried, Reported, Remaining;
      var refs := Snapshot(kind);
      var before := table;
      done := {};
      for j := 0 to |refs|
        invariant Valid() && fresh(scoring.Repr - old(scoring.Repr))
        invariant forall o :: o in done <==> o in refs[..j]
        invariant Cascading(r, t, done, v, a, x, table, scoring.view, scoring.notes, events)
      {
        var o := refs[j];
        assert o in refs;
        InconsistentIffReferrer(t, r, done, o);
        if !Consistent(table, before[o]) {
          ghost var u, w, b, y := table, scoring.view, scoring.notes, events;
          CascadeReady(r, t, done, o, v, a, x, u, w, b, y);
          var deleted := Delete(o);
          assert deleted == Done;
          CascadeDeletes(r, t, done, o, v, a, x, u, w, b, y, table, scoring.view, scoring.notes, events);
        } else {
          CascadeSkips(r, t, done, o, v, a, x, table, scoring.view, scoring.notes, events);
        }
        done := done + {o};
      }
    }

    // --------------------------------------------------- create and update

    /** The create callbacks. */
    method OnCreate(r: Ref, e: Entity, ghost t: Table)
      requires Valid() && Integral(t) && r !in t && Fits(r, e) && Consistent(t, e) && table == t[r := e]
      requires Mirror(Covering, t, scoring.view)
      modifies this`events, scoring, scoring.Repr
      ensures Valid() && fresh(scoring.Repr - old(scoring.Repr))
      ensures events == if Watched(r.kind) then old(events) + [Event(Created, r)] else old(events)
      ensures PutCarried(t, old(scoring.view), old(scoring.notes), r, e, scoring.view, scoring.notes)
    {
      hide ScoringStore.Valid, Mirror, PutCarried, ScoreSpec.CreateSubmission, CreateChange, Integral, Shelve, Notified;
      ghost var v, notes := scoring.view, scoring.notes;
      match e
      case ASubmission(user, task, time) =>
        CreateSubmissionCarries(t, r.key, e, v, notes);
        scoring.CreateSubmission(r.key, Pair(user, task), time, table[Ref(Task, task)].mode);
      case ASubchange(c) =>
        InTable(t, e);
        CreateChangeCarries(t, c, v, notes);
        var s := table[Ref(Submission, c.submission)];
        scoring.CreateSubchange(Pair(s.user, s.task), c);
      case _ =>
        PutOtherCarries(t, r, e, v, notes);
        Send(Event(Created, r));
    }

    /** The update callbacks. */
    method OnUpdate(r: Ref, was: Entity, e: Entity, ghost t: Table)
      requires Valid() && Integral(t) && r in t && t[r] == was && Fits(r, e) && Consistent(t, e) && table == t[r := e]
      requires Mirror(Covering, t, scoring.view)
      modifies this`events, scoring, scoring.Repr
      ensures Valid() && fresh(scoring.Repr - old(scoring.Repr))
      ensures events == if Watched(r.kind) then old(events) + [Event(Updated, r)] else old(events)
      ensures PutCarried(t, old(scoring.view), old(scoring.notes), r, e, scoring.view, scoring.notes)
    {
      hide ScoringStore.Valid, Mirror, PutCarried, Integral;
      ghost var v, notes := scoring.view, scoring.notes;
      SameKind(t, r, e);
      match e
      case ASubmission(user, task, time) =>
        UpdatedSubmission(r, was, e, t);
      case ASubchange(c) =>
        UpdatedChange(r, was, c, t);
      case _ =>
        PutOtherCarries(t, r, e, v, notes);
        Send(Event(Updated, r));
    }

    method UpdatedSubmission(r: Ref, was: Entity, e: Entity, ghost t: Table)
      requires Valid() && Integral(t) && r in t && t[r] == was && Fits(r, e) && Consistent(t, e) && table == t[r := e]
      requires Mirror(Covering, t, scoring.view) && was.ASubmission? && e.ASubmission?
      modifies scoring, scoring.Repr
      ensures Valid() && fresh(scoring.Repr - old(scoring.Repr))
      ensures PutCarried(t, old(scoring.view), old(scoring.notes), r, e, scoring.view, scoring.notes)
    {
      hide ScoringStore.Valid, Mirror, PutCarried, Integral, ScoreSpec.UpdateSubmission, Moved, Shelve, Notified, Heard;
      ghost var v, notes := scoring.view, scoring.notes;
      InTable(t, e);
      if PairOf(was) == PairOf(e) {
        RenewSubmissionCarries(t, r.key, e, v, notes);
      } else {
        MoveSubmissionCarries(t, r.key, e, PairOf(was), v, notes, notes);
      }
      scoring.UpdateSubmission(r.key, Pair(was.user, was.task), Pair(e.user, e.task), e.time,
                               table[Ref(Task, e.task)].mode);
      if PairOf(was) != PairOf(e) {
        MoveSubmissionCarries(t, r.key, e, PairOf(was), v, notes, scoring.notes);
      }
    }

    method UpdatedChange(r: Ref, was: Entity, c: Change, ghost t: Table)
      requires Valid() && Integral(t) && r in t && t[r] == was && Fits(r, ASubchange(c))
      requires Consistent(t, ASubchange(c)) && table == t[r := ASubchange(c)]
      requires Mirror(Covering, t, scoring.view) && was.ASubchange?
      modifies scoring, scoring.Repr
      ensures Valid() && fresh(scoring.Repr - old(scoring.Repr))
      ensures PutCarried(t, old(scoring.view), old(scoring.notes), r, ASubchange(c), scoring.view, scoring.notes)
    {
      hide ScoringStore.Valid, Mirror, PutCarried, Carried, Integral, UpdateChange, CreateChange, DeleteChange,
          Shelve, Notified;
      ghost var v, notes := scoring.view, scoring.notes;
      InTable(t, ASubchange(c));
      ConsistentEntry(t, r);
      if was.change.submission != c.submission {
        DeleteChangeCarries(t, r, v, notes);
        var old_s := table[Ref(Submission, was.change.submission)];
        scoring.DeleteSubchange(Pair(old_s.user, old_s.task), r.key);
        ghost var w, n := scoring.view, scoring.notes;
        CarriedCovering(t, v, notes, t - {r}, w, n);
        CreateChangeCarries(t - {r}, c, w, n);
        var s := table[Ref(Submission, c.submission)];
        scoring.CreateSubchange(Pair(s.user, s.task), c);
        TransferChangeCarries(t, c, v, notes, w, n, scoring.view, scoring.notes);
      } else {
        SetChangeCarries(t, c, v, notes);
        var s := table[Ref(Submission, c.submission)];
        scoring.UpdateSubchange(Pair(s.user, s.task), c);
      }
    }

    /** What holds between any two requests. */
    ghost predicate Serving()
      reads this, scoring, scoring.Repr
    {
      Valid() && Integral(table) && Mirror(Covering, table, scoring.view)
    }

    /** create. Data that cannot be parsed is None. */
    method Create(r: Ref, data: Option<Entity>) returns (o: Outcome)
      requires Serving() && (data.Some? ==> Fits(r, data.value))
      modifies this`table, this`events, scoring, scoring.Repr
      ensures Serving() && fresh(scoring.Repr - old(scoring.Repr))
      ensures o == if r in old(table) then InvalidKey
                   else if data.Some? && Consistent(old(table), data.value) then Done else InvalidData
      ensures o != Done ==> table == old(table) && events == old(events)
                            && scoring.view == old(scoring.view) && scoring.notes == old(scoring.notes)
      ensures o == Done ==>
                && table == old(table)[r := data.value]
                && Reported(old(WatchedRefs(table)), old(events), WatchedRefs(table), events)
                && PutCarried(old(table), old(scoring.view), old(scoring.notes), r, data.value,
                              scoring.view, scoring.notes)
    {
      hide ScoringStore.Valid, Mirror, PutCarried, Reported, Integral;
      if r in table {
        return InvalidKey;
      }
      if data == None || !Consistent(table, data.value) {
        return InvalidData;
      }
      ghost var t := table;
      table := table[r := data.value];
      OnCreate(r, data.value, t);
      PutServes(t, r, data.value, old(scoring.view), old(scoring.notes), scoring.view, scoring.notes, old(events));
      o := Done;
    }

    /** update. */
    method Update(r: Ref, data: Option<Entity>) returns (o: Outcome)
      requires Serving() && (data.Some? ==> Fits(r, data.value))
      modifies this`table, this`events, scoring, scoring.Repr
      ensures Serving() && fresh(scoring.Repr - old(scoring.Repr))
      ensures o == if r !in old(table) then InvalidKey
                   else if data.Some? && Consistent(old(table), data.value) then Done else InvalidData
      ensures o != Done ==> table == old(table) && events == old(events)
                            && scoring.view == old(scoring.view) && scoring.notes == old(scoring.notes)
      ensures o == Done ==>
                && table == old(table)[r := data.value]
                && Reported(old(WatchedRefs(table)), old(events), WatchedRefs(table), events)
                && PutCarried(old(table), old(scoring.view), old(scoring.notes), r, data.value,
                              scoring.view, scoring.notes)
    {
      hide ScoringStore.Valid, Mirror, PutCarried, Reported, Integral;
      if r !in table {
        return InvalidKey;
      }
      if data == None || !Consistent(table, data.value) {
        return InvalidData;
      }
      ghost var t := table;
      var was := table[r];
      table := table[r := data.value];
      OnUpdate(r, was, data.value, t);
      PutServes(t, r, data.value, old(scoring.view), old(scoring.notes), scoring.view, scoring.notes, old(events));
      o := Done;
    }

    /** Inserts an entity, new or not, and calls the callbacks. */
    method Put(r: Ref, e: Entity)
      requires Serving() && Fits(r, e) && Consistent(table, e)
      modifies this`table, this`events, scoring, scoring.Repr
      ensures Valid() && fresh(scoring.Repr - old(scoring.Repr)) && table == old(table)[r := e]
      ensures PutCarried(old(table), old(scoring.view), old(scoring.notes), r, e, scoring.view, scoring.notes)
      ensures events == if Watched(r.kind) then old(events) + [Event(if r in old(table) then Updated else Created, r)]
                        else old(events)
    {
      hide ScoringStore.Valid, Mirror, PutCarried, Reported, Integral;
      ghost var t := table;
      if r in table {
        var was := table[r];
        table := table[r := e];
        OnUpdate(r, was, e, t);
      } else {
        table := table[r := e];
        OnCreate(r, e, t);
      }
    }

    /** Checks a list of entities, all against the stores as they are before the merge. */
    method Parse(kind: Kind, data: map<Key, Option<Entity>>) returns (items: Option<map<Key, Entity>>)
      ensures items.Some? <==> forall k :: k in data ==> Acceptable(table, k, data[k])
      ensures items.Some? ==> items.value.Keys == data.Keys && forall k :: k in data ==> data[k] == Some(items.value[k])
    {
      var found: map<Key, Entity> := map[];
      var rest := data.Keys;
      while rest != {}
        invariant rest <= data.Keys && found.Keys == data.Keys - rest
        invariant forall k :: k in found ==> Acceptable(table, k, data[k]) && data[k] == Some(found[k])
      {
        var k :| k in rest;
        if !Acceptable(table, k, data[k]) {
          return None;
        }
        found := found[k := data[k].value];
        rest := rest - {k};
      }
      return Some(found);
    }

    /** merge_list: all or nothing. */
    method MergeList(kind: Kind, data: map<Key, Option<Entity>>) returns (o: Outcome)
      requires Serving() && forall k :: k in data && data[k].Some? ==> Fits(Ref(kind, k), data[k].value)
      modifies this`table, this`events, scoring, scoring.Repr
      ensures Serving() && fresh(scoring.Repr - old(scoring.Repr))
      ensures o == if forall k :: k in data ==> Acceptable(old(table), k, data[k]) then Done else InvalidData
      ensures o != Done ==> table == old(table) && events == old(events)
                            && scoring.view == old(scoring.view) && scoring.notes == old(scoring.notes)
      ensures o == Done ==>
                var items := Items(data);
                && Merging(old(table), kind, items, data.Keys, table)
                && Reported(old(WatchedRefs(table)), old(events), WatchedRefs(table), events)
                && MergeCarried(old(table), old(scoring.view), old(scoring.notes), kind, items,
                                table, scoring.view, scoring.notes)
    {
      hide ScoringStore.Valid, Mirror, PutCarried, MergeCarried, Merging, Reported, Integral, Consistent, WatchedRefs;
      var parsed := Parse(kind, data);
      if parsed == None {
        return InvalidData;
      }
      var items := parsed.value;
      assert items == Items(data);
      ghost var t, v, notes, sent := table, scoring.view, scoring.notes, events;
      MergeStarts(t, v, notes, sent, kind, items);
      var rest := items.Keys;
      assert items.Keys - rest == {};
      while rest != {}
        invariant rest <= items.Keys && Serving() && fresh(scoring.Repr - old(scoring.Repr))
        invariant Merging(t, kind, items, items.Keys - rest, table)
        invariant Reported(WatchedRefs(t), sent, WatchedRefs(table), events)
        invariant MergeCarried(t, v, notes, kind, items, table, scoring.view, scoring.notes)
      {
        var k :| k in rest;
        ghost var u, w, b, y := table, scoring.view, scoring.notes, events;
        ghost var done := items.Keys - rest;
        MergeConsistent(t, kind, items, done, u, items[k]);
        Put(Ref(kind, k), items[k]);
        MergeStep(t, v, notes, sent, kind, items, done, k, u, w, b, y, scoring.view, scoring.notes, events);
        assert done + {k} == items.Keys - (rest - {k});
        rest := rest - {k};
      }
      assert items.Keys - rest == data.Keys;
      o := Done;
    }

    /** delete, as a request of its own. */
    method Remove(r: Ref) returns (o: Outcome)
      requires Serving()
      modifies this`table, this`events, scoring, scoring.Repr
      ensures Serving() && fresh(scoring.Repr - old(scoring.Repr))
      ensures o == if r in old(table) then Done else InvalidKey
      ensures o == Done ==> table == Prune(old(table), r)
      ensures o != Done ==> table == old(table)
      ensures Reported(old(WatchedRefs(table)), old(events), WatchedRefs(table), events)
      ensures Carried(old(table), old(scoring.view), old(scoring.notes), table, scoring.view, scoring.notes)
    {
      hide ScoringStore.Valid, Mirror, Carried, Reported, Prune;
      CarriedNothing(table, scoring.view, scoring.notes);
      ReportedOne(WatchedRefs(table), events, Event(Updated, r));
      if r in table {
        ConsistentEntry(table, r);
        PruneIntegral(table, r);
        ghost var t, v, notes := table, scoring.view, scoring.notes;
        o := Delete(r);
        CarriedCovering(t, v, notes, table, scoring.view, scoring.notes);
      } else {
        o := InvalidKey;
      }
    }

    /** delete_list: every entity of a store, with all that refers to it. */
    method DeleteList(kind: Kind)
      requires Serving()
      modifies this`table, this`events, scoring, scoring.Repr
      ensures Serving() && fresh(scoring.Repr - old(scoring.Repr))
      ensures forall r :: r in table <==>
                r in old(table) && !exists d: Ref :: d.kind == kind && d in old(table) && Reaches(old(table), r, d)
      ensures forall r :: r in table ==> table[r] == old(table)[r]
      ensures Reported(old(WatchedRefs(table)), old(events), WatchedRefs(table), events)
      ensures Carried(old(table), old(scoring.view), old(scoring.notes), table, scoring.view, scoring.notes)
    {
      hide ScoringStore.Valid, Mirror, Carried, Reported, Prune, Integral, WatchedRefs;
      var refs := Snapshot(kind);
      ghost var t, v, notes, sent := table, scoring.view, scoring.notes, events;
      IntegralTyped(t);
      CarriedNothing(t, v, notes);
      ReportedOne(WatchedRefs(t), sent, Event(Updated, Ref(kind, "")));
      ghost var done: set<Ref> := {};
      assert PruneAll(t, {}) == t;
      for j := 0 to |refs|
        invariant Serving() && fresh(scoring.Repr - old(scoring.Repr))
        invariant forall d :: d in done <==> d in refs[..j]
        invariant table == PruneAll(t, done)
        invariant Reported(WatchedRefs(t), sent, WatchedRefs(table), events)
        invariant Carried(t, v, notes, table, scoring.view, scoring.notes)
      {
        var d := refs[j];
        assert d in refs;
        PruneAllKeeps(t, done, d);
        PruneAllStep(t, done, d);
        ghost var u, w, b, y := table, scoring.view, scoring.notes, events;
        var o := Remove(d);
        assert o == Done;
        CarriedTransitive(t, v, notes, u, w, b, table, scoring.view, scoring.notes);
        ReportedTransitive(WatchedRefs(t), sent, WatchedRefs(u), y, WatchedRefs(table), events);
        done := done + {d};
      }
    }

    // -------------------------------------------------------------- requests

    /** The handlers of the HTTP interface: put, put_list, delete and delete_list. */
    method Handle(q: Request)
      requires Serving() && WellTyped(q)
      modifies this`table, this`events, scoring, scoring.Repr
      ensures Serving() && fresh(scoring.Repr - old(scoring.Repr))
      ensures table == NextTable(old(table), q)
      ensures Reported(old(WatchedRefs(table)), old(events), WatchedRefs(table), events)
      ensures RequestCarried(old(table), q, old(scoring.view), old(scoring.notes), table, scoring.view, scoring.notes)
    {
      hide ScoringStore.Valid, Mirror, Reported, Integral, Consistent, Prune, PruneAll, WatchedRefs, Calm, AllCalm,
          PlainKey, Merging,
           Heard;
      HeardNothing(scoring.view, scoring.notes);
      ReportedOne(WatchedRefs(table), events, Event(Updated, Ref(Contest, "")));
      match q
      case PutOne(r, data) =>
        if PlainKey(r.key) {
          if r in table {
            var o := Update(r, data);
          } else {
            var o := Create(r, data);
          }
        }
      case PutList(kind, list) =>
        ghost var t := table;
        var o := MergeList(kind, list);
        if o == Done {
          assert Items(list).Keys == list.Keys;
          MergingIsMerged(t, kind, Items(list), table);
        }
      case DeleteOne(r) =>
        if PlainKey(r.key) && r in table {
          var o := Remove(r);
        }
      case DeleteAll(kind) =>
        ghost var t := table;
        DeleteList(kind);
        DeletedAll(t, kind, table);
    }

    /** Any run of requests, from any state between two requests. */
    method Serve(qs: seq<Request>)
      requires Serving() && forall i :: 0 <= i < |qs| ==> WellTyped(qs[i])
      modifies this`table, this`events, scoring, scoring.Repr
      ensures Serving()
      ensures table == TableAfter(old(table), qs)
      ensures Reported(old(WatchedRefs(table)), old(events), WatchedRefs(table), events)
      ensures RunCarried(old(table), qs, old(scoring.view), old(scoring.notes), table, scoring.view, scoring.notes)
    {
      hide ScoringStore.Valid, Mirror, Reported, Integral, WatchedRefs, RequestCarried, RunCarried, NextTable;
      ghost var t, v, a, x := table, scoring.view, scoring.notes, events;
      RunStarts(t, v, a);
      ReportedOne(WatchedRefs(t), x, Event(Updated, Ref(Contest, "")));
      for i := 0 to |qs|
        invariant Serving() && fresh(scoring.Repr - old(scoring.Repr))
        invariant table == TableAfter(t, qs[..i])
        invariant Reported(WatchedRefs(t), x, WatchedRefs(table), events)
        invariant RunCarried(t, qs[..i], v, a, table, scoring.view, scoring.notes)
      {
        ghost var u, w, b, y := table, scoring.view, scoring.notes, events;
        Handle(qs[i]);
        assert qs[..i + 1] == qs[..i] + [qs[i]] && qs[..i + 1][..i] == qs[..i];
        RunStep(t, qs[..i], qs[i], v, a, u, w, b, table, scoring.view, scoring.notes);
        ReportedTransitive(WatchedRefs(t), x, WatchedRefs(u), y, WatchedRefs(table), events);
      }
      assert qs[..|qs|] == qs;
    }

    // -------------------------------------------------------------- start-up

    /** Loads one entity of the table into the scores. */
    method Load(r: Ref, ghost done: set<Ref>)
      requires Valid() && Integral(table) && r in table && !Watched(r.kind) && r !in done
      requires r.kind == Subchange ==> forall q :: q in table && q.kind == Submission ==> q in done
      requires forall q :: q in done ==> q in table
      requires forall q :: q in done && q.kind == Subchange ==>
                 forall s :: s in table && s.kind == Submission ==> s in done
      requires LoadedMirrors(table, done, scoring.view)
      modifies this`events, scoring, scoring.Repr
      ensures Valid() && fresh(scoring.Repr - old(scoring.Repr))
      ensures LoadedMirrors(table, done + {r}, scoring.view)
    {
      hide ScoringStore.Valid, Mirror, PutCarried, ScoreSpec.CreateSubmission, CreateChange, Integral, Shelve,
          Notified, Loaded, LoadedMirrors;
      ghost var u, v, notes := Loaded(table, done), scoring.view, scoring.notes;
      var e := table[r];
      LoadReady(table, done, r, v);
      InTable(u, e);
      LoadedAgrees(table, done);
      if r.kind == Submission {
        CreateSubmissionCarries(u, r.key, e, v, notes);
        scoring.CreateSubmission(r.key, Pair(e.user, e.task), e.time, table[Ref(Task, e.task)].mode);
      } else {
        CreateChangeCarries(u, e.change, v, notes);
        var s := table[Ref(Submission, e.change.submission)];
        scoring.CreateSubchange(Pair(s.user, s.task), e.change);
      }
      LoadStep(table, done, r, v, notes, scoring.view, scoring.notes);
    }

    /** init_store: the submissions in any order, then the subchanges in any order. */
    method InitStore()
      requires Valid() && Integral(table) && scoring.view == map[]
      modifies this`events, scoring, scoring.Repr
      ensures Serving() && fresh(scoring.Repr - old(scoring.Repr))
      ensures Mirror(Complete, table, scoring.view)
      ensures CalmLoad(table) ==> Mirror(Showing, table, scoring.view)
    {
      hide ScoringStore.Valid, Mirror, Integral, Loaded, LoadedMirrors, CalmLoad;
      LoadStarts(table);
      ghost var done: set<Ref> := {};
      var subs := Snapshot(Submission);
      for i := 0 to |subs|
        invariant Valid() && fresh(scoring.Repr - old(scoring.Repr))
        invariant forall r :: r in done <==> r in subs[..i]
        invariant LoadedMirrors(table, done, scoring.view)
      {
        assert subs[i] in subs;
        Load(subs[i], done);
        done := done + {subs[i]};
      }
      var changes := Snapshot(Subchange);
      for i := 0 to |changes|
        invariant Valid() && fresh(scoring.Repr - old(scoring.Repr))
        invariant forall r :: r in done <==> r in subs || r in changes[..i]
        invariant LoadedMirrors(table, done, scoring.view)
      {
        assert changes[i] in changes;
        Load(changes[i], done);
        done := done + {changes[i]};
      }
      LoadEnds(table, done, scoring.view);
    }
  }
}
