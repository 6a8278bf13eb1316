/** How the scores mirror the stores: for each user and task, the submissions and
    changes that a Score holds against those that the stores hold. */
module MirrorSpec {
  import opened Basics
  import opened ScoreSpec
  import opened ScoreTheorems
  import opened ScoreRuns
  import opened StoreSpec

  type View = map<Pair, State>

  // ----------------------------------------------- one Score and its content

  /** How closely a Score follows its content. */
  datatype Tier = Covering | Complete | Showing

  ghost predicate Keyed(n: Content) {
    forall k :: k in n.changes ==> n.changes[k].key == k && n.changes[k].submission in n.times
  }

  /** Covering: the submissions are those of the content, every change is one of the
      content, and the submissions are what the changes make of them.
      Complete: moreover every change of the content is there.
      Showing: the Score is a replay of the sorted changes of the content. */
  ghost predicate Follows(tier: Tier, s: State, n: Content) {
    && WellFormed(s) && s.times == n.times && s.board == Fold(s.times, s.changes)
    && (forall c :: c in s.changes ==> c.key in n.changes && n.changes[c.key] == c)
    && (tier != Covering ==> forall k :: k in n.changes ==> n.changes[k] in s.changes)
    && (tier == Showing ==> Shows(s, n))
  }

  /** What the stores guarantee of any operation. */
  ghost predicate Admissible(n: Content, op: Op) {
    match op
    case NewSubmission(key, time) => key !in n.times
    case SetSubmission(key, time) => key in n.times
    case DropSubmission(key) => true
    case NewChange(c) => c.key !in n.changes && c.submission in n.times
    case SetChange(c) => c.key in n.changes && c.submission == n.changes[c.key].submission && c.submission in n.times
    case DropChange(key) => true
  }

  lemma {:induction false} InsertMembers(cs: seq<Change>, c: Change)
    requires cs != [] && Earlier(c, cs[|cs| - 1])
    ensures forall d :: d in Insert(cs, c) <==> d in cs || d == c
  {
    if !Earlier(c, cs[0]) {
      assert cs == [cs[0]] + cs[1..];
      InsertMembers(cs[1..], c);
    }
  }

  lemma NewChangeMembers(s: State, n: Content, c: Change)
    requires Follows(Covering, s, n) && Admissible(n, NewChange(c))
    ensures forall d :: d in CreateChange(s, c).changes <==> d in s.changes || d == c
    ensures About(s.times, CreateChange(s, c).changes)
  {
    hide Fold, Points, Compress, ScoreOf, Absorb;
    if s.changes != [] && !Earlier(s.changes[|s.changes| - 1], c) {
      var l := s.changes[|s.changes| - 1];
      assert l in s.changes;
      PrecedesIsTotal(l.key, c.key);
      InsertMembers(s.changes, c);
      InsertAbout(s.times, s.changes, c);
    }
  }

  lemma ReplaceMembers(cs: seq<Change>, key: Key, c: Change)
    ensures forall d :: d in Replace(cs, key, c) <==>
              (d in cs && d.key != key) || (d == c && exists e :: e in cs && e.key == key)
  {
    var r := Replace(cs, key, c);
    forall d
      ensures d in r <==> (d in cs && d.key != key) || (d == c && exists e :: e in cs && e.key == key)
    {
      if d in r {
        var i :| 0 <= i < |r| && r[i] == d;
        assert cs[i] in cs;
      }
      if d in cs && d.key != key {
        var i :| 0 <= i < |cs| && cs[i] == d;
        assert r[i] == d;
      }
      if d == c && exists e :: e in cs && e.key == key {
        var e :| e in cs && e.key == key;
        var i :| 0 <= i < |cs| && cs[i] == e;
        assert r[i] == d;
      }
    }
  }

  /** The changes and submissions after an operation. */
  lemma DoMembers(s: State, n: Content, op: Op)
    requires Follows(Covering, s, n) && Keyed(n) && Admissible(n, op)
    ensures Applies(s.times, op)
    ensures var r, m := Do(s, op), Next(n, op);
            && r.times == m.times && About(r.times, r.changes)
            && (forall c :: c in r.changes ==> c.key in m.changes && m.changes[c.key] == c)
  {
    hide Fold, Points, Compress, ScoreOf, Absorb;
    match op
    case NewSubmission(key, time) =>
    case SetSubmission(key, time) =>
    case DropSubmission(key) =>
      WithoutAbout(s.times, s.changes, key);
      if key !in s.times {
        assert n.times - {key} == n.times;
      }
    case NewChange(c) => NewChangeMembers(s, n, c);
    case SetChange(c) => ReplaceMembers(s.changes, c.key, c);
    case DropChange(key) => WithoutAbout(s.times, s.changes, key);
  }

  lemma DoStaysComplete(s: State, n: Content, op: Op)
    requires Follows(Complete, s, n) && Keyed(n) && Admissible(n, op)
    ensures Applies(s.times, op)
    ensures var r, m := Do(s, op), Next(n, op);
            forall k :: k in m.changes ==> m.changes[k] in r.changes
  {
    hide Fold, Points, Compress, ScoreOf, Absorb;
    match op
    case NewSubmission(key, time) =>
    case SetSubmission(key, time) =>
    case DropSubmission(key) =>
    case NewChange(c) => NewChangeMembers(s, n, c);
    case SetChange(c) =>
      ReplaceMembers(s.changes, c.key, c);
      assert n.changes[c.key] in s.changes;
    case DropChange(key) =>
  }

  lemma DoFolds(s: State, n: Content, op: Op)
    requires Follows(Covering, s, n) && Keyed(n) && Admissible(n, op)
    ensures Applies(s.times, op)
    ensures var r := Do(s, op);
            WellFormed(r) && r.board == Fold(r.times, r.changes)
  {
    DoMembers(s, n, op);
    match op
    case NewSubmission(key, time) => BlankInFold(s.times, s.changes, key, time);
    case NewChange(c) => FoldAppend(s.times, s.changes, c);
    case _ =>
  }

  /** Every admissible operation keeps a Score covering or complete; an allowed one
      keeps it a replay. */
  lemma DoFollows(tier: Tier, s: State, n: Content, op: Op)
    requires Follows(tier, s, n) && Keyed(n) && Admissible(n, op)
    requires tier == Showing ==> Allowed(s.mode, n, op)
    ensures Applies(s.times, op)
    ensures Follows(tier, Do(s, op), Next(n, op)) && Keyed(Next(n, op)) && Do(s, op).mode == s.mode
  {
    hide Fold, Points, Compress, ScoreOf, Absorb, Insert, WithoutKey, WithoutSubmission, Shows;
    DoMembers(s, n, op);
    DoFolds(s, n, op);
    if tier != Covering {
      DoStaysComplete(s, n, op);
    }
    if tier == Showing {
      DoShows(s, n, op);
    }
  }

  lemma EmptyFollows(tier: Tier, mode: Mode)
    ensures Follows(tier, Empty(mode), Content(map[], map[]))
  {
    assert Shows(Empty(mode), Content(map[], map[]));
  }

  // ------------------------------------------------- the content of the table

  ghost predicate IsSub(t: Table, p: Pair, k: Key) {
    var r := Ref(Submission, k);
    r in t && t[r].ASubmission? && Pair(t[r].user, t[r].task) == p
  }

  ghost predicate IsChange(t: Table, p: Pair, k: Key) {
    var r := Ref(Subchange, k);
    r in t && t[r].ASubchange? && IsSub(t, p, t[r].change.submission)
  }

  ghost function Keys(t: Table): set<Key> {
    set r | r in t :: r.key
  }

  /** n is what the table holds for p, key by key. */
  ghost predicate Contents(t: Table, p: Pair, n: Content) {
    && (forall k :: k in n.times <==> IsSub(t, p, k))
    && (forall k :: k in n.times ==> n.times[k] == t[Ref(Submission, k)].time)
    && (forall k :: k in n.changes <==> IsChange(t, p, k))
    && (forall k :: k in n.changes ==> n.changes[k] == t[Ref(Subchange, k)].change)
  }

  lemma ContentExists(t: Table, p: Pair)
    ensures exists n :: Contents(t, p, n)
  {
    var n := Content(map k | k in Keys(t) && IsSub(t, p, k) :: t[Ref(Submission, k)].time,
                     map k | k in Keys(t) && IsChange(t, p, k) :: t[Ref(Subchange, k)].change);
    forall k
      ensures IsSub(t, p, k) || IsChange(t, p, k) ==> k in Keys(t)
    {
      if IsSub(t, p, k) {
        assert Ref(Submission, k).key in Keys(t);
      }
      if IsChange(t, p, k) {
        assert Ref(Subchange, k).key in Keys(t);
      }
    }
    assert Contents(t, p, n);
  }

  /** The submissions and changes that the stores hold for a user and a task. */
  ghost function ContentOf(t: Table, p: Pair): Content {
    ContentExists(t, p);
    var n :| Contents(t, p, n);
    n
  }

  lemma ContentIsAll(t: Table, p: Pair)
    ensures Contents(t, p, ContentOf(t, p))
  {
    ContentExists(t, p);
  }

  lemma ContentIsUnique(t: Table, p: Pair, n: Content)
    requires Contents(t, p, n)
    ensures ContentOf(t, p) == n
  {
    hide ContentOf;
    ContentIsAll(t, p);
    var m := ContentOf(t, p);
    assert m.times == n.times;
    assert m.changes == n.changes;
  }

  lemma ContentKeyed(t: Table, p: Pair)
    requires Typed(t)
    ensures Keyed(ContentOf(t, p))
  {
    ContentIsAll(t, p);
    var n := ContentOf(t, p);
    forall k | k in n.changes
      ensures n.changes[k].key == k
    {
      assert Fits(Ref(Subchange, k), t[Ref(Subchange, k)]);
    }
  }

  function PairOf(e: Entity): Pair
    requires e.ASubmission?
  {
    Pair(e.user, e.task)
  }

  /** Tables that agree on submissions and subchanges have the same content. */
  lemma SameContent(t: Table, u: Table, p: Pair)
    requires forall r: Ref ::
               r.kind == Submission || r.kind == Subchange ==> (r in t <==> r in u) && (r in t ==> t[r] == u[r])
    ensures ContentOf(t, p) == ContentOf(u, p)
  {
    hide ContentOf;
    ContentIsAll(t, p);
    ContentIsUnique(u, p, ContentOf(t, p));
  }

  /** A new submission that no change mentions. */
  lemma ContentNewSubmission(t: Table, k: Key, e: Entity, p: Pair)
    requires Typed(t) && e.ASubmission? && Ref(Submission, k) !in t
    requires ConsistentBelow(t, 2)
    ensures ContentOf(t[Ref(Submission, k) := e], p)
         == if p == PairOf(e) then Next(ContentOf(t, p), NewSubmission(k, e.time)) else ContentOf(t, p)
  {
    hide ContentOf, ConsistentBelow;
    var u := t[Ref(Submission, k) := e];
    ContentIsAll(t, p);
    forall j
      ensures IsChange(u, p, j) <==> IsChange(t, p, j)
    {
      NotMentioned(t, k, j);
    }
    ContentIsUnique(u, p, if p == PairOf(e) then Next(ContentOf(t, p), NewSubmission(k, e.time)) else ContentOf(t, p));
  }

  lemma NotMentioned(t: Table, k: Key, j: Key)
    requires Typed(t) && ConsistentBelow(t, 2) && Ref(Submission, k) !in t
    ensures var r := Ref(Subchange, j); r in t && t[r].ASubchange? ==> t[r].change.submission != k
  {
    var r := Ref(Subchange, j);
    if r in t && t[r].ASubchange? {
      assert Consistent(t, t[r]);
      assert Ref(Submission, t[r].change.submission) in Refs(t[r]);
    }
  }

  /** A submission updated for the same user and task. */
  lemma ContentSetSubmission(t: Table, k: Key, e: Entity, p: Pair)
    requires e.ASubmission? && IsSub(t, PairOf(e), k)
    ensures ContentOf(t[Ref(Submission, k) := e], p)
         == if p == PairOf(e) then Next(ContentOf(t, p), SetSubmission(k, e.time)) else ContentOf(t, p)
  {
    hide ContentOf;
    var u := t[Ref(Submission, k) := e];
    ContentIsAll(t, p);
    ContentIsUnique(u, p, if p == PairOf(e) then Next(ContentOf(t, p), SetSubmission(k, e.time)) else ContentOf(t, p));
  }

  /** A submission removed together with its changes. */
  lemma ContentDropSubmission(t: Table, u: Table, k: Key, p: Pair)
    requires Typed(t) && Ref(Submission, k) in t
    requires forall r: Ref :: r.kind == Submission || r.kind == Subchange ==>
               (r in u <==> r in t && r != Ref(Submission, k) && Ref(Submission, k) !in Refs(t[r]))
               && (r in u ==> u[r] == t[r])
    ensures ContentOf(u, p)
         == if IsSub(t, p, k) then Next(ContentOf(t, p), DropSubmission(k)) else ContentOf(t, p)
  {
    hide ContentOf;
    ContentIsAll(t, p);
    forall j
      ensures IsSub(u, p, j) <==> IsSub(t, p, j) && j != k
    {
    }
    forall j
      ensures IsChange(u, p, j) <==> IsChange(t, p, j) && t[Ref(Subchange, j)].change.submission != k
    {
    }
    DropIsContent(t, u, k, p, ContentOf(t, p));
  }

  lemma DropIsContent(t: Table, u: Table, k: Key, p: Pair, n: Content)
    requires Contents(t, p, n)
    requires forall j :: IsSub(u, p, j) <==> IsSub(t, p, j) && j != k
    requires forall j :: IsChange(u, p, j) <==> IsChange(t, p, j) && t[Ref(Subchange, j)].change.submission != k
    requires forall j :: IsSub(u, p, j) ==> u[Ref(Submission, j)] == t[Ref(Submission, j)]
    requires forall j :: IsChange(u, p, j) ==> u[Ref(Subchange, j)] == t[Ref(Subchange, j)]
    ensures ContentOf(u, p) == if IsSub(t, p, k) then Next(n, DropSubmission(k)) else n
  {
    hide ContentOf;
    if IsSub(t, p, k) {
      ContentIsUnique(u, p, Next(n, DropSubmission(k)));
    } else {
      ContentIsUnique(u, p, n);
    }
  }

  /** A submission that moves to another user or task takes its changes along. */
  lemma ContentMoveSubmission(t: Table, k: Key, e: Entity, p: Pair)
    requires Typed(t) && e.ASubmission? && Ref(Submission, k) in t && !IsSub(t, PairOf(e), k)
    requires p != PairOf(e)
    ensures ContentOf(t[Ref(Submission, k) := e], p)
         == if IsSub(t, p, k) then Next(ContentOf(t, p), DropSubmission(k)) else ContentOf(t, p)
  {
    hide ContentOf;
    var u := t[Ref(Submission, k) := e];
    assert Fits(Ref(Submission, k), t[Ref(Submission, k)]);
    ContentIsAll(t, p);
    forall j
      ensures IsSub(u, p, j) <==> IsSub(t, p, j) && j != k
    {
    }
    forall j
      ensures IsChange(u, p, j) <==> IsChange(t, p, j) && t[Ref(Subchange, j)].change.submission != k
    {
    }
    DropIsContent(t, u, k, p, ContentOf(t, p));
  }

  /** Where the submission arrives, with the changes the stores hold for it. */
  lemma ContentArrival(t: Table, k: Key, e: Entity)
    requires Typed(t) && e.ASubmission? && Ref(Submission, k) in t && !IsSub(t, PairOf(e), k)
    ensures var n, m := ContentOf(t, PairOf(e)), ContentOf(t[Ref(Submission, k) := e], PairOf(e));
            && m.times == n.times[k := e.time] && k !in n.times
            && (forall j :: j in n.changes ==> j in m.changes && m.changes[j] == n.changes[j])
            && (forall j :: j in m.changes ==> j in n.changes || m.changes[j].submission == k)
  {
    hide ContentOf;
    var p, u := PairOf(e), t[Ref(Submission, k) := e];
    ContentIsAll(t, p);
    ContentIsAll(u, p);
    assert ContentOf(u, p).times == ContentOf(t, p).times[k := e.time];
  }

  /** A change added, or replaced by one of the same submission. */
  /** Putting a change makes no other key a submission or a change of p, or none any more. */
  lemma PutChangeMembers(t: Table, c: Change, p: Pair)
    requires Typed(t)
    requires Ref(Subchange, c.key) in t ==>
               t[Ref(Subchange, c.key)].ASubchange? && t[Ref(Subchange, c.key)].change.submission == c.submission
    ensures var u := t[Ref(Subchange, c.key) := ASubchange(c)];
      && (forall j :: IsSub(u, p, j) <==> IsSub(t, p, j))
      && (forall j :: IsChange(u, p, j) <==> IsChange(t, p, j) || (j == c.key && IsSub(t, p, c.submission)))
  {
  }

  lemma ContentPutChange(t: Table, c: Change, p: Pair)
    requires Typed(t)
    requires Ref(Subchange, c.key) in t ==>
               t[Ref(Subchange, c.key)].ASubchange? && t[Ref(Subchange, c.key)].change.submission == c.submission
    ensures ContentOf(t[Ref(Subchange, c.key) := ASubchange(c)], p)
         == if IsSub(t, p, c.submission) then Next(ContentOf(t, p), NewChange(c)) else ContentOf(t, p)
  {
    hide ContentOf, Typed;
    var u := t[Ref(Subchange, c.key) := ASubchange(c)];
    ContentIsAll(t, p);
    PutChangeMembers(t, c, p);
    ContentIsUnique(u, p, if IsSub(t, p, c.submission) then Next(ContentOf(t, p), NewChange(c)) else ContentOf(t, p));
  }

  lemma ContentDropChange(t: Table, k: Key, p: Pair)
    requires Ref(Subchange, k) in t && t[Ref(Subchange, k)].ASubchange?
    ensures ContentOf(t - {Ref(Subchange, k)}, p)
         == if IsSub(t, p, t[Ref(Subchange, k)].change.submission) then Next(ContentOf(t, p), DropChange(k))
            else ContentOf(t, p)
  {
    hide ContentOf;
    var u := t - {Ref(Subchange, k)};
    ContentIsAll(t, p);
    forall j
      ensures IsSub(u, p, j) <==> IsSub(t, p, j)
    {
    }
    forall j
      ensures IsChange(u, p, j) <==> IsChange(t, p, j) && j != k
    {
    }
    ContentIsUnique(u, p,
                    if IsSub(t, p, t[Ref(Subchange, k)].change.submission) then Next(ContentOf(t, p), DropChange(k))
                          else ContentOf(t, p));
  }

  // ---------------------------------------------------------------- mirror

  ghost predicate HasMode(t: Table, p: Pair, mode: Mode) {
    var r := Ref(Task, p.task);
    r in t && t[r].ATask? ==> t[r].mode == mode
  }

  /** There is a Score for p exactly if there are submissions; it follows its content, and
      a showing one also has the mode of its task. */
  ghost predicate MirrorAt(tier: Tier, t: Table, v: View, p: Pair) {
    && (p in v <==> ContentOf(t, p).times != map[])
    && (p in v ==> Follows(tier, v[p], ContentOf(t, p)))
    && (tier == Showing && p in v ==> HasMode(t, p, v[p].mode))
  }

  /** The scores are the partition of the submissions by user and task. */
  ghost predicate Mirror(tier: Tier, t: Table, v: View) {
    forall p :: MirrorAt(tier, t, v, p)
  }

  /** The Score of a pair, a new one if there is none yet. */
  function At(v: View, p: Pair, mode: Mode): State {
    if p in v then v[p] else Empty(mode)
  }

  /** The scores with that of p replaced, or removed once it has no submissions. */
  function Shelve(v: View, p: Pair, s: State): View {
    if s.times == map[] then v - {p} else v[p := s]
  }

  ghost predicate OneStep(t: Table, u: Table, p: Pair, op: Op) {
    forall q :: ContentOf(u, q) == if q == p then Next(ContentOf(t, q), op) else ContentOf(t, q)
  }

  ghost predicate SameTasks(t: Table, u: Table) {
    forall r: Ref :: r.kind == Task && r in u ==> r in t && t[r] == u[r]
  }

  lemma AtFollows(tier: Tier, t: Table, v: View, p: Pair, mode: Mode)
    requires Mirror(tier, t, v) && Typed(t)
    ensures Follows(tier, At(v, p, mode), ContentOf(t, p)) && Keyed(ContentOf(t, p))
  {
    hide ContentOf, Follows;
    ContentKeyed(t, p);
    assert MirrorAt(tier, t, v, p);
    if p !in v {
      assert ContentOf(t, p).times == map[];
      assert ContentOf(t, p).changes == map[];
      assert ContentOf(t, p) == Content(map[], map[]);
      EmptyFollows(tier, mode);
    }
  }

  /** One operation on the Score of p keeps the mirror when the stores change accordingly. */
  lemma MirrorStep(tier: Tier, t: Table, u: Table, v: View, p: Pair, op: Op, mode: Mode)
    requires Mirror(tier, t, v) && Typed(t) && OneStep(t, u, p, op) && SameTasks(t, u)
    requires Admissible(ContentOf(t, p), op)
    requires tier == Showing ==> Allowed(At(v, p, mode).mode, ContentOf(t, p), op) && (p in v || HasMode(u, p, mode))
    ensures WellFormed(At(v, p, mode))
    ensures Applies(At(v, p, mode).times, op)
    ensures Mirror(tier, u, Shelve(v, p, Do(At(v, p, mode), op)))
  {
    hide ContentOf, Do, Next, Admissible, Allowed, Follows, Mirror;
    AtFollows(tier, t, v, p, mode);
    FollowsTimes(tier, At(v, p, mode), ContentOf(t, p));
    DoFollows(tier, At(v, p, mode), ContentOf(t, p), op);
    var s := Do(At(v, p, mode), op);
    FollowsTimes(tier, s, ContentOf(u, p));
    forall q
      ensures MirrorAt(tier, u, Shelve(v, p, s), q)
    {
      MirrorEverywhere(tier, t, v, q);
      assert ContentOf(u, q) == if q == p then Next(ContentOf(t, q), op) else ContentOf(t, q);
    }
    MirrorFrom(tier, u, Shelve(v, p, s));
  }

  lemma MirrorEverywhere(tier: Tier, t: Table, v: View, p: Pair)
    requires Mirror(tier, t, v)
    ensures MirrorAt(tier, t, v, p)
  {
  }

  lemma MirrorFrom(tier: Tier, t: Table, v: View)
    requires forall p :: MirrorAt(tier, t, v, p)
    ensures Mirror(tier, t, v)
  {
  }

  ghost predicate NoChangeOf(t: Table, k: Key) {
    forall r :: r in t && t[r].ASubchange? ==> t[r].change.submission != k
  }

  /** update_submission when the user or the task changes. */
  ghost function Moved(v: View, k: Key, p: Pair, e: Entity, mode: Mode): View
    requires p in v && WellFormed(v[p]) && e.ASubmission?
  {
    var w := Shelve(v, p, DeleteSubmission(v[p], k));
    Shelve(w, PairOf(e), CreateSubmission(At(w, PairOf(e), mode), k, e.time))
  }

  /** Without changes of its own, a submission that arrives is a new one. */
  lemma ArrivalContent(t: Table, k: Key, e: Entity)
    requires Typed(t) && e.ASubmission? && Ref(Submission, k) in t && !IsSub(t, PairOf(e), k) && NoChangeOf(t, k)
    ensures ContentOf(t[Ref(Submission, k) := e], PairOf(e)) == Next(ContentOf(t, PairOf(e)), NewSubmission(k, e.time))
  {
    hide ContentOf;
    var p, u := PairOf(e), t[Ref(Submission, k) := e];
    ContentArrival(t, k, e);
    var n, m := ContentOf(t, p), ContentOf(u, p);
    ContentIsAll(u, p);
    forall j | j in m.changes
      ensures j in n.changes
    {
      assert u[Ref(Subchange, j)] == t[Ref(Subchange, j)];
    }
    assert m.changes == n.changes;
  }

  lemma ArrivalFollows(tier: Tier, t: Table, v: View, k: Key, e: Entity, mode: Mode)
    requires Mirror(tier, t, v) && Typed(t) && e.ASubmission? && Ref(Submission, k) in t && !IsSub(t, PairOf(e), k)
    requires tier != Covering ==> NoChangeOf(t, k)
    ensures Follows(tier, CreateSubmission(At(v, PairOf(e), mode), k, e.time),
                    ContentOf(t[Ref(Submission, k) := e], PairOf(e)))
  {
    hide ContentOf, Fold, Points, Compress, ScoreOf, Typed, NoChangeOf, IsSub, Mirror;
    var p := PairOf(e);
    AtFollows(tier, t, v, p, mode);
    ContentArrival(t, k, e);
    DoFollows(tier, At(v, p, mode), ContentOf(t, p), NewSubmission(k, e.time));
    if tier != Covering {
      ArrivalContent(t, k, e);
    }
  }

  lemma MoveKeepsMirror(tier: Tier, t: Table, v: View, k: Key, e: Entity, p: Pair, mode: Mode)
    requires Mirror(tier, t, v) && Typed(t) && e.ASubmission? && IsSub(t, p, k) && p != PairOf(e)
    requires tier != Covering ==> NoChangeOf(t, k)
    requires tier == Showing ==> HasMode(t, PairOf(e), mode)
    ensures p in v && WellFormed(v[p])
    ensures Mirror(tier, t[Ref(Submission, k) := e], Moved(v, k, p, e, mode))
  {
    hide ContentOf, Follows, DeleteSubmission, NoChangeOf, Reset, Fold;
    ContentIsAll(t, p);
    assert ContentOf(t, p).times != map[];
    assert MirrorAt(tier, t, v, p);
    AtFollows(tier, t, v, p, mode);
    DropFollows(tier, v[p], ContentOf(t, p), k);
    ArrivalFollows(tier, t, v, k, e, mode);
    var q1, u := PairOf(e), t[Ref(Submission, k) := e];
    var w, x := Shelve(v, p, DeleteSubmission(v[p], k)), Moved(v, k, p, e, mode);
    assert At(w, q1, mode) == At(v, q1, mode);
    ContentArrival(t, k, e);
    assert MirrorAt(tier, t, v, q1);
    ShelvedAt(tier, u, w, q1, CreateSubmission(At(w, q1, mode), k, e.time));
    ContentMoveSubmission(t, k, e, p);
    ShelvedAt(tier, u, v, p, DeleteSubmission(v[p], k));
    StaysAt(tier, u, u, w, x, p);
    forall q | q != q1 && q != p
      ensures MirrorAt(tier, u, x, q)
    {
      assert MirrorAt(tier, t, v, q);
      ContentMoveSubmission(t, k, e, q);
      StaysAt(tier, t, u, v, x, q);
    }
  }

  lemma ShelvedAt(tier: Tier, u: Table, v: View, p: Pair, s: State)
    requires Follows(tier, s, ContentOf(u, p)) && (tier == Showing ==> HasMode(u, p, s.mode))
    ensures MirrorAt(tier, u, Shelve(v, p, s), p)
  {
    hide ContentOf, Follows, HasMode;
    FollowsTimes(tier, s, ContentOf(u, p));
  }

  lemma StaysAt(tier: Tier, t: Table, u: Table, v: View, x: View, p: Pair)
    requires MirrorAt(tier, t, v, p) && ContentOf(u, p) == ContentOf(t, p)
    requires (p in x <==> p in v) && (p in v ==> x[p] == v[p])
    requires tier == Showing && p in v && HasMode(t, p, v[p].mode) ==> HasMode(u, p, v[p].mode)
    ensures MirrorAt(tier, u, x, p)
  {
    hide ContentOf, Follows, HasMode;
  }

  lemma FollowsTimes(tier: Tier, s: State, n: Content)
    requires Follows(tier, s, n)
    ensures s.times == n.times && WellFormed(s)
  {
  }

  lemma DropFollows(tier: Tier, s: State, n: Content, k: Key)
    requires Follows(tier, s, n) && Keyed(n)
    ensures WellFormed(s)
    ensures var r := DeleteSubmission(s, k); Follows(tier, r, Next(n, DropSubmission(k))) && r.mode == s.mode
  {
    hide Fold, Points, Compress, ScoreOf, Shows;
    DoFollows(tier, s, n, DropSubmission(k));
  }

  lemma MirrorWeaker(tier: Tier, t: Table, v: View)
    requires Mirror(tier, t, v)
    ensures Mirror(Covering, t, v)
    ensures tier == Showing ==> Mirror(Complete, t, v)
  {
    hide ContentOf, Shows;
    forall p
      ensures MirrorAt(Covering, t, v, p)
      ensures tier == Showing ==> MirrorAt(Complete, t, v, p)
    {
      assert MirrorAt(tier, t, v, p);
    }
  }

  /** A submission that moves to another user or task drops its changes from the scores:
      a complete mirror stays complete exactly if the stores hold no change of it. */
  lemma MoveCompleteExact(t: Table, v: View, k: Key, e: Entity, p: Pair, mode: Mode)
    requires Mirror(Complete, t, v) && Typed(t) && e.ASubmission? && IsSub(t, p, k) && p != PairOf(e)
    ensures p in v && WellFormed(v[p])
    ensures var u, x := t[Ref(Submission, k) := e], Moved(v, k, p, e, mode);
            Mirror(Covering, u, x) && (Mirror(Complete, u, x) <==> NoChangeOf(t, k))
  {
    hide ContentOf, Follows, DeleteSubmission, CreateSubmission;
    MirrorWeaker(Complete, t, v);
    MoveKeepsMirror(Covering, t, v, k, e, p, mode);
    if NoChangeOf(t, k) {
      MoveKeepsMirror(Complete, t, v, k, e, p, mode);
    } else {
      MoveLosesChange(t, v, k, e, p, mode);
    }
  }

  lemma MoveLosesChange(t: Table, v: View, k: Key, e: Entity, p: Pair, mode: Mode)
    requires Mirror(Covering, t, v) && Typed(t) && e.ASubmission? && IsSub(t, p, k) && p != PairOf(e)
    requires !NoChangeOf(t, k)
    requires p in v && WellFormed(v[p])
    ensures !Mirror(Complete, t[Ref(Submission, k) := e], Moved(v, k, p, e, mode))
  {
    hide ContentOf, Fold, Points, Compress, ScoreOf, Shows, DeleteSubmission;
    var q, u, x := PairOf(e), t[Ref(Submission, k) := e], Moved(v, k, p, e, mode);
    var r :| r in t && t[r].ASubchange? && t[r].change.submission == k;
    assert Fits(r, t[r]) && r == Ref(Subchange, t[r].change.key);
    assert IsChange(u, q, r.key);
    ContentIsAll(u, q);
    AtFollows(Covering, t, v, q, mode);
    ContentIsAll(t, q);
    assert t[r].change !in At(v, q, mode).changes;
    assert k in CreateSubmission(At(v, q, mode), k, e.time).times;
    assert x[q] == CreateSubmission(At(v, q, mode), k, e.time);
    assert !MirrorAt(Complete, u, x, q);
  }
}
