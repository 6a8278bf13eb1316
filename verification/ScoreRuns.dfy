/** Whole runs of a Score: after any sequence of operations its state is a function
    of the submissions and the changes it currently holds, whatever the order in
    which they came. */
module ScoreRuns {
  import opened Basics
  import opened ScoreSpec
  import opened ScoreTheorems

  // --------------------------------------------------------- sorted changes

  lemma EarlierIsTransitive(a: Change, b: Change, c: Change)
    requires Earlier(a, b) && Earlier(b, c)
    ensures Earlier(a, c)
  {
    if Precedes(a.key, b.key) && Precedes(b.key, c.key) {
      PrecedesIsTransitive(a.key, b.key, c.key);
    }
  }

  lemma EarlierIsAsymmetric(a: Change, b: Change)
    requires Earlier(a, b)
    ensures !Earlier(b, a)
  {
    if Precedes(a.key, b.key) && Precedes(b.key, a.key) {
      PrecedesIsTransitive(a.key, b.key, a.key);
      PrecedesIsIrreflexive(a.key);
    }
  }

  lemma {:induction false} InsertSorts(cs: seq<Change>, c: Change)
    requires Sorted(cs) && forall d :: d in cs ==> d.key != c.key
    requires cs != [] && !Earlier(cs[|cs| - 1], c)
    ensures var r := Insert(cs, c);
            && Sorted(r)
            && (forall d :: d in r <==> d in cs || d == c)
            && r[0] == if Earlier(c, cs[0]) then c else cs[0]
  {
    if Earlier(c, cs[0]) {
      forall i | 1 <= i < |cs| {
        EarlierIsTransitive(c, cs[0], cs[i]);
      }
    } else {
      assert cs[0] in cs;
      PrecedesIsTotal(c.key, cs[0].key);
      var rest := cs[1..];
      assert rest != [] by {
        PrecedesIsTotal(c.key, cs[|cs| - 1].key);
      }
      assert cs == [cs[0]] + rest;
      InsertSorts(rest, c);
      var r := Insert(rest, c);
      assert Earlier(cs[0], r[0]);
      forall i | 1 <= i < |r| {
        EarlierIsTransitive(cs[0], r[0], r[i]);
      }
    }
  }

  lemma AppendSorts(cs: seq<Change>, c: Change)
    requires Sorted(cs) && (cs == [] || Earlier(cs[|cs| - 1], c))
    ensures Sorted(cs + [c])
  {
    forall i | 0 <= i < |cs|
      ensures Earlier(cs[i], c)
    {
      if i < |cs| - 1 {
        EarlierIsTransitive(cs[i], cs[|cs| - 1], c);
      }
    }
  }

  lemma HeadIsIn(cs: seq<Change>)
    ensures cs != [] ==> cs[0] in cs
  {
  }

  /** There is only one way to sort a set of changes. */
  lemma {:induction false} SortedIsUnique(a: seq<Change>, b: seq<Change>)
    requires Sorted(a) && Sorted(b)
    requires forall c :: c in a <==> c in b
    ensures a == b
  {
    if a == [] {
      HeadIsIn(b);
    } else {
      assert a[0] in b;
      assert b[0] in a;
      FirstIsLeast(a, b[0]);
      FirstIsLeast(b, a[0]);
      if a[0] != b[0] {
        EarlierIsAsymmetric(a[0], b[0]);
      }
      SortedTail(a);
      SortedTail(b);
      SortedIsUnique(a[1..], b[1..]);
      assert a == [a[0]] + a[1..] && b == [b[0]] + b[1..];
    }
  }

  lemma FirstIsLeast(cs: seq<Change>, c: Change)
    requires Sorted(cs) && c in cs
    ensures c == cs[0] || Earlier(cs[0], c)
  {
  }

  lemma SortedTail(cs: seq<Change>)
    requires Sorted(cs) && cs != []
    ensures Sorted(cs[1..])
    ensures forall c :: c in cs[1..] <==> c in cs && c != cs[0]
  {
    assert cs == [cs[0]] + cs[1..];
    forall c | c in cs[1..]
      ensures c != cs[0]
    {
      var i :| 1 <= i < |cs| && cs[i] == c;
      assert Earlier(cs[0], cs[i]);
      EarlierIsAsymmetric(cs[0], cs[i]);
    }
  }

  lemma {:induction false} WithoutKeySorts(cs: seq<Change>, key: Key)
    requires Sorted(cs)
    ensures Sorted(WithoutKey(cs, key))
  {
    if cs != [] {
      var prior := cs[..|cs| - 1];
      WithoutKeySorts(prior, key);
      var kept := WithoutKey(prior, key);
      forall i | 0 <= i < |kept|
        ensures Earlier(kept[i], cs[|cs| - 1])
      {
        assert kept[i] in prior;
      }
    }
  }

  lemma {:induction false} WithoutSubmissionSorts(cs: seq<Change>, key: Key)
    requires Sorted(cs)
    ensures Sorted(WithoutSubmission(cs, key))
  {
    if cs != [] {
      var prior := cs[..|cs| - 1];
      WithoutSubmissionSorts(prior, key);
      var kept := WithoutSubmission(prior, key);
      forall i | 0 <= i < |kept|
        ensures Earlier(kept[i], cs[|cs| - 1])
      {
        assert kept[i] in prior;
      }
    }
  }

  // ------------------------------------------------------------------- runs

  datatype Op =
    | NewSubmission(key: Key, time: int)
    | SetSubmission(key: Key, time: int)
    | DropSubmission(key: Key)
    | NewChange(change: Change)
    | SetChange(change: Change)
    | DropChange(key: Key)

  /** What a Score has been told, with no memory of the order. */
  datatype Content = Content(times: map<Key, int>, changes: map<Key, Change>)

  ghost function Next(n: Content, op: Op): Content {
    match op
    case NewSubmission(key, time) => n.(times := n.times[key := time])
    case SetSubmission(key, time) => n.(times := n.times[key := time])
    case DropSubmission(key) =>
      Content(n.times - {key},
              if key in n.times then map k | k in n.changes && n.changes[k].submission != key :: n.changes[k]
              else n.changes)
    case NewChange(c) => n.(changes := n.changes[c.key := c])
    case SetChange(c) => n.(changes := n.changes[c.key := c])
    case DropChange(key) => n.(changes := n.changes - {key})
  }

  /** What the stores guarantee of an operation: new keys are new, references exist,
      an update changes neither the submission nor the time of a subchange. */
  ghost predicate Allowed(mode: Mode, n: Content, op: Op) {
    match op
    case NewSubmission(key, time) => key !in n.times
    case SetSubmission(key, time) => key in n.times
    case DropSubmission(key) => true
    case NewChange(c) =>
      c.key !in n.changes && c.submission in n.times && (mode != MaxTokenedLast ==> NonNegative(c))
    case SetChange(c) =>
      && c.key in n.changes && c.submission == n.changes[c.key].submission
      && c.time == n.changes[c.key].time && (mode != MaxTokenedLast ==> NonNegative(c))
    case DropChange(key) => true
  }

  /** What an operation needs of the state it is applied to. */
  predicate Applies(times: map<Key, int>, op: Op) {
    match op
    case NewSubmission(key, _) => key !in times
    case SetSubmission(key, _) => key in times
    case NewChange(c) => c.submission in times
    case SetChange(c) => c.submission in times
    case _ => true
  }

  ghost function Do(s: State, op: Op): State
    requires WellFormed(s)
    requires Applies(s.times, op)
  {
    match op
    case NewSubmission(key, time) => CreateSubmission(s, key, time)
    case SetSubmission(key, time) => UpdateSubmission(s, key, time)
    case DropSubmission(key) => DeleteSubmission(s, key)
    case NewChange(c) => CreateChange(s, c)
    case SetChange(c) => UpdateChange(s, c.key, c)
    case DropChange(key) => DeleteChange(s, key)
  }

  lemma DoTimes(s: State, op: Op)
    requires WellFormed(s) && Applies(s.times, op)
    ensures op.NewChange? || op.SetChange? || op.DropChange? ==> Do(s, op).times == s.times
    ensures op.NewSubmission? || op.SetSubmission? ==> Do(s, op).times == s.times[op.key := op.time]
  {
  }

  ghost predicate SameChanges(cs: seq<Change>, changes: map<Key, Change>) {
    forall c :: c in cs <==> c.key in changes && changes[c.key] == c
  }

  ghost predicate Sound(mode: Mode, n: Content) {
    forall k :: k in n.changes ==>
      && n.changes[k].key == k && n.changes[k].submission in n.times
      && (mode != MaxTokenedLast ==> NonNegative(n.changes[k]))
  }

  /** The submissions and the sorted changes are those of the content. */
  ghost predicate Lists(mode: Mode, times: map<Key, int>, cs: seq<Change>, n: Content) {
    times == n.times && Sorted(cs) && SameChanges(cs, n.changes) && Sound(mode, n)
  }

  /** s is exactly what replaying the content from scratch gives. */
  ghost predicate Shows(s: State, n: Content) {
    WellFormed(s) && s == Reset(s) && Lists(s.mode, s.times, s.changes, n)
  }

  /** Two Scores that show the same content are equal in every field. */
  lemma ShowsIsFunctional(s: State, t: State, n: Content)
    requires Shows(s, n) && Shows(t, n) && s.mode == t.mode
    ensures s == t
  {
    SortedIsUnique(s.changes, t.changes);
  }

  lemma ListsAbout(mode: Mode, times: map<Key, int>, cs: seq<Change>, n: Content)
    requires Lists(mode, times, cs, n)
    ensures About(times, cs)
    ensures mode != MaxTokenedLast ==> AllNonNegative(cs)
  {
    forall i | 0 <= i < |cs|
      ensures cs[i].submission in times && (mode != MaxTokenedLast ==> NonNegative(cs[i]))
    {
      assert cs[i] in cs;
    }
  }

  lemma ResetShows(s: State, n: Content)
    requires Lists(s.mode, s.times, s.changes, n)
    ensures About(s.times, s.changes) && Shows(Reset(s), n)
  {
    ListsAbout(s.mode, s.times, s.changes, n);
  }

  lemma OtherKeys(cs: seq<Change>, changes: map<Key, Change>, c: Change)
    requires SameChanges(cs, changes) && c.key !in changes
    ensures forall d :: d in cs ==> d.key != c.key
  {
  }

  lemma MoreChanges(cs: seq<Change>, more: seq<Change>, changes: map<Key, Change>, c: Change)
    requires SameChanges(cs, changes) && c.key !in changes
    requires forall d :: d in more <==> d in cs || d == c
    ensures SameChanges(more, changes[c.key := c])
  {
  }

  lemma NewChangeLists(mode: Mode, times: map<Key, int>, cs: seq<Change>, n: Content, c: Change)
    requires Lists(mode, times, cs, n) && Allowed(mode, n, NewChange(c))
    ensures var r := if cs == [] || Earlier(cs[|cs| - 1], c) then cs + [c] else Insert(cs, c);
            Lists(mode, times, r, Next(n, NewChange(c)))
  {
    hide Sorted, SameChanges, Earlier, Insert;
    OtherKeys(cs, n.changes, c);
    if cs == [] || Earlier(cs[|cs| - 1], c) {
      AppendSorts(cs, c);
      MoreChanges(cs, cs + [c], n.changes, c);
    } else {
      InsertSorts(cs, c);
      MoreChanges(cs, Insert(cs, c), n.changes, c);
    }
  }

  lemma NewChangeShows(s: State, n: Content, c: Change)
    requires Shows(s, n) && Allowed(s.mode, n, NewChange(c))
    ensures Shows(CreateChange(s, c), Next(n, NewChange(c)))
  {
    NewChangeLists(s.mode, s.times, s.changes, n, c);
    var r := CreateChange(s, c);
    if s.changes == [] || Earlier(s.changes[|s.changes| - 1], c) {
      assert r.changes[..|s.changes|] == s.changes;
      ListsAbout(r.mode, r.times, r.changes, Next(n, NewChange(c)));
      assert r == Reset(r);
    } else {
      ResetShows(s.(changes := Insert(s.changes, c)), Next(n, NewChange(c)));
    }
  }

  /** In a sorted list at most one change carries a key. */
  lemma KeyAppearsOnce(mode: Mode, times: map<Key, int>, cs: seq<Change>, n: Content, i: nat, j: nat)
    requires Lists(mode, times, cs, n) && i < |cs| && j < |cs| && cs[i].key == cs[j].key
    ensures i == j
  {
    assert cs[i] in cs && cs[j] in cs;
    if i < j {
      assert Earlier(cs[i], cs[j]);
      EarlierIsAsymmetric(cs[i], cs[j]);
    } else if j < i {
      assert Earlier(cs[j], cs[i]);
      EarlierIsAsymmetric(cs[j], cs[i]);
    }
  }

  lemma SetChangeLists(mode: Mode, times: map<Key, int>, cs: seq<Change>, n: Content, c: Change)
    requires Lists(mode, times, cs, n) && Allowed(mode, n, SetChange(c))
    ensures Lists(mode, times, Replace(cs, c.key, c), Next(n, SetChange(c)))
  {
    assert n.changes[c.key] in cs;
    var i :| 0 <= i < |cs| && cs[i] == n.changes[c.key];
    var r := Replace(cs, c.key, c);
    forall d
      ensures d in r <==> d == c || (d in cs && d.key != c.key)
    {
      if d in cs && d.key != c.key {
        var j :| 0 <= j < |cs| && cs[j] == d;
        assert r[j] == d;
      }
      assert r[i] == c;
    }
    forall j, k | 0 <= j < k < |r|
      ensures Earlier(r[j], r[k])
    {
      assert Earlier(cs[j], cs[k]);
      if cs[j].key == c.key { KeyAppearsOnce(mode, times, cs, n, i, j); }
      if cs[k].key == c.key { KeyAppearsOnce(mode, times, cs, n, i, k); }
    }
  }

  lemma DropChangeLists(mode: Mode, times: map<Key, int>, cs: seq<Change>, n: Content, key: Key)
    requires Lists(mode, times, cs, n)
    ensures Lists(mode, times, WithoutKey(cs, key), Next(n, DropChange(key)))
  {
    WithoutKeySorts(cs, key);
  }

  lemma DropSubmissionLists(mode: Mode, times: map<Key, int>, cs: seq<Change>, n: Content, key: Key)
    requires Lists(mode, times, cs, n) && key in times
    ensures Lists(mode, times - {key}, WithoutSubmission(cs, key), Next(n, DropSubmission(key)))
  {
    WithoutSubmissionSorts(cs, key);
  }

  lemma DropSubmissionShows(s: State, n: Content, key: Key)
    requires Shows(s, n) && WellFormed(s)
    ensures Shows(Do(s, DropSubmission(key)), Next(n, DropSubmission(key))) && Do(s, DropSubmission(key)).mode == s.mode
  {
    if key in s.times {
      DropSubmissionLists(s.mode, s.times, s.changes, n, key);
      ResetShows(s.(times := s.times - {key}, changes := WithoutSubmission(s.changes, key)),
                 Next(n, DropSubmission(key)));
    } else {
      assert n.times - {key} == n.times;
    }
  }

  lemma SetChangeShows(s: State, n: Content, c: Change)
    requires Shows(s, n) && Allowed(s.mode, n, SetChange(c)) && WellFormed(s) && Applies(s.times, SetChange(c))
    ensures Shows(Do(s, SetChange(c)), Next(n, SetChange(c))) && Do(s, SetChange(c)).mode == s.mode
  {
    SetChangeLists(s.mode, s.times, s.changes, n, c);
    ResetShows(s.(changes := Replace(s.changes, c.key, c)), Next(n, SetChange(c)));
  }

  lemma DropChangeShows(s: State, n: Content, key: Key)
    requires Shows(s, n) && WellFormed(s)
    ensures Shows(Do(s, DropChange(key)), Next(n, DropChange(key))) && Do(s, DropChange(key)).mode == s.mode
  {
    DropChangeLists(s.mode, s.times, s.changes, n, key);
    ResetShows(s.(changes := WithoutKey(s.changes, key)), Next(n, DropChange(key)));
  }

  /** Every allowed operation keeps the Score equal to a replay of its content. */
  lemma DoShows(s: State, n: Content, op: Op)
    requires Shows(s, n) && Allowed(s.mode, n, op)
    ensures Applies(s.times, op)
    ensures Shows(Do(s, op), Next(n, op)) && Do(s, op).mode == s.mode
  {
    match op
    case NewSubmission(key, time) =>
      ListsAbout(s.mode, s.times, s.changes, n);
      CreateSubmissionInSync(s, key, time);
    case SetSubmission(key, time) =>
      ResetShows(s.(times := s.times[key := time]), Next(n, op));
    case DropSubmission(key) => DropSubmissionShows(s, n, key);
    case NewChange(c) => NewChangeShows(s, n, c);
    case SetChange(c) => SetChangeShows(s, n, c);
    case DropChange(key) => DropChangeShows(s, n, key);
  }

  ghost function Told(ops: seq<Op>): Content {
    if ops == [] then Content(map[], map[]) else Next(Told(ops[..|ops| - 1]), ops[|ops| - 1])
  }

  ghost predicate AllAllowed(mode: Mode, ops: seq<Op>) {
    ops == [] || (AllAllowed(mode, ops[..|ops| - 1]) && Allowed(mode, Told(ops[..|ops| - 1]), ops[|ops| - 1]))
  }

  /** s is a state that the operations lead to, one after the other. */
  ghost predicate LeadsTo(mode: Mode, ops: seq<Op>, s: State) {
    if ops == [] then s == Empty(mode)
    else exists p ::
      && LeadsTo(mode, ops[..|ops| - 1], p) && WellFormed(p)
      && Applies(p.times, ops[|ops| - 1])
      && s == Do(p, ops[|ops| - 1])
  }

  /** Incremental equals replay: after any allowed run the Score shows what it was told. */
  lemma {:induction false} RunShows(mode: Mode, ops: seq<Op>, s: State)
    requires AllAllowed(mode, ops) && LeadsTo(mode, ops, s)
    ensures Shows(s, Told(ops)) && s.mode == mode
  {
    if ops == [] {
      assert Points(mode, map[], []) == [] && Blank(map[]).status == map[];
    } else {
      var prior, op := ops[..|ops| - 1], ops[|ops| - 1];
      var p :| LeadsTo(mode, prior, p) && WellFormed(p)
        && Applies(p.times, op) && s == Do(p, op);
      RunShows(mode, prior, p);
      DoShows(p, Told(prior), op);
    }
  }

  /** No allowed operation fails: every allowed run leads somewhere. */
  lemma {:induction false} RunExists(mode: Mode, ops: seq<Op>) returns (s: State)
    requires AllAllowed(mode, ops)
    ensures LeadsTo(mode, ops, s)
  {
    if ops == [] {
      s := Empty(mode);
    } else {
      var p := RunExists(mode, ops[..|ops| - 1]);
      RunShows(mode, ops[..|ops| - 1], p);
      DoShows(p, Told(ops[..|ops| - 1]), ops[|ops| - 1]);
      s := Do(p, ops[|ops| - 1]);
    }
  }

  /** Arrival order does not matter: runs that end with the same content end in the
      same state, history included. */
  lemma ArrivalOrderIsIrrelevant(mode: Mode, a: seq<Op>, b: seq<Op>, s: State, t: State)
    requires AllAllowed(mode, a) && LeadsTo(mode, a, s)
    requires AllAllowed(mode, b) && LeadsTo(mode, b, t)
    requires Told(a) == Told(b)
    ensures s == t
  {
    RunShows(mode, a, s);
    RunShows(mode, b, t);
    ShowsIsFunctional(s, t, Told(a));
  }

  // ----------------------------------------------------------------- reload

  lemma LastOf(keys: seq<Key>)
    requires Distinct(keys) && keys != []
    ensures var prior, k := keys[..|keys| - 1], keys[|keys| - 1];
            Distinct(prior) && k !in prior && forall j :: j in keys <==> j in prior || j == k
  {
    assert keys == keys[..|keys| - 1] + [keys[|keys| - 1]];
  }

  ghost function LoadSubmissions(n: Content, subs: seq<Key>): (ops: seq<Op>)
    requires forall k :: k in subs ==> k in n.times
  {
    if subs == [] then []
    else
      LastIsIn(subs);
      LoadSubmissions(n, subs[..|subs| - 1]) + [NewSubmission(subs[|subs| - 1], n.times[subs[|subs| - 1]])]
  }

  lemma LastIsIn(keys: seq<Key>)
    requires keys != []
    ensures keys[|keys| - 1] in keys && forall k :: k in keys[..|keys| - 1] ==> k in keys
  {
  }

  /** init_store: all the submissions, then all the changes. */
  ghost function Reload(n: Content, subs: seq<Key>, keys: seq<Key>): (ops: seq<Op>)
    requires forall k :: k in subs ==> k in n.times
    requires forall k :: k in keys ==> k in n.changes
  {
    if keys == [] then LoadSubmissions(n, subs)
    else
      LastIsIn(keys);
      Reload(n, subs, keys[..|keys| - 1]) + [NewChange(n.changes[keys[|keys| - 1]])]
  }

  ghost function Submitted(n: Content, subs: seq<Key>): map<Key, int>
    requires forall k :: k in subs ==> k in n.times
  {
    map k | k in subs :: n.times[k]
  }

  ghost function Loaded(n: Content, keys: seq<Key>): Content
    requires forall k :: k in keys ==> k in n.changes
  {
    n.(changes := map k | k in keys :: n.changes[k])
  }

  lemma {:induction false} SubmissionsTell(mode: Mode, n: Content, subs: seq<Key>)
    requires forall k :: k in subs ==> k in n.times
    requires Distinct(subs)
    ensures var ops := LoadSubmissions(n, subs);
            AllAllowed(mode, ops) && Told(ops) == Content(Submitted(n, subs), map[])
  {
    if subs != [] {
      LastOf(subs);
      var k, prior, ops := subs[|subs| - 1], subs[..|subs| - 1], LoadSubmissions(n, subs);
      assert ops[..|ops| - 1] == LoadSubmissions(n, prior);
      SubmissionsTell(mode, n, prior);
      assert Submitted(n, subs) == Submitted(n, prior)[k := n.times[k]];
    }
  }

  lemma {:induction false} ReloadTells(mode: Mode, n: Content, subs: seq<Key>, keys: seq<Key>)
    requires Sound(mode, n)
    requires forall k :: k in subs <==> k in n.times
    requires forall k :: k in keys ==> k in n.changes
    requires Distinct(subs) && Distinct(keys)
    ensures var ops := Reload(n, subs, keys);
            AllAllowed(mode, ops) && Told(ops) == Loaded(n, keys)
  {
    var ops := Reload(n, subs, keys);
    if keys == [] {
      SubmissionsTell(mode, n, subs);
      assert Submitted(n, subs) == n.times;
      assert Loaded(n, keys).changes == map[];
    } else {
      LastOf(keys);
      LastIsIn(keys);
      var k, prior := keys[|keys| - 1], keys[..|keys| - 1];
      assert ops[..|ops| - 1] == Reload(n, subs, prior);
      ReloadTells(mode, n, subs, prior);
      LoadOneMore(mode, n, keys);
    }
  }

  lemma LoadOneMore(mode: Mode, n: Content, keys: seq<Key>)
    requires Sound(mode, n) && keys != [] && Distinct(keys)
    requires forall k :: k in keys ==> k in n.changes
    ensures forall k :: k in keys[..|keys| - 1] ==> k in n.changes
    ensures keys[|keys| - 1] in n.changes
    ensures var before, op := Loaded(n, keys[..|keys| - 1]), NewChange(n.changes[keys[|keys| - 1]]);
            Allowed(mode, before, op) && Next(before, op) == Loaded(n, keys)
  {
    LastOf(keys);
    LastIsIn(keys);
    var before, c := Loaded(n, keys[..|keys| - 1]), n.changes[keys[|keys| - 1]];
    assert Loaded(n, keys).changes == before.changes[c.key := c];
  }

  lemma LoadsAll(n: Content, keys: seq<Key>)
    requires forall k :: k in keys <==> k in n.changes
    ensures Loaded(n, keys) == n
  {
    assert Loaded(n, keys).changes == n.changes;
  }

  /** Restarting the server reproduces the live scores: loading the stored submissions
      and changes, each in any order, leads to the very state of the run that stored them. */
  lemma ReloadReproduces(mode: Mode, ops: seq<Op>, s: State, subs: seq<Key>, keys: seq<Key>, t: State)
    requires AllAllowed(mode, ops) && LeadsTo(mode, ops, s)
    requires Distinct(subs) && forall k :: k in subs <==> k in Told(ops).times
    requires Distinct(keys) && forall k :: k in keys <==> k in Told(ops).changes
    requires LeadsTo(mode, Reload(Told(ops), subs, keys), t)
    ensures t == s
  {
    var n := Told(ops);
    assert Shows(s, n) && s.mode == mode by {
      RunShows(mode, ops, s);
    }
    var again := Reload(n, subs, keys);
    assert AllAllowed(mode, again) && Told(again) == n by {
      ReloadTells(mode, n, subs, keys);
      LoadsAll(n, keys);
    }
    RunShows(mode, again, t);
    ShowsIsFunctional(s, t, n);
  }

  // -------------------------------------------- updates that move a change

  /** An update in place keeps the list sorted exactly if the change still fits between its
      neighbours. */
  lemma ReplaceSortsExactly(cs: seq<Change>, i: nat, c: Change)
    requires Sorted(cs) && i < |cs| && c.key == cs[i].key
    requires forall j, k :: 0 <= j < k < |cs| ==> cs[j].key != cs[k].key
    ensures Sorted(Replace(cs, c.key, c)) <==>
            (i > 0 ==> Earlier(cs[i - 1], c)) && (i < |cs| - 1 ==> Earlier(c, cs[i + 1]))
  {
    var r := Replace(cs, c.key, c);
    assert r == cs[i := c];
    if Sorted(r) {
      assert i > 0 ==> r[i - 1] == cs[i - 1] && Earlier(r[i - 1], r[i]);
      assert i < |cs| - 1 ==> r[i + 1] == cs[i + 1] && Earlier(r[i], r[i + 1]);
    }
    if (i > 0 ==> Earlier(cs[i - 1], c)) && (i < |cs| - 1 ==> Earlier(c, cs[i + 1])) {
      forall j, k | 0 <= j < k < |r|
        ensures Earlier(r[j], r[k])
      {
        if k == i && j < i - 1 {
          EarlierIsTransitive(cs[j], cs[i - 1], c);
        } else if j == i && k > i + 1 {
          EarlierIsTransitive(c, cs[i + 1], cs[k]);
        }
      }
    }
  }

  function Scored(key: Key, time: int, score: real): Change {
    Change(key, "s", time, Some(score), None, None)
  }

  /** The history of one submission that gets one score after another. */
  lemma TwoScoresHistory(times: map<Key, int>, x: Change, y: Change)
    requires times.Keys == {"s"} && x.submission == y.submission == "s" && x.score.Some? && y.score.Some?
    requires x.score.value != 0.0 && x.score.value != y.score.value
    ensures About(times, [x, y])
    ensures Compress(Points(Max, times, [x, y])) == [Entry(x.time, x.score.value), Entry(y.time, y.score.value)]
  {
    hide Compress, Points, Fold, ScoreOf;
    assert [x, y] == [x] + [y] && [x] == [] + [x];
    FoldAppend(times, [], x);
    FoldAppend(times, [x], y);
    OneScore(Fold(times, [x]), x.score.value);
    OneScore(Fold(times, [x, y]), y.score.value);
    TwoPoints(Max, times, x, y);
    TwoEntries(Entry(x.time, x.score.value), Entry(y.time, y.score.value));
  }

  lemma OneScore(b: Board, score: real)
    requires b.status.Keys == {"s"} && b.status["s"].score == score
    ensures ScoreOf(Max, b) == score
  {
    assert score in Scores(b.status);
    LargestIs(score, Scores(b.status));
  }

  /** When update_subchange changes a time the list may stop being sorted: the live history
      runs backwards, and a reload, in whatever order, gives another one with another score. */
  lemma MovedChangeCounterexample()
    ensures var s := CreateSubmission(Empty(Max), "s", 0);
            var a, b, late := Scored("a", 1, 1.0), Scored("b", 2, 2.0), Scored("a", 3, 1.0);
            && WellFormed(s) && "s" in s.times
            && WellFormed(CreateChange(s, a)) && WellFormed(CreateChange(s, b)) && WellFormed(CreateChange(s, late))
            && var two := CreateChange(CreateChange(s, a), b);
            && WellFormed(two) && !Sorted(UpdateChange(two, "a", late).changes)
            && UpdateChange(two, "a", late).history == [Entry(3, 1.0), Entry(2, 2.0)]
            && CreateChange(CreateChange(s, late), b).history == [Entry(2, 2.0), Entry(3, 1.0)]
            && CreateChange(CreateChange(s, b), late).history == [Entry(2, 2.0), Entry(3, 1.0)]
  {
    hide Fold, Points, Compress, ScoreOf, CreateChange;
    var s := CreateSubmission(Empty(Max), "s", 0);
    var a, b, late := Scored("a", 1, 1.0), Scored("b", 2, 2.0), Scored("a", 3, 1.0);
    var two := TwoChanges(s, a, b);
    assert Replace(two.changes, "a", late) == [late, b];
    assert !Earlier([late, b][0], [late, b][1]);
    TwoScoresHistory(s.times, late, b);
    TwoScoresHistory(s.times, b, late);
    var up := TwoChanges(s, b, late);
    var down := TwoChanges(s, late, b);
  }

  lemma TwoChanges(s: State, x: Change, y: Change) returns (t: State)
    requires s == CreateSubmission(Empty(Max), "s", 0) && x.submission == y.submission == "s" && x.key != y.key
    requires NonNegative(x) && NonNegative(y)
    ensures WellFormed(s) && WellFormed(CreateChange(s, x)) && t == CreateChange(CreateChange(s, x), y)
    ensures WellFormed(t) && t.mode == Max && t.times == s.times && t == Reset(t)
    ensures t.changes == if Earlier(x, y) then [x, y] else [y, x]
  {
    hide Reset;
    var n := Content(s.times, map[]);
    assert Shows(s, n) by { BlankShows(s); }
    NewChangeShows(s, n, x);
    var one := CreateChange(s, x);
    var m := Next(n, NewChange(x));
    NewChangeShows(one, m, y);
    t := CreateChange(one, y);
    FirstChange(s, x);
    SecondChange(one, x, y);
  }

  lemma BlankShows(s: State)
    requires s == CreateSubmission(Empty(Max), "s", 0)
    ensures Shows(s, Content(s.times, map[]))
  {
    assert s.board.status == Blank(s.times).status;
  }

  lemma FirstChange(s: State, x: Change)
    requires WellFormed(s) && s.changes == [] && x.submission in s.times
    ensures var t := CreateChange(s, x); t.changes == [x] && t.mode == s.mode && t.times == s.times
  {
  }

  lemma SecondChange(s: State, x: Change, y: Change)
    requires WellFormed(s) && s.changes == [x] && y.submission in s.times && (Earlier(y, x) || Earlier(x, y))
    ensures var t := CreateChange(s, y);
      t.changes == (if Earlier(x, y) then [x, y] else [y, x]) && t.mode == s.mode && t.times == s.times
  {
    hide Fold, Compress, Points;
  }
}
