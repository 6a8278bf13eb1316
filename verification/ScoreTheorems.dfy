/** What the history of a Score is a function of, and in what closed form. */
module ScoreTheorems {
  import opened Basics
  import opened ScoreSpec

  // ---------------------------------------------- closed form of the board

  function LatestScore(cs: seq<Change>, k: Key): real {
    if cs == [] then 0.0
    else
      var c := cs[|cs| - 1];
      if c.submission == k && c.score.Some? then c.score.value else LatestScore(cs[..|cs| - 1], k)
  }

  function LatestToken(cs: seq<Change>, k: Key): bool {
    if cs == [] then false
    else
      var c := cs[|cs| - 1];
      if c.submission == k && c.token.Some? then c.token.value else LatestToken(cs[..|cs| - 1], k)
  }

  function LatestExtra(cs: seq<Change>, k: Key): seq<real> {
    if cs == [] then []
    else
      var c := cs[|cs| - 1];
      if c.submission == k && c.extra.Some? then c.extra.value else LatestExtra(cs[..|cs| - 1], k)
  }

  ghost predicate EverScored(cs: seq<Change>, k: Key) {
    exists i :: 0 <= i < |cs| && cs[i].submission == k && cs[i].score.Some?
  }

  /** Each submission shows the last score, token and extra any change gave it. */
  ghost function Latest(times: map<Key, int>, cs: seq<Change>): map<Key, Status> {
    map k | k in times :: Status(LatestScore(cs, k), LatestToken(cs, k), LatestExtra(cs, k))
  }

  lemma {:induction false} StatusOf(times: map<Key, int>, cs: seq<Change>, k: Key)
    requires About(times, cs) && k in times
    ensures Fold(times, cs).status[k] == Status(LatestScore(cs, k), LatestToken(cs, k), LatestExtra(cs, k))
  {
    if cs != [] {
      StatusOf(times, cs[..|cs| - 1], k);
    }
  }

  lemma StatusIsLatest(times: map<Key, int>, cs: seq<Change>)
    requires About(times, cs)
    ensures Fold(times, cs).status == Latest(times, cs)
  {
    forall k | k in times {
      StatusOf(times, cs, k);
    }
  }

  ghost function Tokened(status: map<Key, Status>, v: real): set<Key> {
    set k | k in status && status[k].token && status[k].score == v
  }

  /** `released` is the multiset of the scores of the tokened submissions. */
  ghost predicate HoldsTokened(released: multiset<real>, status: map<Key, Status>) {
    forall v: real :: released[v] == |Tokened(status, v)|
  }

  /** A step keeps `released` exact, and never removes a score that is not there. */
  lemma AbsorbKeepsTokened(times: map<Key, int>, b: Board, c: Change)
    requires c.submission in b.status && c.submission in times
    requires b.last.Some? ==> b.last.value in times
    requires HoldsTokened(b.released, b.status)
    ensures b.status[c.submission].token ==> b.status[c.submission].score in b.released
    ensures var n := Absorb(times, b, c); HoldsTokened(n.released, n.status)
  {
    var k, n := c.submission, Absorb(times, b, c);
    if b.status[k].token {
      assert k in Tokened(b.status, b.status[k].score);
    }
    forall v: real
      ensures n.released[v] == |Tokened(n.status, v)|
    {
      TokenedWith(b.status, k, b.status[k], v);
      TokenedWith(b.status, k, n.status[k], v);
    }
  }

  /** How many tokened submissions have score v, counting submission k apart. */
  lemma TokenedWith(status: map<Key, Status>, k: Key, s: Status, v: real)
    ensures var rest := Tokened(status - {k}, v);
            |Tokened(status[k := s], v)| == |rest| + if s.token && s.score == v then 1 else 0
    ensures k in status && s == status[k] ==> status[k := s] == status
  {
    var rest := Tokened(status - {k}, v);
    assert Tokened(status[k := s], v) == if s.token && s.score == v then rest + {k} else rest;
  }

  lemma {:induction false} ReleasedIsTokened(times: map<Key, int>, cs: seq<Change>)
    requires About(times, cs)
    ensures var b := Fold(times, cs); HoldsTokened(b.released, b.status)
  {
    if cs == [] {
      forall v: real
        ensures |Tokened(Fold(times, cs).status, v)| == 0
      {
        assert Tokened(Fold(times, cs).status, v) == {};
      }
    } else {
      ReleasedIsTokened(times, cs[..|cs| - 1]);
      AbsorbKeepsTokened(times, Fold(times, cs[..|cs| - 1]), cs[|cs| - 1]);
    }
  }

  /** A released score can always be removed again. */
  lemma TokenIsHeld(times: map<Key, int>, cs: seq<Change>, k: Key)
    requires About(times, cs) && k in times
    ensures var b := Fold(times, cs); b.status[k].token ==> b.status[k].score in b.released
  {
    ReleasedIsTokened(times, cs);
    var b := Fold(times, cs);
    if b.status[k].token {
      assert k in Tokened(b.status, b.status[k].score);
    }
  }

  /** `last` is a submission some change has scored, and no such submission is later. */
  ghost predicate IsLast(times: map<Key, int>, cs: seq<Change>, last: Option<Key>) {
    && (last.Some? ==> last.value in times && EverScored(cs, last.value))
    && (forall k :: k in times && EverScored(cs, k) ==> last.Some? && times[k] <= times[last.value])
  }

  lemma EverScoredStep(cs: seq<Change>, k: Key)
    requires cs != []
    ensures var c := cs[|cs| - 1];
            EverScored(cs, k) <==> EverScored(cs[..|cs| - 1], k) || (c.submission == k && c.score.Some?)
  {
    var prior := cs[..|cs| - 1];
    if EverScored(prior, k) {
      var i :| 0 <= i < |prior| && prior[i].submission == k && prior[i].score.Some?;
      assert cs[i] == prior[i];
    }
    if EverScored(cs, k) {
      var i :| 0 <= i < |cs| && cs[i].submission == k && cs[i].score.Some?;
      assert i < |prior| ==> prior[i] == cs[i];
    }
  }

  lemma {:induction false} LastIsLatestScored(times: map<Key, int>, cs: seq<Change>)
    requires About(times, cs)
    ensures IsLast(times, cs, Fold(times, cs).last)
  {
    if cs != [] {
      LastIsLatestScored(times, cs[..|cs| - 1]);
      forall k {
        EverScoredStep(cs, k);
      }
    }
  }

  lemma LastStep(times: map<Key, int>, cs: seq<Change>)
    requires About(times, cs) && cs != []
    ensures var c, before := cs[|cs| - 1], Fold(times, cs[..|cs| - 1]).last;
      Fold(times, cs).last == if c.score.Some? && (before.None? || times[c.submission] > times[before.value])
                              then Some(c.submission) else before
  {
  }

  ghost predicate ScoredBefore(cs: seq<Change>, i: int, k: Key) {
    exists j :: 0 <= j < i && j < |cs| && cs[j].submission == k && cs[j].score.Some?
  }

  lemma ScoredBeforeMore(cs: seq<Change>, i: int, k: Key)
    requires cs != []
    ensures ScoredBefore(cs[..|cs| - 1], i, k) ==> ScoredBefore(cs, i, k)
    ensures EverScored(cs[..|cs| - 1], k) ==> ScoredBefore(cs, |cs| - 1, k)
  {
    var prior := cs[..|cs| - 1];
    if ScoredBefore(prior, i, k) {
      var j :| 0 <= j < i && j < |prior| && prior[j].submission == k && prior[j].score.Some?;
      assert cs[j] == prior[j];
    }
    if EverScored(prior, k) {
      var j :| 0 <= j < |prior| && prior[j].submission == k && prior[j].score.Some?;
      assert cs[j] == prior[j];
    }
  }

  /** Among equally late submissions the last one is the one that was scored first. */
  lemma {:induction false} LastIsFirstOfTies(times: map<Key, int>, cs: seq<Change>, i: nat)
    requires About(times, cs) && i < |cs| && cs[i].score.Some?
    ensures var last := Fold(times, cs).last;
      && last.Some? && last.value in times
      && (times[cs[i].submission] == times[last.value] && cs[i].submission != last.value ==>
            ScoredBefore(cs, i, last.value))
  {
    hide Fold, ScoredBefore;
    var n := |cs| - 1;
    var prior := cs[..n];
    LastIsLatestScored(times, prior);
    LastStep(times, cs);
    var last := Fold(times, cs).last;
    if i < n {
      LastIsFirstOfTies(times, prior, i);
      assert prior[i] == cs[i];
      assert EverScored(prior, cs[i].submission);
    }
    ScoredBeforeMore(cs, i, last.value);
  }

  ghost predicate DistinctTimes(times: map<Key, int>) {
    forall j, k :: j in times && k in times && times[j] == times[k] ==> j == k
  }

  /** With distinct submission times the last submission is determined. */
  lemma LastIsUnique(times: map<Key, int>, cs: seq<Change>, a: Option<Key>, b: Option<Key>)
    requires DistinctTimes(times) && IsLast(times, cs, a) && IsLast(times, cs, b)
    ensures a == b
  {
    if a.Some? && b.Some? {
      assert times[a.value] <= times[b.value] && times[b.value] <= times[a.value];
    }
  }

  // ---------------------------------------------- closed form of the score

  ghost function TokenedScores(status: map<Key, Status>): set<real> {
    set k | k in status && status[k].token :: status[k].score
  }

  /** The score of a user on a task, from the submissions and the changes alone. */
  ghost function Declared(mode: Mode, times: map<Key, int>, cs: seq<Change>, last: Option<Key>): real {
    var status := Latest(times, cs);
    match mode
    case Max => Largest(Scores(status))
    case MaxSubtask => ColumnSum(status, Width(status))
    case MaxTokenedLast =>
      Largest(TokenedScores(status) + {0.0} + if last.Some? then {LatestScore(cs, last.value)} else {})
  }

  lemma LargestIs(m: real, s: set<real>)
    requires IsLargest(m, s)
    ensures Largest(s) == m
  {
  }

  lemma {:induction false} ReleasedScores(released: multiset<real>, status: map<Key, Status>)
    requires HoldsTokened(released, status)
    ensures Released(released) == TokenedScores(status) + {0.0}
  {
    forall v: real
      ensures v in released <==> v in TokenedScores(status)
    {
      if v in released {
        assert Tokened(status, v) != {};
        var k := Pick(Tokened(status, v));
      }
      if v in TokenedScores(status) {
        var k :| k in status && status[k].token && status[k].score == v;
        assert k in Tokened(status, v);
      }
    }
  }

  lemma {:induction false} ScoreIsDeclared(mode: Mode, times: map<Key, int>, cs: seq<Change>)
    requires About(times, cs)
    ensures var b := Fold(times, cs);
            ScoreOf(mode, b) == Declared(mode, times, cs, b.last)
  {
    hide Fold, Latest, LatestScore, Released, TokenedScores, HoldsTokened;
    var b := Fold(times, cs);
    StatusIsLatest(times, cs);
    if mode == MaxTokenedLast {
      ReleasedIsTokened(times, cs);
      ReleasedScores(b.released, b.status);
      LatestStatus(times, cs, b.last);
      WithLast(TokenedScores(b.status) + {0.0}, b.last, if b.last.Some? then LatestScore(cs, b.last.value) else 0.0);
    }
  }

  lemma LatestStatus(times: map<Key, int>, cs: seq<Change>, last: Option<Key>)
    ensures last.Some? && last.value in times ==>
              last.value in Latest(times, cs) && Latest(times, cs)[last.value].score == LatestScore(cs, last.value)
  {
  }

  lemma WithLast(base: set<real>, last: Option<Key>, l: real)
    requires 0.0 in base && (last.None? ==> l == 0.0)
    ensures Largest(base + if last.Some? then {l} else {}) == if Largest(base) < l then l else Largest(base)
  {
    if last.Some? {
      LargestIs(if Largest(base) < l then l else Largest(base), base + {l});
    } else {
      assert base + {} == base;
    }
  }

  lemma {:induction false} ColumnSumOfZeros(status: map<Key, Status>, width: nat)
    requires forall k :: k in status ==> status[k] == FRESH
    ensures ColumnSum(status, width) == 0.0
  {
    if width > 0 {
      ColumnSumOfZeros(status, width - 1);
      assert Column(status, width - 1) <= {0.0};
    }
  }

  lemma {:induction false} CompressEndsAt(points: seq<Entry>)
    ensures CurrentScore(Compress(points)) == CurrentScore(points)
  {
    if points != [] {
      CompressEndsAt(points[..|points| - 1]);
    }
  }

  /** get_score after a replay is the declared score of the submissions and changes. */
  lemma {:induction false} CurrentScoreIsDeclared(mode: Mode, times: map<Key, int>, cs: seq<Change>)
    requires About(times, cs)
    ensures var last := Fold(times, cs).last;
            && IsLast(times, cs, last)
            && CurrentScore(Compress(Points(mode, times, cs))) == Declared(mode, times, cs, last)
  {
    LastIsLatestScored(times, cs);
    ScoreIsDeclared(mode, times, cs);
    CompressEndsAt(Points(mode, times, cs));
    if cs == [] {
      var status := Latest(times, cs);
      assert forall k :: k in status ==> status[k] == FRESH;
      ColumnSumOfZeros(status, Width(status));
      assert Scores(status) <= {0.0};
      assert TokenedScores(status) + {0.0} + {} == {0.0};
    }
  }

  /** e is the declared score of the changes cs, at the time of the last of them. */
  ghost predicate DeclaresPoint(mode: Mode, times: map<Key, int>, cs: seq<Change>, e: Entry)
    requires cs != []
  {
    && e.time == cs[|cs| - 1].time
    && exists last {:trigger IsLast(times, cs, last)} ::
         IsLast(times, cs, last) && e.score == Declared(mode, times, cs, last)
  }

  lemma LastPointIsDeclared(mode: Mode, times: map<Key, int>, cs: seq<Change>)
    requires About(times, cs) && cs != []
    ensures DeclaresPoint(mode, times, cs, Points(mode, times, cs)[|cs| - 1])
  {
    hide Fold, ScoreOf, Declared, IsLast;
    ScoreIsDeclared(mode, times, cs);
    LastIsLatestScored(times, cs);
    assert IsLast(times, cs, Fold(times, cs).last);
  }

  /** The replay visits the declared scores of all the prefixes of the changes. */
  lemma {:induction false} PointIsDeclared(mode: Mode, times: map<Key, int>, cs: seq<Change>, i: nat)
    requires About(times, cs) && i < |cs|
    ensures DeclaresPoint(mode, times, cs[..i + 1], Points(mode, times, cs)[i])
  {
    hide Fold, ScoreOf, Declared, IsLast, DeclaresPoint;
    if i < |cs| - 1 {
      PointIsDeclared(mode, times, cs[..|cs| - 1], i);
      assert cs[..|cs| - 1][..i + 1] == cs[..i + 1];
    } else {
      assert cs[..i + 1] == cs;
      LastPointIsDeclared(mode, times, cs);
    }
  }

  ghost predicate InTimeOrder(h: seq<Entry>) {
    forall i, j :: 0 <= i < j < |h| ==> h[i].time <= h[j].time
  }

  /** No score is recorded twice in a row, and none of 0.0 at the start. */
  ghost predicate NoRepeats(h: seq<Entry>) {
    (forall i :: 0 <= i < |h| - 1 ==> h[i].score != h[i + 1].score) && (h != [] ==> h[0].score != 0.0)
  }

  lemma RecordInOrder(h: seq<Entry>, e: Entry)
    requires InTimeOrder(h) && NoRepeats(h) && (h != [] ==> h[|h| - 1].time <= e.time)
    ensures InTimeOrder(Record(h, e)) && NoRepeats(Record(h, e))
  {
  }

  lemma {:induction false} CompressComesFrom(points: seq<Entry>, e: Entry)
    requires e in Compress(points)
    ensures e in points
  {
    var n := |points| - 1;
    assert points == points[..n] + [points[n]];
    if e != points[n] {
      CompressComesFrom(points[..n], e);
    }
  }

  lemma InTimeOrderLess(points: seq<Entry>)
    requires InTimeOrder(points) && points != []
    ensures InTimeOrder(points[..|points| - 1])
    ensures forall e :: e in points[..|points| - 1] ==> e.time <= points[|points| - 1].time
  {
  }

  /** A history keeps the order of the points, never repeats a score and starts from 0.0. */
  lemma {:induction false} CompressInTimeOrder(points: seq<Entry>)
    requires InTimeOrder(points)
    ensures var h := Compress(points); InTimeOrder(h) && NoRepeats(h) && forall e :: e in h ==> e in points
  {
    hide InTimeOrder, NoRepeats, Record;
    if points == [] {
      NothingRecorded();
    } else {
      var prior, h := points[..|points| - 1], Compress(points[..|points| - 1]);
      InTimeOrderLess(points);
      CompressInTimeOrder(prior);
      if h != [] {
        assert h[|h| - 1] in h;
      }
      RecordInOrder(h, points[|points| - 1]);
      forall e | e in Compress(points)
        ensures e in points
      {
        CompressComesFrom(points, e);
      }
    }
  }

  lemma NothingRecorded()
    ensures InTimeOrder(Compress([])) && NoRepeats(Compress([])) && Compress([]) == []
  {
  }

  lemma {:induction false} HistoryInTimeOrder(mode: Mode, times: map<Key, int>, cs: seq<Change>)
    requires About(times, cs) && Sorted(cs)
    ensures InTimeOrder(Compress(Points(mode, times, cs)))
  {
    var points := Points(mode, times, cs);
    forall i, j | 0 <= i < j < |points|
      ensures points[i].time <= points[j].time
    {
      PointIsDeclared(mode, times, cs, i);
      PointIsDeclared(mode, times, cs, j);
      assert Earlier(cs[i], cs[j]);
    }
    CompressInTimeOrder(points);
  }

  // -------------------------------------------------- late new submissions

  ghost predicate NonNegative(c: Change) {
    && (c.score.Some? ==> c.score.value >= 0.0)
    && (c.extra.Some? ==> forall i :: 0 <= i < |c.extra.value| ==> c.extra.value[i] >= 0.0)
  }

  ghost predicate AllNonNegative(cs: seq<Change>) {
    forall i :: 0 <= i < |cs| ==> NonNegative(cs[i])
  }

  ghost predicate NonNegativeStatus(s: Status) {
    s.score >= 0.0 && forall i :: 0 <= i < |s.extra| ==> s.extra[i] >= 0.0
  }

  lemma {:induction false} StatusStaysNonNegative(times: map<Key, int>, cs: seq<Change>, k: Key)
    requires About(times, cs) && AllNonNegative(cs) && k in times
    ensures NonNegativeStatus(Fold(times, cs).status[k])
  {
    if cs != [] {
      StatusStaysNonNegative(times, cs[..|cs| - 1], k);
      assert NonNegative(cs[|cs| - 1]);
    }
  }

  lemma FreshColumn(status: map<Key, Status>, key: Key, column: nat)
    requires key !in status
    ensures Column(status[key := FRESH], column) == Column(status, column) + {0.0}
  {
    var more := status[key := FRESH];
    assert Cell(more[key], column) == 0.0;
    assert forall j :: j in status ==> more[j] == status[j];
  }

  lemma LargestWithZero(s: set<real>)
    requires s != {}
    ensures Largest(s + {0.0}) == if Largest(s) < 0.0 then 0.0 else Largest(s)
  {
    LargestIs(if Largest(s) < 0.0 then 0.0 else Largest(s), s + {0.0});
  }

  lemma FreshColumnExact(status: map<Key, Status>, key: Key, column: nat)
    requires key !in status && status != map[]
    ensures var best := Largest(Column(status, column));
      Largest(Column(status[key := FRESH], column)) == if best < 0.0 then 0.0 else best
  {
    FreshColumn(status, key, column);
    var k :| k in status;
    assert Cell(status[k], column) in Column(status, column);
    LargestWithZero(Column(status, column));
  }

  lemma {:induction false} FreshColumnsExact(status: map<Key, Status>, key: Key, width: nat)
    requires key !in status && status != map[]
    ensures ColumnSum(status[key := FRESH], width) >= ColumnSum(status, width)
    ensures ColumnSum(status[key := FRESH], width) == ColumnSum(status, width) <==>
            forall j: nat :: j < width ==> Largest(Column(status, j)) >= 0.0
  {
    hide Column, Largest;
    if width > 0 {
      FreshColumnsExact(status, key, width - 1);
      FreshColumnExact(status, key, width - 1);
    }
  }

  lemma NonNegativeColumn(status: map<Key, Status>, column: nat)
    requires status != map[] && forall k :: k in status ==> NonNegativeStatus(status[k])
    ensures Largest(Column(status, column)) >= 0.0
  {
    var k :| k in status;
    assert Cell(status[k], column) in Column(status, column) && Cell(status[k], column) >= 0.0;
  }

  lemma FreshScores(status: map<Key, Status>, key: Key)
    requires key !in status
    ensures Scores(status[key := FRESH]) == Scores(status) + {0.0}
  {
    var more := status[key := FRESH];
    assert more[key].score == 0.0;
    assert forall j :: j in status ==> more[j] == status[j];
  }

  lemma FreshWidth(status: map<Key, Status>, key: Key)
    requires key !in status && status != map[]
    ensures Width(status[key := FRESH]) == Width(status)
  {
    var more, width := status[key := FRESH], Width(status);
    assert IsWidth(status, width);
    var k :| k in status && |Row(status[k])| == width;
    assert k in more && |Row(more[k])| == width;
  }

  /** One more blank submission changes no score that is not negative. */
  lemma FreshKeepsScore(mode: Mode, b: Board, key: Key)
    requires key !in b.status && b.status != map[]
    requires b.last.Some? ==> b.last.value in b.status
    requires mode == Max ==> ScoreOf(mode, b) >= 0.0
    requires mode == MaxSubtask ==> forall k :: k in b.status ==> NonNegativeStatus(b.status[k])
    ensures ScoreOf(mode, b.(status := b.status[key := FRESH])) == ScoreOf(mode, b)
  {
    match mode
    case Max =>
      FreshScores(b.status, key);
      var k :| k in b.status;
      assert b.status[k].score in Scores(b.status);
      LargestIs(ScoreOf(mode, b), Scores(b.status[key := FRESH]));
    case MaxSubtask =>
      forall j: nat | j < Width(b.status)
        ensures Largest(Column(b.status, j)) >= 0.0
      {
        NonNegativeColumn(b.status, j);
      }
      FreshColumnsExact(b.status, key, Width(b.status));
      FreshWidth(b.status, key);
    case MaxTokenedLast =>
  }

  lemma BlankInAbsorb(times: map<Key, int>, b: Board, c: Change, key: Key, time: int)
    requires c.submission in b.status && c.submission in times && key !in times && key !in b.status
    requires b.last.Some? ==> b.last.value in times
    ensures var n := Absorb(times, b, c);
            Absorb(times[key := time], b.(status := b.status[key := FRESH]), c)
            == n.(status := n.status[key := FRESH])
  {
    var s := Changed(b.status[c.submission], c);
    assert b.status[key := FRESH][c.submission := s] == b.status[c.submission := s][key := FRESH];
  }

  lemma {:induction false} BlankInFold(times: map<Key, int>, cs: seq<Change>, key: Key, time: int)
    requires About(times, cs) && key !in times
    ensures About(times[key := time], cs)
    ensures var b := Fold(times, cs);
            Fold(times[key := time], cs) == b.(status := b.status[key := FRESH])
  {
    if cs == [] {
      assert Blank(times[key := time]).status == Blank(times).status[key := FRESH];
    } else {
      BlankInFold(times, cs[..|cs| - 1], key, time);
      BlankInAbsorb(times, Fold(times, cs[..|cs| - 1]), cs[|cs| - 1], key, time);
    }
  }

  /** Replaying over one more submission that no change mentions gives the same scores,
      as long as none of them is negative. */
  lemma {:induction false} BlankInPoints(mode: Mode, times: map<Key, int>, cs: seq<Change>, key: Key, time: int)
    requires About(times, cs) && key !in times
    requires mode == Max ==> forall e :: e in Points(mode, times, cs) ==> e.score >= 0.0
    requires mode == MaxSubtask ==> AllNonNegative(cs)
    ensures About(times[key := time], cs)
    ensures Points(mode, times[key := time], cs) == Points(mode, times, cs)
  {
    if cs != [] {
      var b, points := Fold(times, cs), Points(mode, times, cs);
      assert forall e :: e in Points(mode, times, cs[..|cs| - 1]) ==> e in points;
      BlankInPoints(mode, times, cs[..|cs| - 1], key, time);
      BlankInFold(times, cs, key, time);
      assert points[|points| - 1] in points;
      assert cs[|cs| - 1].submission in b.status;
      if mode == MaxSubtask {
        forall k | k in b.status {
          StatusStaysNonNegative(times, cs, k);
        }
      }
      FreshKeepsScore(mode, b, key);
    }
  }

  lemma {:induction false} BlankHidesNegatives(times: map<Key, int>, cs: seq<Change>, key: Key, time: int)
    requires About(times, cs) && key !in times
    ensures About(times[key := time], cs)
    ensures forall e :: e in Points(Max, times[key := time], cs) ==> e.score >= 0.0
  {
    if cs != [] {
      BlankHidesNegatives(times, cs[..|cs| - 1], key, time);
      BlankInFold(times, cs, key, time);
      var b := Fold(times[key := time], cs);
      assert b.status[key].score in Scores(b.status);
    }
  }

  lemma {:induction false} CompressKeepsNegatives(points: seq<Entry>)
    ensures (forall e :: e in points ==> e.score >= 0.0)
       <==> (forall e :: e in Compress(points) ==> e.score >= 0.0)
  {
    if points != [] {
      var prior, e := points[..|points| - 1], points[|points| - 1];
      CompressKeepsNegatives(prior);
      assert points == prior + [e];
      var h := Compress(prior);
      if h != [] {
        assert h[|h| - 1] in h;
      }
    }
  }

  /** In the "max" mode a new submission may skip the recomputation of the history
      exactly when the history holds no negative score. */
  lemma CreateSubmissionMaxExact(s: State, key: Key, time: int)
    requires WellFormed(s) && s.mode == Max && s == Reset(s)
    requires key !in s.times
    ensures var n := CreateSubmission(s, key, time);
            WellFormed(n) && (n == Reset(n) <==> forall e :: e in s.history ==> e.score >= 0.0)
  {
    var points := Points(Max, s.times, s.changes);
    BlankInFold(s.times, s.changes, key, time);
    BlankHidesNegatives(s.times, s.changes, key, time);
    CompressKeepsNegatives(points);
    CompressKeepsNegatives(Points(Max, s.times[key := time], s.changes));
    if forall e :: e in s.history ==> e.score >= 0.0 {
      BlankInPoints(Max, s.times, s.changes, key, time);
    }
  }

  /** In every mode no recomputation is needed when no value is negative; the
      "max_tokened_last" mode does not even need that. */
  lemma CreateSubmissionInSync(s: State, key: Key, time: int)
    requires WellFormed(s) && s == Reset(s) && key !in s.times
    requires s.mode != MaxTokenedLast ==> AllNonNegative(s.changes)
    ensures var n := CreateSubmission(s, key, time); WellFormed(n) && n == Reset(n)
  {
    BlankInFold(s.times, s.changes, key, time);
    if s.mode == Max {
      forall e | e in Points(Max, s.times, s.changes)
        ensures e.score >= 0.0
      {
        MaxPointNonNegative(s.times, s.changes, e);
      }
    }
    BlankInPoints(s.mode, s.times, s.changes, key, time);
  }

  lemma {:induction false} MaxPointNonNegative(times: map<Key, int>, cs: seq<Change>, e: Entry)
    requires About(times, cs) && AllNonNegative(cs) && e in Points(Max, times, cs)
    ensures e.score >= 0.0
  {
    if e in Points(Max, times, cs[..|cs| - 1]) {
      MaxPointNonNegative(times, cs[..|cs| - 1], e);
    } else {
      var b := Fold(times, cs);
      var k := cs[|cs| - 1].submission;
      StatusStaysNonNegative(times, cs, k);
      assert b.status[k].score in Scores(b.status);
    }
  }

  // ------------------------------------------ the exact condition, by column

  /** The best score of every column is at least 0. */
  ghost predicate NoNegativeColumn(status: map<Key, Status>) {
    forall j: nat :: j < Width(status) ==> Largest(Column(status, j)) >= 0.0
  }

  lemma SubtaskLastExact(times: map<Key, int>, cs: seq<Change>, key: Key, time: int)
    requires About(times, cs) && key !in times && cs != []
    ensures About(times[key := time], cs)
    ensures ScoreOf(MaxSubtask, Fold(times[key := time], cs)) == ScoreOf(MaxSubtask, Fold(times, cs)) <==>
            NoNegativeColumn(Fold(times, cs).status)
  {
    hide Column, Largest, Fold;
    BlankInFold(times, cs, key, time);
    var b := Fold(times, cs);
    assert cs[|cs| - 1].submission in b.status;
    FreshColumnsExact(b.status, key, Width(b.status));
    FreshWidth(b.status, key);
  }

  /** In the "max_subtask" mode a new submission leaves the score after every change as it was
      exactly when no column was negative after any change. */
  lemma {:induction false} SubtaskPointsExact(times: map<Key, int>, cs: seq<Change>, key: Key, time: int)
    requires About(times, cs) && key !in times
    ensures About(times[key := time], cs)
    ensures Points(MaxSubtask, times[key := time], cs) == Points(MaxSubtask, times, cs) <==>
            forall i :: 0 < i <= |cs| ==> NoNegativeColumn(Fold(times, cs[..i]).status)
  {
    hide NoNegativeColumn, ScoreOf, Fold;
    if cs != [] {
      var prior := cs[..|cs| - 1];
      SubtaskPointsExact(times, prior, key, time);
      SubtaskLastExact(times, cs, key, time);
      assert cs[..|cs|] == cs;
      assert forall i :: 0 < i < |cs| ==> prior[..i] == cs[..i];
      SameEnd(Points(MaxSubtask, times, prior), Points(MaxSubtask, times[key := time], prior),
              Entry(cs[|cs| - 1].time, ScoreOf(MaxSubtask, Fold(times, cs))),
              Entry(cs[|cs| - 1].time, ScoreOf(MaxSubtask, Fold(times[key := time], cs))));
    }
  }

  lemma SameEnd<T>(a: seq<T>, b: seq<T>, x: T, y: T)
    ensures a + [x] == b + [y] <==> a == b && x == y
  {
    if a + [x] == b + [y] {
      assert (a + [x])[|a|] == x && (b + [y])[|b|] == y;
      assert a == (a + [x])[..|a|] && b == (b + [y])[..|b|];
    }
  }

  /** Then the skipped recomputation makes no difference. */
  lemma CreateSubmissionSubtask(s: State, key: Key, time: int)
    requires WellFormed(s) && s.mode == MaxSubtask && s == Reset(s) && key !in s.times
    requires forall i :: 0 < i <= |s.changes| ==> NoNegativeColumn(Fold(s.times, s.changes[..i]).status)
    ensures var n := CreateSubmission(s, key, time); WellFormed(n) && n == Reset(n)
  {
    BlankInFold(s.times, s.changes, key, time);
    SubtaskPointsExact(s.times, s.changes, key, time);
  }

  ghost predicate DistinctMoments(points: seq<Entry>) {
    forall i, j :: 0 <= i < j < |points| ==> points[i].time != points[j].time
  }

  ghost predicate SameTimes(a: seq<Entry>, b: seq<Entry>) {
    |a| == |b| && forall i :: 0 <= i < |a| ==> a[i].time == b[i].time
  }

  lemma TimeIsNew(points: seq<Entry>)
    requires points != [] && DistinctMoments(points)
    ensures forall e :: e in Compress(points[..|points| - 1]) ==> e.time != points[|points| - 1].time
  {
    var prior := points[..|points| - 1];
    forall e | e in Compress(prior)
      ensures e.time != points[|points| - 1].time
    {
      CompressComesFrom(prior, e);
      var i :| 0 <= i < |prior| && prior[i] == e;
      assert points[i] == e;
    }
  }

  /** With no two points at the same time, a recorded history determines all the points. */
  lemma {:induction false} CompressIsInjective(a: seq<Entry>, b: seq<Entry>)
    requires SameTimes(a, b) && DistinctMoments(a) && DistinctMoments(b) && Compress(a) == Compress(b)
    ensures a == b
  {
    hide Compress, Record, SameTimes, DistinctMoments, CurrentScore;
    if a == [] {
      NoTimes(a, b);
    } else {
      var n := |a| - 1;
      LastTimes(a, b);
      TimeIsNew(a);
      TimeIsNew(b);
      CompressStep(a);
      CompressStep(b);
      RecordsAlike(Compress(a[..n]), Compress(b[..n]), a[n], b[n]);
      CompressIsInjective(a[..n], b[..n]);
      SameLast(a, b);
      assert a == a[..n] + [a[n]] && b == b[..n] + [b[n]];
    }
  }

  lemma NoTimes(a: seq<Entry>, b: seq<Entry>)
    requires SameTimes(a, b) && a == []
    ensures b == []
  {
  }

  lemma LastTimes(a: seq<Entry>, b: seq<Entry>)
    requires SameTimes(a, b) && DistinctMoments(a) && DistinctMoments(b) && a != []
    ensures |b| == |a| && SameTimes(a[..|a| - 1], b[..|a| - 1]) && a[|a| - 1].time == b[|a| - 1].time
    ensures DistinctMoments(a[..|a| - 1]) && DistinctMoments(b[..|a| - 1])
  {
  }

  lemma CompressStep(points: seq<Entry>)
    requires points != []
    ensures Compress(points) == Record(Compress(points[..|points| - 1]), points[|points| - 1])
  {
  }

  lemma SameLast(a: seq<Entry>, b: seq<Entry>)
    requires a != [] && b != [] && a[|a| - 1].time == b[|b| - 1].time && Compress(a) == Compress(b)
    ensures a[|a| - 1] == b[|b| - 1]
  {
    hide Compress;
    CompressEndsAt(a);
    CompressEndsAt(b);
  }

  lemma RecordsAlike(g: seq<Entry>, h: seq<Entry>, d: Entry, e: Entry)
    requires d.time == e.time && Record(g, d) == Record(h, e)
    requires (forall x :: x in g ==> x.time != d.time) && (forall x :: x in h ==> x.time != e.time)
    ensures g == h
  {
    SameEnd(g, h, d, e);
    assert Record(g, d) == g || Record(g, d) == g + [d];
    assert Record(h, e) == h || Record(h, e) == h + [e];
    assert d in g + [d] && e in h + [e];
  }

  lemma {:induction false} PointTimes(mode: Mode, times: map<Key, int>, cs: seq<Change>)
    requires About(times, cs)
    ensures forall i :: 0 <= i < |cs| ==> Points(mode, times, cs)[i].time == cs[i].time
  {
    hide Fold, ScoreOf;
    if cs != [] {
      PointTimes(mode, times, cs[..|cs| - 1]);
    }
  }

  /** No two changes happen at the same time. */
  ghost predicate DistinctChangeTimes(cs: seq<Change>) {
    forall i, j :: 0 <= i < j < |cs| ==> cs[i].time != cs[j].time
  }

  /** In the "max_subtask" mode, when no two changes happen at the same time, a new submission
      may skip the recomputation of the history exactly when no column was negative after
      any change. */
  lemma CreateSubmissionSubtaskExact(s: State, key: Key, time: int)
    requires WellFormed(s) && s.mode == MaxSubtask && s == Reset(s) && key !in s.times
    requires DistinctChangeTimes(s.changes)
    ensures var n := CreateSubmission(s, key, time);
      && WellFormed(n)
      && (n == Reset(n) <==>
          forall i :: 0 < i <= |s.changes| ==> NoNegativeColumn(Fold(s.times, s.changes[..i]).status))
  {
    hide Points, Fold, Compress, NoNegativeColumn;
    var now := s.times[key := time];
    BlankInFold(s.times, s.changes, key, time);
    SubtaskPointsExact(s.times, s.changes, key, time);
    PointTimes(MaxSubtask, s.times, s.changes);
    PointTimes(MaxSubtask, now, s.changes);
    var a, b := Points(MaxSubtask, s.times, s.changes), Points(MaxSubtask, now, s.changes);
    if Compress(a) == Compress(b) {
      CompressIsInjective(a, b);
    }
  }

  /** The score that a history shows for the moment t. */
  ghost function ShownAt(h: seq<Entry>, t: int): real {
    if h == [] then 0.0
    else if h[|h| - 1].time <= t then h[|h| - 1].score
    else ShownAt(h[..|h| - 1], t)
  }

  /** Recording a score only when it changes loses no moment of the history. */
  lemma {:induction false} CompressShowsAll(points: seq<Entry>, t: int)
    requires InTimeOrder(points)
    ensures ShownAt(Compress(points), t) == ShownAt(points, t)
  {
    if points != [] {
      var n := |points| - 1;
      var prior, e := Compress(points[..n]), points[n];
      CompressShowsAll(points[..n], t);
      CompressEndsAt(points[..n]);
      assert (prior + [e])[..|prior|] == prior;
      if e.time <= t && prior != [] {
        CompressComesFrom(points[..n], prior[|prior| - 1]);
        var i :| 0 <= i < n && points[i] == prior[|prior| - 1];
        assert points[i].time <= e.time;
      }
    }
  }

  /** The change i is the last one at its time. */
  ghost predicate EndsMoment(cs: seq<Change>, i: nat) {
    0 < i <= |cs| && (i < |cs| ==> cs[i - 1].time < cs[i].time)
  }

  lemma {:induction false} ScoreAfter(points: seq<Entry>, i: nat)
    requires InTimeOrder(points) && 0 < i <= |points| && (i < |points| ==> points[i - 1].time < points[i].time)
    ensures ShownAt(points, points[i - 1].time) == points[i - 1].score
  {
    var n := |points| - 1;
    if i <= n {
      assert points[i].time <= points[n].time;
      ScoreAfter(points[..n], i);
    }
  }

  /** With changes at equal times, the columns after the last change of a moment still decide
      that the recomputation is needed. */
  lemma CreateSubmissionSubtaskMoments(s: State, key: Key, time: int, i: nat)
    requires WellFormed(s) && s.mode == MaxSubtask && s == Reset(s) && key !in s.times && Sorted(s.changes)
    requires EndsMoment(s.changes, i) && !NoNegativeColumn(Fold(s.times, s.changes[..i]).status)
    ensures var n := CreateSubmission(s, key, time); WellFormed(n) && n != Reset(n)
  {
    hide Fold, Compress, NoNegativeColumn, Points;
    var now, cs := s.times[key := time], s.changes;
    BlankInFold(s.times, cs, key, time);
    PointTimes(MaxSubtask, s.times, cs);
    PointTimes(MaxSubtask, now, cs);
    var a, b := Points(MaxSubtask, s.times, cs), Points(MaxSubtask, now, cs);
    SortedPoints(cs, a);
    SortedPoints(cs, b);
    PointScore(MaxSubtask, s.times, cs, i);
    PointScore(MaxSubtask, now, cs, i);
    SubtaskLastExact(s.times, cs[..i], key, time);
    CompressShowsAll(a, cs[i - 1].time);
    CompressShowsAll(b, cs[i - 1].time);
    ScoreAfter(a, i);
    ScoreAfter(b, i);
  }

  lemma SortedPoints(cs: seq<Change>, points: seq<Entry>)
    requires Sorted(cs) && |points| == |cs| && forall i :: 0 <= i < |cs| ==> points[i].time == cs[i].time
    ensures InTimeOrder(points)
  {
    forall i, j | 0 <= i < j < |points|
      ensures points[i].time <= points[j].time
    {
      assert Earlier(cs[i], cs[j]);
    }
  }

  lemma {:induction false} PointScore(mode: Mode, times: map<Key, int>, cs: seq<Change>, i: nat)
    requires About(times, cs) && 0 < i <= |cs|
    ensures Points(mode, times, cs)[i - 1].score == ScoreOf(mode, Fold(times, cs[..i]))
  {
    hide Fold, ScoreOf;
    if i < |cs| {
      PointScore(mode, times, cs[..|cs| - 1], i);
      assert cs[..|cs| - 1][..i] == cs[..i];
    } else {
      assert cs[..i] == cs;
    }
  }

  /** Between two changes of one moment a negative column may go unnoticed. */
  lemma EqualTimesExample() returns (s: State, key: Key)
    ensures WellFormed(s) && s.mode == MaxSubtask && s == Reset(s) && key !in s.times && Sorted(s.changes)
    ensures |s.changes| == 2 && !NoNegativeColumn(Fold(s.times, s.changes[..1]).status)
    ensures s.history == [Entry(0, 1.0)]
    ensures var n := CreateSubmission(s, key, 1); WellFormed(n) && n == Reset(n)
  {
    hide Fold, Points, Compress, ScoreOf, NoNegativeColumn;
    var a := Change("a", "s", 0, None, None, Some([-1.0, 1.0]));
    var b := Change("b", "s", 0, None, None, Some([0.0, 1.0]));
    var times: map<Key, int> := map["s" := 0];
    s := Reset(State(MaxSubtask, times, [a, b], Blank(map[]), []));
    key := "t";
    assert About(times, [a, b]) && About(times, [a]) && [a, b][..1] == [a];
    BlankInFold(times, [a, b], key, 1);
    TwoScores(times, a, b, key);
    TwoPoints(MaxSubtask, times, a, b);
    TwoPoints(MaxSubtask, times[key := 1], a, b);
    TwoEntries(Entry(0, 0.0), Entry(0, 1.0));
    TwoEntries(Entry(0, 1.0), Entry(0, 1.0));
  }

  lemma TwoScores(times: map<Key, int>, a: Change, b: Change, key: Key)
    requires times.Keys == {"s"} && a.submission == b.submission == "s" && key != "s"
    requires a.extra == Some([-1.0, 1.0]) && b.extra == Some([0.0, 1.0])
    ensures About(times, [a]) && About(times, [a, b])
    ensures About(times[key := 1], [a]) && About(times[key := 1], [a, b])
    ensures ScoreOf(MaxSubtask, Fold(times, [a])) == 0.0 && ScoreOf(MaxSubtask, Fold(times, [a, b])) == 1.0
    ensures ScoreOf(MaxSubtask, Fold(times[key := 1], [a])) == ScoreOf(MaxSubtask, Fold(times[key := 1], [a, b])) == 1.0
    ensures !NoNegativeColumn(Fold(times, [a]).status)
  {
    hide Fold, ColumnSum, Width, NoNegativeColumn;
    TwoFolds(times, a, b);
    TwoColumns(Fold(times, [a]).status, key, -1.0);
    TwoColumns(Fold(times, [a, b]).status, key, 0.0);
    BlankInFold(times, [a], key, 1);
    BlankInFold(times, [a, b], key, 1);
  }

  lemma TwoFolds(times: map<Key, int>, a: Change, b: Change)
    requires times.Keys == {"s"} && a.submission == b.submission == "s" && a.extra.Some? && b.extra.Some?
    ensures About(times, [a]) && About(times, [a, b])
    ensures var one, two := Fold(times, [a]).status, Fold(times, [a, b]).status;
      one.Keys == two.Keys == {"s"} && one["s"].extra == a.extra.value && two["s"].extra == b.extra.value
  {
    assert [a, b] == [a] + [b] && [a] == [] + [a];
    FoldAppend(times, [], a);
    FoldAppend(times, [a], b);
  }

  /** One submission with two columns, alone and beside a blank one. */
  lemma TwoColumns(status: map<Key, Status>, key: Key, x: real)
    requires status.Keys == {"s"} && status["s"].extra == [x, 1.0] && key != "s"
    ensures ColumnSum(status, Width(status)) == x + 1.0
    ensures ColumnSum(status[key := FRESH], Width(status[key := FRESH])) == (if x < 0.0 then 0.0 else x) + 1.0
    ensures x < 0.0 ==> !NoNegativeColumn(status)
  {
    assert |Row(status["s"])| == 2;
    assert IsWidth(status, Width(status)) && Width(status) == 2;
    FreshWidth(status, key);
    assert Cell(status["s"], 0) == x && Cell(status["s"], 1) == 1.0;
    assert Column(status, 0) == {x} && Column(status, 1) == {1.0};
    FreshColumnExact(status, key, 0);
    FreshColumnExact(status, key, 1);
    TwoSums(status);
    TwoSums(status[key := FRESH]);
  }

  lemma TwoSums(status: map<Key, Status>)
    ensures ColumnSum(status, 2) == Largest(Column(status, 0)) + Largest(Column(status, 1))
  {
    assert ColumnSum(status, 1) == Largest(Column(status, 0));
  }

  lemma TwoPoints(mode: Mode, times: map<Key, int>, a: Change, b: Change)
    requires About(times, [a]) && About(times, [a, b])
    ensures Points(mode, times, [a, b]) ==
            [Entry(a.time, ScoreOf(mode, Fold(times, [a]))), Entry(b.time, ScoreOf(mode, Fold(times, [a, b])))]
  {
    hide Fold, ScoreOf;
    assert [a, b][..1] == [a] && [a][..0] == [];
    assert Points(mode, times, [a]) == [Entry(a.time, ScoreOf(mode, Fold(times, [a])))];
  }

  lemma TwoEntries(d: Entry, e: Entry)
    ensures Compress([d, e]) == Record(Record([], d), e)
  {
    assert [d, e][..1] == [d] && [d][..0] == [];
    assert Compress([d]) == Record([], d);
  }

  /** With a negative column it does: the live history keeps -1, a replay gives 0. */
  lemma NegativeSubtaskCounterexample() returns (s: State, key: Key)
    ensures WellFormed(s) && s.mode == MaxSubtask && s == Reset(s) && key !in s.times
    ensures var n := CreateSubmission(s, key, 1); WellFormed(n) && n != Reset(n)
  {
    hide Fold, Compress, Points, ScoreOf, NoNegativeColumn;
    var c := Change("c", "a", 0, Some(-1.0), None, None);
    var times: map<Key, int> := map["a" := 0];
    s := Reset(State(MaxSubtask, times, [c], Blank(map[]), []));
    key := "b";
    assert [c][..1] == [c];
    OneFold(times, c);
    NegativeColumn(Fold(times, [c]).status);
    CreateSubmissionSubtaskExact(s, key, 1);
    assert !NoNegativeColumn(Fold(s.times, s.changes[..1]).status);
  }

  lemma OneFold(times: map<Key, int>, c: Change)
    requires times.Keys == {c.submission}
    ensures About(times, [c])
    ensures var status := Fold(times, [c]).status;
      status.Keys == {c.submission} && status[c.submission] == Changed(FRESH, c)
  {
    assert [] + [c] == [c];
    FoldAppend(times, [], c);
  }

  lemma NegativeColumn(status: map<Key, Status>)
    requires status.Keys == {"a"} && status["a"] == Status(-1.0, false, [])
    ensures !NoNegativeColumn(status) && ColumnSum(status, Width(status)) == -1.0
  {
    assert |Row(status["a"])| == 1;
    assert IsWidth(status, Width(status)) && Width(status) == 1;
    assert Cell(status["a"], 0) == -1.0;
    assert Column(status, 0) == {-1.0};
    LargestIs(-1.0, {-1.0});
    assert ColumnSum(status, 1) == ColumnSum(status, 0) + Largest(Column(status, 0));
  }
}
