/** The score of one user on one task as a value: what every operation of the
    class Score does to it, and what its history is a function of. */
module ScoreSpec {
  import opened Basics

  datatype Mode = Max | MaxSubtask | MaxTokenedLast

  /** What a change has made of a submission so far. */
  datatype Status = Status(score: real, token: bool, extra: seq<real>)

  const FRESH := Status(0.0, false, [])

  /** A subchange: every field but the key, the submission and the time is optional. */
  datatype Change = Change(key: Key, submission: Key, time: int,
                           score: Option<real>, token: Option<bool>, extra: Option<seq<real>>)

  datatype Entry = Entry(time: int, score: real)

  /** The submissions as the changes so far have left them. */
  datatype Board = Board(status: map<Key, Status>, released: multiset<real>, last: Option<Key>)

  /** A whole Score. `times` holds the submission times. */
  datatype State = State(mode: Mode, times: map<Key, int>, changes: seq<Change>,
                         board: Board, history: seq<Entry>)

  // ---------------------------------------------------------------- one step

  function Row(s: Status): (r: seq<real>)
    ensures r != []
  {
    if s.extra != [] then s.extra else [s.score]
  }

  function Cell(s: Status, column: nat): real {
    if column < |Row(s)| then Row(s)[column] else 0.0
  }

  ghost function Scores(status: map<Key, Status>): set<real> {
    set k | k in status :: status[k].score
  }

  ghost function Column(status: map<Key, Status>, column: nat): set<real> {
    set k | k in status :: Cell(status[k], column)
  }

  ghost function ColumnSum(status: map<Key, Status>, width: nat): real {
    if width == 0 then 0.0 else ColumnSum(status, width - 1) + Largest(Column(status, width - 1))
  }

  /** Every row fits in `width` columns, and some row fills them all. */
  ghost predicate IsWidth(status: map<Key, Status>, width: nat) {
    && (forall k :: k in status ==> |Row(status[k])| <= width)
    && (if status == map[] then width == 0 else exists k :: k in status && |Row(status[k])| == width)
  }

  lemma {:induction false} WidthExists(status: map<Key, Status>)
    ensures exists width: nat :: IsWidth(status, width)
    decreases |status|
  {
    if status == map[] {
      assert IsWidth(status, 0);
    } else {
      var k :| k in status;
      var rest := status - {k};
      assert |rest| < |status| by { assert rest.Keys == status.Keys - {k}; }
      WidthExists(rest);
      var w: nat :| IsWidth(rest, w);
      var width := if w < |Row(status[k])| then |Row(status[k])| else w;
      assert forall j :: j in status ==> j == k || (j in rest && rest[j] == status[j]);
      if width == w && rest != map[] {
        var j :| j in rest && |Row(rest[j])| == w;
        assert j in status && |Row(status[j])| == width;
      } else {
        assert |Row(status[k])| == width;
      }
      assert IsWidth(status, width);
    }
  }

  ghost function Width(status: map<Key, Status>): (width: nat)
    ensures IsWidth(status, width)
  {
    WidthExists(status);
    var width: nat :| IsWidth(status, width);
    width
  }

  ghost function Released(released: multiset<real>): set<real> {
    (set v | v in released) + {0.0}
  }

  ghost function ScoreOf(mode: Mode, b: Board): real {
    match mode
    case Max => Largest(Scores(b.status))
    case MaxSubtask => ColumnSum(b.status, Width(b.status))
    case MaxTokenedLast =>
      var tokened := Largest(Released(b.released));
      var last := if b.last.Some? && b.last.value in b.status then b.status[b.last.value].score else 0.0;
      if tokened < last then last else tokened
  }

  function CurrentScore(history: seq<Entry>): real {
    if history == [] then 0.0 else history[|history| - 1].score
  }

  function Changed(s: Status, c: Change): Status {
    Status(if c.score.Some? then c.score.value else s.score,
           if c.token.Some? then c.token.value else s.token,
           if c.extra.Some? then c.extra.value else s.extra)
  }

  /** The released scores once a submission has gone from one status to another. */
  function Rerelease(released: multiset<real>, before: Status, after: Status): multiset<real> {
    var rest := if before.token then released - multiset{before.score} else released;
    if after.token then rest + multiset{after.score} else rest
  }

  /** The change applied to its submission, to the released scores and to the last submission. */
  function Absorb(times: map<Key, int>, b: Board, c: Change): Board
    requires c.submission in b.status && c.submission in times
    requires b.last.Some? ==> b.last.value in times
  {
    var before := b.status[c.submission];
    var after := Changed(before, c);
    Board(b.status[c.submission := after],
          Rerelease(b.released, before, after),
          if c.score.Some? && (b.last.None? || times[c.submission] > times[b.last.value])
          then Some(c.submission) else b.last)
  }

  /** The history with a new point, unless the score has not changed. */
  function Record(history: seq<Entry>, e: Entry): seq<Entry> {
    if e.score != CurrentScore(history) then history + [e] else history
  }

  // ------------------------------------------------------------- the replay

  ghost predicate About(times: map<Key, int>, cs: seq<Change>) {
    forall i :: 0 <= i < |cs| ==> cs[i].submission in times
  }

  function Blank(times: map<Key, int>): Board {
    Board(map k | k in times :: FRESH, multiset{}, None)
  }

  /** The board after all the changes, starting from blank submissions. */
  ghost function Fold(times: map<Key, int>, cs: seq<Change>): (b: Board)
    requires About(times, cs)
    ensures b.status.Keys == times.Keys
    ensures b.last.Some? ==> b.last.value in times
  {
    if cs == [] then Blank(times)
    else Absorb(times, Fold(times, cs[..|cs| - 1]), cs[|cs| - 1])
  }

  lemma FoldAppend(times: map<Key, int>, cs: seq<Change>, c: Change)
    requires About(times, cs) && c.submission in times
    ensures About(times, cs + [c]) && Fold(times, cs + [c]) == Absorb(times, Fold(times, cs), c)
  {
    assert (cs + [c])[..|cs|] == cs;
  }

  /** The score after each change. */
  ghost function Points(mode: Mode, times: map<Key, int>, cs: seq<Change>): (p: seq<Entry>)
    requires About(times, cs)
    ensures |p| == |cs|
  {
    if cs == [] then []
    else Points(mode, times, cs[..|cs| - 1]) + [Entry(cs[|cs| - 1].time, ScoreOf(mode, Fold(times, cs)))]
  }

  ghost function Compress(points: seq<Entry>): seq<Entry> {
    if points == [] then []
    else Record(Compress(points[..|points| - 1]), points[|points| - 1])
  }

  // ------------------------------------------------------------ operations

  predicate Earlier(a: Change, b: Change) {
    a.time < b.time || (a.time == b.time && Precedes(a.key, b.key))
  }

  ghost predicate Sorted(cs: seq<Change>) {
    forall i, j :: 0 <= i < j < |cs| ==> Earlier(cs[i], cs[j])
  }

  /** The list with c inserted before the first later change, unchanged when there is none. */
  ghost function Insert(cs: seq<Change>, c: Change): seq<Change> {
    if cs == [] then []
    else if Earlier(c, cs[0]) then [c] + cs
    else [cs[0]] + Insert(cs[1..], c)
  }

  ghost function Replace(cs: seq<Change>, key: Key, c: Change): (r: seq<Change>)
    ensures |r| == |cs|
  {
    seq(|cs|, i requires 0 <= i < |cs| => if cs[i].key == key then c else cs[i])
  }

  ghost function WithoutKey(cs: seq<Change>, key: Key): (r: seq<Change>)
    ensures forall c :: c in r <==> c in cs && c.key != key
  {
    if cs == [] then []
    else
      var c := cs[|cs| - 1];
      assert cs == cs[..|cs| - 1] + [c];
      WithoutKey(cs[..|cs| - 1], key) + if c.key != key then [c] else []
  }

  ghost function WithoutSubmission(cs: seq<Change>, key: Key): (r: seq<Change>)
    ensures forall c :: c in r <==> c in cs && c.submission != key
  {
    if cs == [] then []
    else
      var c := cs[|cs| - 1];
      assert cs == cs[..|cs| - 1] + [c];
      WithoutSubmission(cs[..|cs| - 1], key) + if c.submission != key then [c] else []
  }

  /** reset_history: clear everything and apply the changes one at a time. */
  ghost function Reset(s: State): State
    requires About(s.times, s.changes)
  {
    s.(board := Fold(s.times, s.changes), history := Compress(Points(s.mode, s.times, s.changes)))
  }

  /** The state in which reset_history has applied the first n changes again. */
  ghost function ResetUpTo(s: State, n: nat): State
    requires About(s.times, s.changes) && n <= |s.changes|
  {
    s.(board := Fold(s.times, s.changes[..n]), history := Compress(Points(s.mode, s.times, s.changes[..n])))
  }

  lemma ResetStep(s: State, n: nat)
    requires About(s.times, s.changes) && n < |s.changes|
    ensures AppendChange(ResetUpTo(s, n), s.changes[n]) == ResetUpTo(s, n + 1)
  {
    assert s.changes[..n + 1][..n] == s.changes[..n];
    var points := Points(s.mode, s.times, s.changes[..n + 1]);
    assert points[..n] == Points(s.mode, s.times, s.changes[..n]);
  }

  lemma ResetEnds(s: State)
    requires About(s.times, s.changes)
    ensures ResetUpTo(s, 0) == s.(board := Blank(s.times), history := [])
    ensures ResetUpTo(s, |s.changes|) == Reset(s)
  {
    assert s.changes[..|s.changes|] == s.changes;
  }

  ghost predicate WellFormed(s: State) {
    && About(s.times, s.changes)
    && s.board.status.Keys == s.times.Keys
    && (s.board.last.Some? ==> s.board.last.value in s.times)
  }

  /** append_change. */
  ghost function AppendChange(s: State, c: Change): State
    requires WellFormed(s) && c.submission in s.times
  {
    var board := Absorb(s.times, s.board, c);
    s.(board := board, history := Record(s.history, Entry(c.time, ScoreOf(s.mode, board))))
  }

  ghost function CreateChange(s: State, c: Change): State
    requires WellFormed(s) && c.submission in s.times
  {
    if s.changes == [] || Earlier(s.changes[|s.changes| - 1], c) then
      AppendChange(s, c).(changes := s.changes + [c])
    else
      InsertAbout(s.times, s.changes, c);
      Reset(s.(changes := Insert(s.changes, c)))
  }

  lemma {:induction false} InsertAbout(times: map<Key, int>, cs: seq<Change>, c: Change)
    requires About(times, cs) && c.submission in times
    ensures About(times, Insert(cs, c))
  {
    if cs != [] && !Earlier(c, cs[0]) {
      InsertAbout(times, cs[1..], c);
    }
  }

  lemma WithoutAbout(times: map<Key, int>, cs: seq<Change>, key: Key)
    requires About(times, cs)
    ensures About(times, WithoutKey(cs, key))
    ensures About(times - {key}, WithoutSubmission(cs, key))
  {
    AboutIfMembers(times, WithoutKey(cs, key));
    AboutIfMembers(times - {key}, WithoutSubmission(cs, key));
  }

  lemma AboutMore(times: map<Key, int>, cs: seq<Change>, key: Key, time: int)
    requires About(times, cs)
    ensures About(times[key := time], cs)
  {
  }

  lemma ReplaceAbout(times: map<Key, int>, cs: seq<Change>, key: Key, c: Change)
    requires About(times, cs) && c.submission in times
    ensures About(times, Replace(cs, key, c))
  {
  }

  lemma AboutIfMembers(times: map<Key, int>, cs: seq<Change>)
    requires forall c :: c in cs ==> c.submission in times
    ensures About(times, cs)
  {
    forall i | 0 <= i < |cs|
      ensures cs[i].submission in times
    {
      assert cs[i] in cs;
    }
  }

  ghost function UpdateChange(s: State, key: Key, c: Change): State
    requires WellFormed(s) && c.submission in s.times
  {
    Reset(s.(changes := Replace(s.changes, key, c)))
  }

  ghost function DeleteChange(s: State, key: Key): State
    requires WellFormed(s)
  {
    WithoutAbout(s.times, s.changes, key);
    Reset(s.(changes := WithoutKey(s.changes, key)))
  }

  ghost function CreateSubmission(s: State, key: Key, time: int): State {
    s.(times := s.times[key := time], board := s.board.(status := s.board.status[key := FRESH]))
  }

  ghost function UpdateSubmission(s: State, key: Key, time: int): State
    requires WellFormed(s)
  {
    Reset(s.(times := s.times[key := time]))
  }

  ghost function DeleteSubmission(s: State, key: Key): State
    requires WellFormed(s)
  {
    if key !in s.times then s
    else
      WithoutAbout(s.times, s.changes, key);
      Reset(s.(times := s.times - {key}, changes := WithoutSubmission(s.changes, key)))
  }

  function Empty(mode: Mode): State {
    State(mode, map[], [], Blank(map[]), [])
  }
}
