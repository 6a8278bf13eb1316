/** The classes NumberSet, Submission and Score, proved to do what ScoreSpec says. */
module Scores {
  import opened Basics
  import opened ScoreSpec
  import opened ScoreTheorems
  import opened ScoreRuns

  class NumberSet {
    var impl: seq<real>

    constructor ()
      ensures impl == []
    {
      impl := [];
    }

    method Insert(val: real)
      modifies this
      ensures multiset(impl) == multiset(old(impl)) + multiset{val}
    {
      impl := impl + [val];
    }

    /** Removes the first occurrence; list.remove fails on a missing value. */
    method Remove(val: real)
      requires val in impl
      modifies this
      ensures multiset(impl) == multiset(old(impl)) - multiset{val}
    {
      var i := 0;
      while i < |impl| && impl[i] != val
        invariant 0 <= i <= |impl| && val !in impl[..i]
      {
        i := i + 1;
      }
      assert impl[..|impl|] == impl;
      assert impl == impl[..i] + [val] + impl[i + 1..];
      impl := impl[..i] + impl[i + 1..];
    }

    method Query() returns (m: real)
      ensures m == Largest(Released(multiset(impl)))
    {
      m := 0.0;
      for i := 0 to |impl|
        invariant m == 0.0 || m in impl[..i]
        invariant 0.0 <= m && forall j :: 0 <= j < i ==> impl[j] <= m
      {
        if m < impl[i] {
          m := impl[i];
        }
        assert impl[..i + 1] == impl[..i] + [impl[i]];
      }
      assert impl[..|impl|] == impl;
      forall x | x in Released(multiset(impl))
        ensures x <= m
      {
        if x in multiset(impl) {
          assert x in impl;
        }
      }
      LargestIs(m, Released(multiset(impl)));
    }

    method Clear()
      modifies this
      ensures impl == []
    {
      impl := [];
    }
  }

  /** max(submission.score, default=0.0). */
  method MaxScore(status: map<Key, Status>) returns (m: real)
    ensures m == Largest(ScoreSpec.Scores(status))
  {
    m := 0.0;
    var rest, started := status.Keys, false;
    while rest != {}
      invariant rest <= status.Keys && (started <==> rest != status.Keys)
      invariant !started ==> m == 0.0
      invariant started ==> IsLargest(m, set k | k in status.Keys - rest :: status[k].score)
    {
      var k :| k in rest;
      if !started || m < status[k].score {
        m := status[k].score;
      }
      ghost var done := status.Keys - rest;
      assert (set j | j in status.Keys - (rest - {k}) :: status[j].score)
          == (set j | j in done :: status[j].score) + {status[k].score};
      rest, started := rest - {k}, true;
    }
    assert (set k | k in status.Keys - rest :: status[k].score) == ScoreSpec.Scores(status);
    if started {
      LargestIs(m, ScoreSpec.Scores(status));
    }
  }

  method ColumnMax(status: map<Key, Status>, column: nat) returns (m: real)
    ensures m == Largest(Column(status, column))
  {
    m := 0.0;
    var rest, started := status.Keys, false;
    while rest != {}
      invariant rest <= status.Keys && (started <==> rest != status.Keys)
      invariant !started ==> m == 0.0
      invariant started ==> IsLargest(m, set k | k in status.Keys - rest :: Cell(status[k], column))
    {
      var k :| k in rest;
      if !started || m < Cell(status[k], column) {
        m := Cell(status[k], column);
      }
      ghost var done := status.Keys - rest;
      assert (set j | j in status.Keys - (rest - {k}) :: Cell(status[j], column))
          == (set j | j in done :: Cell(status[j], column)) + {Cell(status[k], column)};
      rest, started := rest - {k}, true;
    }
    assert (set k | k in status.Keys - rest :: Cell(status[k], column)) == Column(status, column);
    if started {
      LargestIs(m, Column(status, column));
    }
  }

  /** The length of the longest row, where zip_longest stops. */
  method LongestRow(status: map<Key, Status>) returns (width: nat)
    ensures width == Width(status)
  {
    width := 0;
    var rest := status.Keys;
    while rest != {}
      invariant rest <= status.Keys
      invariant forall k :: k in status.Keys - rest ==> |Row(status[k])| <= width
      invariant if rest == status.Keys then width == 0
                else exists k :: k in status.Keys - rest && |Row(status[k])| == width
    {
      var k :| k in rest;
      if width < |Row(status[k])| {
        width := |Row(status[k])|;
      }
      rest := rest - {k};
    }
    assert IsWidth(status, width);
  }

  /** The sum over the columns of zip_longest of the largest cell. */
  method MaxSubtaskScore(status: map<Key, Status>) returns (score: real)
    ensures score == ColumnSum(status, Width(status))
  {
    score := 0.0;
    var width := LongestRow(status);
    for column := 0 to width
      invariant score == ColumnSum(status, column)
    {
      var m := ColumnMax(status, column);
      score := score + m;
    }
  }

  /** The list with c before the first later change; unchanged when there is none. */
  method Inserted(cs: seq<Change>, c: Change) returns (r: seq<Change>)
    ensures r == Insert(cs, c)
  {
    var idx := 0;
    while idx < |cs| && !Earlier(c, cs[idx])
      invariant 0 <= idx <= |cs| && Insert(cs, c) == cs[..idx] + Insert(cs[idx..], c)
    {
      InsertSkips(cs, idx, c);
      idx := idx + 1;
    }
    r := if idx < |cs| then cs[..idx] + [c] + cs[idx..] else cs;
  }

  lemma InsertSkips(cs: seq<Change>, i: nat, c: Change)
    requires i < |cs| && !Earlier(c, cs[i])
    ensures cs[..i] + Insert(cs[i..], c) == cs[..i + 1] + Insert(cs[i + 1..], c)
  {
    assert cs[i..][1..] == cs[i + 1..];
  }

  /** [c for c in cs if c.key != key]. */
  method KeepOtherKeys(cs: seq<Change>, key: Key) returns (kept: seq<Change>)
    ensures kept == WithoutKey(cs, key)
  {
    kept := [];
    for i := 0 to |cs|
      invariant kept == WithoutKey(cs[..i], key)
    {
      assert cs[..i + 1][..i] == cs[..i];
      if cs[i].key != key {
        kept := kept + [cs[i]];
      }
    }
    assert cs[..|cs|] == cs;
  }

  /** [c for c in cs if c.submission != key]. */
  method KeepOtherSubmissions(cs: seq<Change>, key: Key) returns (kept: seq<Change>)
    ensures kept == WithoutSubmission(cs, key)
  {
    kept := [];
    for i := 0 to |cs|
      invariant kept == WithoutSubmission(cs[..i], key)
    {
      assert cs[..i + 1][..i] == cs[..i];
      if cs[i].submission != key {
        kept := kept + [cs[i]];
      }
    }
    assert cs[..|cs|] == cs;
  }

  class Submission {
    const key: Key
    const time: int
    var score: real
    var token: bool
    var extra: seq<real>

    constructor (key: Key, time: int)
      ensures this.key == key && this.time == time
    {
      this.key := key;
      this.time := time;
    }

    function Show(): Status
      reads this
    {
      Status(score, token, extra)
    }

    method Clear()
      modifies this
      ensures Show() == FRESH
    {
      score := 0.0;
      token := false;
      extra := [];
    }

    method Change(change: ScoreSpec.Change)
      modifies this
      ensures Show() == Changed(old(Show()), change)
    {
      if change.score.Some? {
        score := change.score.value;
      }
      if change.token.Some? {
        token := change.token.value;
      }
      if change.extra.Some? {
        extra := change.extra.value;
      }
    }
  }

  /** The objects show these values. */
  ghost predicate ShowAll(submissions: map<Key, Submission>, status: map<Key, Status>)
    reads submissions.Values
  {
    status.Keys == submissions.Keys && forall k :: k in submissions ==> status[k] == submissions[k].Show()
  }

  /** The object is the one with the key, and null when there is no key. */
  ghost predicate IsAt(submissions: map<Key, Submission>, key: Option<Key>, last: Submission?) {
    if key.None? then last == null else key.value in submissions && submissions[key.value] == last
  }

  lemma ShowMore(submissions: map<Key, Submission>, status: map<Key, Status>, key: Key, submission: Submission)
    requires ShowAll(submissions, status) && key !in submissions && submission.Show() == FRESH
    ensures ShowAll(submissions[key := submission], status[key := FRESH])
  {
  }

  lemma ShowEach(submissions: map<Key, Submission>, status: map<Key, Status>)
    requires ShowAll(submissions, status)
    ensures status.Keys == submissions.Keys && forall k :: k in submissions ==> status[k] == submissions[k].Show()
  {
  }

  lemma ShowChanged(submissions: map<Key, Submission>, status: map<Key, Status>, key: Key)
    requires status.Keys == submissions.Keys && key in submissions
    requires forall k :: k in submissions && k != key ==> status[k] == submissions[k].Show()
    ensures ShowAll(submissions, status[key := submissions[key].Show()])
  {
  }

  class Score {
    var submissions: map<Key, Submission>
    var changes: seq<Change>
    const released: NumberSet
    var last: Submission?
    var history: seq<Entry>
    var mode: Mode
    // What the submission objects hold, as values.
    ghost var times: map<Key, int>
    ghost var board: Board
    // This object and those it uses.
    ghost var Repr: set<object>

    /** What holds even in the middle of an update. */
    ghost predicate Shaped()
      reads this`submissions, this`changes, this`times
    {
      && (forall k :: k in submissions ==> submissions[k].key == k)
      && About(times, changes)
      && times.Keys == submissions.Keys
      && (forall k :: k in submissions ==> times[k] == submissions[k].time)
    }

    /** The board shows what the objects hold. */
    ghost predicate Linked()
      reads this`submissions, this`changes, this`times, this`board, this`last, released, submissions.Values
    {
      && Shaped() && ShowAll(submissions, board.status)
      && board.released == multiset(released.impl)
      && IsAt(submissions, board.last, last)
    }

    /** The submissions always are what the changes make of them. */
    ghost predicate Valid()
      reads this`submissions, this`changes, this`times, this`board, this`last, released, submissions.Values
    {
      Linked() && board == Fold(times, changes)
    }

    /** The whole object as a value. */
    ghost function View(): State
      reads this
    {
      State(mode, times, changes, board, history)
    }

    /** Valid, with all the objects it uses in Repr. */
    ghost predicate Ready()
      reads this, Repr
    {
      this in Repr && released in Repr && submissions.Values <= Repr && Valid()
    }

    /** Ready, with the given value. */
    ghost predicate Holds(st: State)
      reads this, Repr
    {
      Ready() && View() == st
    }

    constructor (mode: Mode)
      ensures Valid() && View() == Empty(mode)
      ensures submissions == map[] && Holds(Empty(mode)) && fresh(Repr) && this in Repr
    {
      this.submissions := map[];
      this.changes := [];
      this.released := new NumberSet();
      this.last := null;
      this.history := [];
      this.mode := mode;
      this.times := map[];
      this.board := Blank(map[]);
      this.Repr := {this, this.released};
    }

    function GetScore(): (score: real)
      reads this
      ensures score == CurrentScore(View().history)
    {
      CurrentScore(history)
    }

    lemma ViewTimes()
      requires Valid()
      ensures View().times.Keys == submissions.Keys && WellFormed(View())
    {
      hide Fold;
    }

    method ComputeScore() returns (score: real)
      requires Linked()
      ensures score == ScoreOf(mode, board)
    {
      var status := map k | k in submissions :: submissions[k].Show();
      assert status == board.status;
      match mode
      case Max =>
        score := MaxScore(status);
      case MaxSubtask =>
        score := MaxSubtaskScore(status);
      case MaxTokenedLast =>
        score := released.Query();
        if last != null && score < last.score {
          score := last.score;
        }
        assert 0.0 in Released(board.released);
    }

    /** No other key leads to the same submission object. */
    lemma OwnSubmission(key: Key)
      requires Shaped() && key in submissions
      ensures forall k :: k in submissions && k != key ==> submissions[k] != submissions[key]
      ensures times.Keys == submissions.Keys && forall k :: k in submissions ==> times[k] == submissions[k].time
    {
    }

    /** Out of the released scores, changed, and back in if it has a token. */
    method ChangeReleased(sub: Submission, change: Change)
      requires sub.token ==> sub.score in released.impl
      modifies released, sub
      ensures sub.Show() == Changed(old(sub.Show()), change)
      ensures multiset(released.impl) == Rerelease(multiset(old(released.impl)), old(sub.Show()), sub.Show())
    {
      if sub.token {
        released.Remove(sub.score);
      }
      sub.Change(change);
      if sub.token {
        released.Insert(sub.score);
      }
    }

    /** Applies the change to its submission and keeps `released` up to date. */
    method ChangeSubmission(change: Change)
      requires Linked() && change.submission in submissions
      requires submissions[change.submission].token ==> submissions[change.submission].score in released.impl
      modifies this`board, released, submissions[change.submission]
      ensures Linked()
      ensures var before := old(board).status[change.submission];
              var after := Changed(before, change);
              board == Board(old(board).status[change.submission := after],
                             Rerelease(old(board).released, before, after), old(board).last)
    {
      hide Fold, Changed, Rerelease, Shaped, ShowAll;
      var sub := submissions[change.submission];
      ShowEach(submissions, board.status);
      OwnSubmission(change.submission);
      assert sub.Show() == board.status[change.submission];
      ChangeReleased(sub, change);
      ShowChanged(submissions, board.status, change.submission);
      board := Board(board.status[change.submission := sub.Show()], multiset(released.impl), board.last);
    }

    /** Applies the change to its submission and keeps `released` and `last` up to date. */
    method ApplyChange(change: Change)
      requires Linked() && change.submission in submissions
      requires submissions[change.submission].token ==> submissions[change.submission].score in released.impl
      modifies this`board, this`last, released, submissions[change.submission]
      ensures Linked() && board == Absorb(times, old(board), change)
    {
      hide Fold, Changed, Rerelease, Shaped;
      OwnSubmission(change.submission);
      ChangeSubmission(change);
      if change.score.Some? && (last == null || submissions[change.submission].time > last.time) {
        last := submissions[change.submission];
        board := board.(last := Some(change.submission));
      }
    }

    /** Applies the change, computes the new score and records it if it differs. */
    method AppendChange(change: Change)
      requires Linked() && change.submission in submissions
      requires submissions[change.submission].token ==> submissions[change.submission].score in released.impl
      modifies this`board, this`last, this`history, released, submissions[change.submission]
      ensures Linked() && View() == ScoreSpec.AppendChange(old(View()), change)
    {
      hide Fold, Absorb, ScoreOf, Shaped;
      ApplyChange(change);
      var score := ComputeScore();
      if score != GetScore() {
        history := history + [Entry(change.time, score)];
      }
    }

    /** Sets every submission back to its default value. */
    method ResetSubmissions()
      requires Shaped()
      modifies submissions.Values
      ensures forall k :: k in submissions ==> submissions[k].Show() == FRESH
    {
      var rest := submissions.Keys;
      while rest != {}
        invariant rest <= submissions.Keys
        invariant forall k :: k in submissions.Keys - rest ==> submissions[k].Show() == FRESH
      {
        var k :| k in rest;
        submissions[k].Clear();
        rest := rest - {k};
      }
    }

    /** Deletes everything except the submissions and the changes. */
    method ClearAll()
      requires Shaped()
      modifies this`last, this`history, this`board, released, submissions.Values
      ensures Linked() && View() == old(View()).(board := Blank(times), history := [])
    {
      last := null;
      released.Clear();
      history := [];
      ResetSubmissions();
      board := Blank(times);
    }

    /** Clears what the submissions and the history hold and applies every change again. */
    method ResetHistory()
      requires Shaped()
      modifies this`last, this`history, this`board, released, submissions.Values
      ensures Valid() && View() == Reset(old(View()))
    {
      hide Fold, Points, Compress, ScoreOf, Absorb, ScoreSpec.AppendChange;
      ghost var was := View();
      ClearAll();
      ResetEnds(was);
      for i := 0 to |changes|
        invariant Linked() && View() == ResetUpTo(was, i)
      {
        ReplayOne(i, was);
      }
    }

    /** One more change is applied again. */
    method ReplayOne(i: nat, ghost was: State)
      requires Linked() && About(was.times, was.changes) && i < |was.changes| && View() == ResetUpTo(was, i)
      modifies this`board, this`last, this`history, released, submissions.Values
      ensures Linked() && View() == ResetUpTo(was, i + 1)
    {
      hide Fold, Points, Compress, ScoreOf, Absorb, ScoreSpec.AppendChange;
      TokenIsHeld(times, changes[..i], changes[i].submission);
      assert board.status[changes[i].submission] == submissions[changes[i].submission].Show();
      ResetStep(was, i);
      AppendChange(changes[i]);
    }

    method AppendLast(subchange: Change)
      requires Valid() && subchange.submission in submissions
      modifies this`changes, this`last, this`history, this`board, released, submissions[subchange.submission]
      ensures Valid()
      ensures View() == ScoreSpec.AppendChange(old(View()), subchange).(changes := old(changes) + [subchange])
    {
      hide Fold, Points, Compress, ScoreOf, Absorb, About, Record, CurrentScore;
      TokenIsHeld(times, changes, subchange.submission);
      assert board.status[subchange.submission] == submissions[subchange.submission].Show();
      FoldAppend(times, changes, subchange);
      changes := changes + [subchange];
      AppendChange(subchange);
    }

    method CreateSubchange(subchange: Change)
      requires Valid() && subchange.submission in submissions
      modifies this`changes, this`last, this`history, this`board, released, submissions.Values
      ensures Valid() && View() == CreateChange(old(View()), subchange)
    {
      hide Fold, Points, Compress, ScoreOf, Absorb, Insert, About, Earlier, Record, CurrentScore;
      if |changes| == 0 || Earlier(changes[|changes| - 1], subchange) {
        AppendLast(subchange);
      } else {
        InsertAbout(times, changes, subchange);
        changes := Inserted(changes, subchange);
        ResetHistory();
      }
    }

    method UpdateSubchange(key: Key, subchange: Change)
      requires Valid() && subchange.submission in submissions
      modifies this`changes, this`last, this`history, this`board, released, submissions.Values
      ensures Valid() && View() == UpdateChange(old(View()), key, subchange)
    {
      hide Fold, Points, Compress, ScoreOf, Absorb, Replace;
      ReplaceAbout(times, changes, key, subchange);
      ReplaceChanges(key, subchange);
      ResetHistory();
    }

    /** Every change with the key becomes the new one. */
    method ReplaceChanges(key: Key, subchange: Change)
      modifies this`changes
      ensures changes == Replace(old(changes), key, subchange)
    {
      ghost var cs := changes;
      for i := 0 to |changes|
        invariant |changes| == |cs|
        invariant forall j :: 0 <= j < i ==> changes[j] == if cs[j].key == key then subchange else cs[j]
        invariant forall j :: i <= j < |cs| ==> changes[j] == cs[j]
      {
        if changes[i].key == key {
          changes := changes[i := subchange];
        }
      }
      assert changes == Replace(cs, key, subchange);
    }

    method DeleteSubchange(key: Key)
      requires Valid()
      modifies this`changes, this`last, this`history, this`board, released, submissions.Values
      ensures Valid() && View() == DeleteChange(old(View()), key)
    {
      hide Fold, Points, Compress, ScoreOf, WithoutKey, WithoutSubmission, About;
      WithoutAbout(times, changes, key);
      changes := KeepOtherKeys(changes, key);
      ResetHistory();
    }

    /** The new submission object becomes part of this Score. */
    method CreateSubmission(key: Key, submission: Submission)
      requires Valid() && key !in submissions && submission.key == key
      modifies this`submissions, this`times, this`board, submission
      ensures Valid() && submissions == old(submissions)[key := submission]
      ensures View() == ScoreSpec.CreateSubmission(old(View()), key, submission.time)
    {
      hide Fold, Points, Compress, ScoreOf, Absorb, About;
      BlankInFold(times, changes, key, submission.time);
      AddBlank(submission);
    }

    method AddBlank(submission: Submission)
      requires Linked() && submission.key !in submissions
      modifies this`submissions, this`times, this`board, submission
      ensures Linked() && submissions == old(submissions)[submission.key := submission]
      ensures times == old(times)[submission.key := submission.time]
      ensures board == old(board).(status := old(board).status[submission.key := FRESH])
    {
      hide Fold, Absorb, About, ShowAll;
      AboutMore(times, changes, submission.key, submission.time);
      assert forall k :: k in submissions ==> submissions[k] != submission;
      submission.Clear();
      ShowMore(submissions, board.status, submission.key, submission);
      submissions, times, board :=
        submissions[submission.key := submission], times[submission.key := submission.time],
        board.(status := board.status[submission.key := FRESH]);
    }

    method UpdateSubmission(key: Key, submission: Submission)
      requires Valid() && key in submissions && submission.key == key && submission != submissions[key]
      modifies this`submissions, this`times, this`last, this`history, this`board, released, submissions.Values,
               submission
      ensures Valid() && submissions == old(submissions)[key := submission]
      ensures View() == ScoreSpec.UpdateSubmission(old(View()), key, submission.time)
    {
      hide Fold, Points, Compress, ScoreOf, Absorb, About;
      AboutMore(times, changes, key, submission.time);
      submissions := submissions[key := submission];
      times := times[key := submission.time];
      ResetHistory();
    }

    /** Takes the submission and its changes out. */
    method Forget(key: Key)
      requires Shaped()
      modifies this`submissions, this`changes, this`times
      ensures Shaped() && submissions == old(submissions) - {key}
      ensures times == old(times) - {key} && changes == WithoutSubmission(old(changes), key)
    {
      hide Fold, WithoutKey, WithoutSubmission, About;
      WithoutAbout(times, changes, key);
      submissions := submissions - {key};
      times := times - {key};
      changes := KeepOtherSubmissions(changes, key);
    }

    method DeleteSubmission(key: Key)
      requires Valid()
      modifies this`submissions, this`times, this`changes, this`last, this`history, this`board, released,
               submissions.Values
      ensures Valid() && submissions == old(submissions) - {key}
      ensures View() == ScoreSpec.DeleteSubmission(old(View()), key)
    {
      hide Fold, Points, Compress, ScoreOf, WithoutKey, WithoutSubmission, About;
      if key in submissions {
        Forget(key);
        ResetHistory();
      } else {
        assert submissions - {key} == submissions;
      }
    }

    lemma HoldsWell(st: State)
      requires Holds(st)
      ensures WellFormed(st) && st.times.Keys == submissions.Keys
    {
      hide Fold;
      ViewTimes();
    }

    lemma HoldsHistory(st: State)
      requires Holds(st)
      ensures history == st.history
    {
      hide Fold;
    }

    /** Any of the operations, with new objects for the submissions it brings. */
    method Perform(op: Op, ghost st: State)
      requires Holds(st) && Applies(st.times, op)
      modifies Repr
      ensures fresh(Repr - old(Repr)) && this in Repr
      ensures WellFormed(st) && Holds(Do(st, op))
    {
      hide Fold, Valid, Do, Reset;
      ViewTimes();
      if op.NewSubmission? || op.SetSubmission? || op.DropSubmission? {
        PerformOnSubmission(op, st);
      } else {
        PerformOnChange(op, st);
      }
    }

    method PerformOnSubmission(op: Op, ghost st: State)
      requires Holds(st) && WellFormed(st) && Applies(st.times, op)
      requires op.NewSubmission? || op.SetSubmission? || op.DropSubmission?
      modifies Repr
      ensures fresh(Repr - old(Repr)) && this in Repr && Holds(Do(st, op))
    {
      hide Fold, Valid, ScoreSpec.CreateSubmission, ScoreSpec.UpdateSubmission, ScoreSpec.DeleteSubmission;
      ViewTimes();
      match op
      case NewSubmission(key, time) =>
        var sub := new Submission(key, time);
        CreateSubmission(key, sub);
        Repr := Repr + {sub};
      case SetSubmission(key, time) =>
        var sub := new Submission(key, time);
        UpdateSubmission(key, sub);
        Repr := Repr + {sub};
      case DropSubmission(key) => DeleteSubmission(key);
      case _ =>
    }

    method PerformOnChange(op: Op, ghost st: State)
      requires Holds(st) && WellFormed(st) && Applies(st.times, op)
      requires op.NewChange? || op.SetChange? || op.DropChange?
      modifies Repr
      ensures fresh(Repr - old(Repr)) && this in Repr && Holds(Do(st, op))
    {
      hide Fold, Valid, CreateChange, UpdateChange, DeleteChange;
      ViewTimes();
      match op
      case NewChange(c) => CreateSubchange(c);
      case SetChange(c) => UpdateSubchange(c.key, c);
      case DropChange(key) => DeleteSubchange(key);
      case _ =>
    }

    method UpdateScoreMode(mode: Mode, ghost st: State)
      requires Holds(st)
      modifies this`mode
      ensures Holds(st.(mode := mode))
    {
      hide Linked, Fold;
      this.mode := mode;
    }
  }
}
