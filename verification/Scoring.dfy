/** The class ScoringStore: all the Scores, by user and by task. */
module Scoring {
  import opened Basics
  import opened ScoreSpec
  import opened ScoreRuns
  import ScoreTheorems
  import opened Scores
  import opened StoreSpec
  import opened MirrorSpec
  import GlobalHistory

  /** A call of the score callbacks. */
  datatype Note = Note(pair: Pair, score: real)

  function ScoreAt(v: View, p: Pair): real {
    if p in v then CurrentScore(v[p].history) else 0.0
  }

  /** The callbacks hear of p exactly when its score changes. */
  function Notified(notes: seq<Note>, p: Pair, before: real, after: real): seq<Note> {
    if before != after then notes + [Note(p, after)] else notes
  }

  /** What a client that knew `base` believes the score of p to be after some notes. */
  function Overlay(base: real, notes: seq<Note>, p: Pair): real {
    if notes == [] then base
    else if notes[|notes| - 1].pair == p then notes[|notes| - 1].score
    else Overlay(base, notes[..|notes| - 1], p)
  }

  /** The notes sent since then take a client from the old scores to the new ones. */
  ghost predicate Heard(v: View, notes: seq<Note>, w: View, more: seq<Note>) {
    notes <= more && forall p :: ScoreAt(w, p) == Overlay(ScoreAt(v, p), more[|notes|..], p)
  }

  lemma {:induction false} OverlayAppend(base: real, a: seq<Note>, b: seq<Note>, p: Pair)
    ensures Overlay(base, a + b, p) == Overlay(Overlay(base, a, p), b, p)
  {
    if b == [] {
      assert a + b == a;
    } else {
      assert (a + b)[..|a + b| - 1] == a + b[..|b| - 1];
      OverlayAppend(base, a, b[..|b| - 1], p);
    }
  }

  lemma HeardTransitive(v: View, a: seq<Note>, w: View, b: seq<Note>, x: View, c: seq<Note>)
    requires Heard(v, a, w, b) && Heard(w, b, x, c)
    ensures Heard(v, a, x, c)
  {
    assert c[|a|..] == b[|a|..] + c[|b|..];
    forall p
      ensures ScoreAt(x, p) == Overlay(ScoreAt(v, p), c[|a|..], p)
    {
      OverlayAppend(ScoreAt(v, p), b[|a|..], c[|b|..], p);
    }
  }

  lemma HeardNothing(v: View, notes: seq<Note>)
    ensures Heard(v, notes, v, notes)
  {
  }

  /** An operation on the Score of p is heard, also when it removes the Score. */
  lemma AfterHeard(v: View, notes: seq<Note>, p: Pair, s: State)
    requires s.times == map[] ==> s.history == []
    ensures Heard(v, notes, Shelve(v, p, s), Notified(notes, p, ScoreAt(v, p), CurrentScore(s.history)))
  {
    var w, more := Shelve(v, p, s), Notified(notes, p, ScoreAt(v, p), CurrentScore(s.history));
    assert ScoreAt(w, p) == CurrentScore(s.history);
    forall q
      ensures ScoreAt(w, q) == Overlay(ScoreAt(v, q), more[|notes|..], q)
    {
      if more != notes {
        assert more[|notes|..] == [Note(p, CurrentScore(s.history))];
      }
    }
  }

  lemma ShelveAgain(v: View, p: Pair, s: State)
    ensures Shelve(v[p := s], p, s) == Shelve(v, p, s)
    ensures ScoreAt(v[p := s], p) == CurrentScore(s.history)
  {
    assert v[p := s][p := s] == v[p := s];
    assert v[p := s] - {p} == v - {p};
  }

  lemma SetTwice(v: View, p: Pair, s: State, t: State)
    ensures v[p := s][p := t] == v[p := t]
  {
  }

  lemma SetIsUpdate(s: State, key: Key, time: int)
    requires WellFormed(s) && key in s.times
    ensures Do(s, SetSubmission(key, time)) == UpdateSubmission(s, key, time)
  {
  }

  lemma HeadIsAbout(times: map<Key, int>, cs: seq<Change>)
    requires About(times, cs)
    ensures cs != [] ==> cs[0].submission in times
  {
  }

  /** A Score without submissions has no history. */
  lemma DeletedIsSilent(s: State, key: Key)
    requires WellFormed(s) && key in s.times
    ensures var r := DeleteSubmission(s, key); r.times == map[] ==> r.history == []
  {
    var r := DeleteSubmission(s, key);
    WithoutAbout(s.times, s.changes, key);
    HeadIsAbout(r.times, r.changes);
  }

  /** The maps of maps agree with the flat map; no inner map is empty. */
  ghost predicate Nested(scores: map<Key, map<Key, Score>>, flat: map<Pair, Score>) {
    && (forall u :: u in scores ==> scores[u] != map[])
    && (forall p :: p in flat <==> p.user in scores && p.task in scores[p.user])
    && (forall p :: p in flat ==> flat[p] == scores[p.user][p.task])
  }

  lemma NestedAt(scores: map<Key, map<Key, Score>>, flat: map<Pair, Score>, p: Pair)
    requires Nested(scores, flat)
    ensures p in flat <==> p.user in scores && p.task in scores[p.user]
    ensures p in flat ==> flat[p] == scores[p.user][p.task]
  {
  }

  function Nest(scores: map<Key, map<Key, Score>>, p: Pair, s: Score): map<Key, map<Key, Score>> {
    var inner: map<Key, Score> := if p.user in scores then scores[p.user] else map[];
    scores[p.user := inner[p.task := s]]
  }

  lemma NestedMore(scores: map<Key, map<Key, Score>>, flat: map<Pair, Score>, p: Pair, s: Score)
    requires Nested(scores, flat)
    ensures Nested(Nest(scores, p, s), flat[p := s])
  {
    var r := Nest(scores, p, s);
    assert p.task in r[p.user];
    forall q
      ensures q in flat[p := s] <==> q.user in r && q.task in r[q.user]
    {
      assert q == p <==> q.user == p.user && q.task == p.task;
    }
  }

  function Unnest(scores: map<Key, map<Key, Score>>, p: Pair): map<Key, map<Key, Score>>
    requires p.user in scores
  {
    var inner := scores[p.user] - {p.task};
    if inner == map[] then scores - {p.user} else scores[p.user := inner]
  }

  lemma NestedLess(scores: map<Key, map<Key, Score>>, flat: map<Pair, Score>, p: Pair)
    requires Nested(scores, flat) && p in flat
    ensures Nested(Unnest(scores, p), flat - {p})
  {
    var r := Unnest(scores, p);
    forall q
      ensures q in flat - {p} <==> q.user in r && q.task in r[q.user]
    {
      assert q == p <==> q.user == p.user && q.task == p.task;
      assert q.user == p.user && q.task in scores[p.user] && q != p ==> q.task in scores[p.user] - {p.task};
    }
  }

  /** The objects of each Score are among all of them, and no two Scores share any. */
  ghost predicate Footprints(reprs: map<Pair, set<object>>, repr: set<object>) {
    && (forall p :: p in reprs ==> reprs[p] <= repr)
    && (forall p, q :: p in reprs && q in reprs && p != q ==> reprs[p] !! reprs[q])
  }

  lemma FootprintsAt(reprs: map<Pair, set<object>>, repr: set<object>, p: Pair)
    requires Footprints(reprs, repr) && p in reprs
    ensures reprs[p] <= repr && forall q :: q in reprs && q != p ==> reprs[p] !! reprs[q]
  {
  }

  /** One Score gets other objects, none of which belongs to another one. */
  lemma FootprintsMore(reprs: map<Pair, set<object>>, repr: set<object>, p: Pair, f: set<object>)
    requires Footprints(reprs, repr)
    requires forall o :: o in f ==> o !in repr || (p in reprs && o in reprs[p])
    ensures Footprints(reprs[p := f], repr + f)
  {
    var more := reprs[p := f];
    forall q | q in more && q != p
      ensures more[q] !! f && more[q] <= repr + f
    {
    }
  }

  lemma FootprintsLess(reprs: map<Pair, set<object>>, repr: set<object>, p: Pair)
    requires Footprints(reprs, repr)
    ensures Footprints(reprs - {p}, repr)
  {
  }

  /** Every Score holds the State of its user and task, in objects of its own. */
  ghost predicate AllHold(flat: map<Pair, Score>, view: View, reprs: map<Pair, set<object>>, repr: set<object>)
    reads repr
  {
    && view.Keys == flat.Keys == reprs.Keys
    && forall p :: p in flat ==> OneHolds(flat[p], view[p], reprs[p], repr)
  }

  ghost predicate OneHolds(s: Score, st: State, own: set<object>, repr: set<object>)
    reads repr
  {
    s in own && own <= repr && s.Repr == own && s.Holds(st)
  }

  lemma AllHoldAt(flat: map<Pair, Score>, view: View, reprs: map<Pair, set<object>>, repr: set<object>, p: Pair)
    requires AllHold(flat, view, reprs, repr)
    ensures view.Keys == flat.Keys == reprs.Keys
    ensures p in flat ==> flat[p] in repr && flat[p] in reprs[p] && reprs[p] <= repr && flat[p].Repr == reprs[p]
    ensures p in flat ==> flat[p].Holds(view[p])
  {
  }

  lemma AllHoldMore(flat: map<Pair, Score>, view: View, reprs: map<Pair, set<object>>, repr: set<object>, p: Pair,
        s: Score, st: State)
    requires AllHold(flat, view, reprs, repr) && s in s.Repr && s.Holds(st)
    ensures AllHold(flat[p := s], view[p := st], reprs[p := s.Repr], repr + s.Repr)
  {
    hide Score.Holds;
    forall q | q in flat && q != p
      ensures OneHolds(flat[q], view[q], reprs[q], repr + s.Repr)
    {
      assert OneHolds(flat[q], view[q], reprs[q], repr);
    }
  }

  lemma AllHoldLess(flat: map<Pair, Score>, view: View, reprs: map<Pair, set<object>>, repr: set<object>, p: Pair)
    requires AllHold(flat, view, reprs, repr)
    ensures AllHold(flat - {p}, view - {p}, reprs - {p}, repr)
  {
    assert (flat - {p}).Keys == (view - {p}).Keys == (reprs - {p}).Keys;
    assert forall q :: q in flat && q != p ==> OneHolds(flat[q], view[q], reprs[q], repr);
  }

  class ScoringStore {
    var scores: map<Key, map<Key, Score>>
    var notes: seq<Note>
    // What the Scores hold, as values.
    ghost var view: View
    // The Scores by user and task.
    ghost var flat: map<Pair, Score>
    // The objects that each Score consists of.
    ghost var reprs: map<Pair, set<object>>
    ghost var Repr: set<object>

    ghost predicate Valid()
      reads this`scores, this`view, this`flat, this`reprs, this`Repr, Repr
    {
      && this !in Repr && Nested(scores, flat)
      && view.Keys == flat.Keys == reprs.Keys && Footprints(reprs, Repr) && AllHold(flat, view, reprs, Repr)
    }

    lemma Outside()
      requires Valid()
      ensures this !in Repr
    {
    }

    constructor ()
      ensures Valid() && view == map[] && notes == [] && fresh(Repr)
    {
      scores := map[];
      notes := [];
      view := map[];
      flat := map[];
      reprs := map[];
      Repr := {};
    }

    /** get_score: 0 for a user and a task without submissions. */
    function GetScore(user: Key, task: Key): (score: real)
      requires Valid()
      reads this`scores, this`view, this`flat, this`reprs, this`Repr, Repr
      ensures score == ScoreAt(view, Pair(user, task))
    {
      if user !in scores || task !in scores[user] then 0.0
      else
        AllHoldAt(flat, view, reprs, Repr, Pair(user, task));
        scores[user][task].GetScore()
    }

    /** After an operation on the Score of p. */
    ghost predicate After(p: Pair, was: View, heard: seq<Note>, s: State)
      reads this
    {
      && view == Shelve(was, p, s)
      && notes == Notified(heard, p, ScoreAt(was, p), CurrentScore(s.history))
    }

    method Notify(p: Pair, oldScore: real, newScore: real)
      modifies this`notes
      ensures notes == Notified(old(notes), p, oldScore, newScore)
    {
      if oldScore != newScore {
        notes := notes + [Note(p, newScore)];
      }
    }

    /** The Score of p performs the operation; the others stay as they are. */
    method Pass(p: Pair, op: Op)
      requires Valid() && p in view && Applies(view[p].times, op)
      modifies Repr
      ensures WellFormed(view[p]) && fresh(flat[p].Repr - old(Repr)) && this !in flat[p].Repr
      ensures Footprints(reprs[p := flat[p].Repr], Repr + flat[p].Repr)
      ensures AllHold(flat, view[p := Do(view[p], op)], reprs[p := flat[p].Repr], Repr + flat[p].Repr)
    {
      hide Fold, Do, Score.Holds, Nested, WellFormed, Applies, Footprints;
      NestedAt(scores, flat, p);
      FootprintsAt(reprs, Repr, p);
      AllHoldAt(flat, view, reprs, Repr, p);
      var s := scores[p.user][p.task];
      s.HoldsWell(view[p]);
      s.Perform(op, view[p]);
      forall q | q in flat && q != p
        ensures OneHolds(flat[q], view[q], reprs[q], Repr + s.Repr)
      {
        assert old(OneHolds(flat[q], view[q], reprs[q], Repr));
      }
      FootprintsMore(reprs, Repr, p, s.Repr);
    }

    method Perform(p: Pair, op: Op)
      requires Valid() && p in view && Applies(view[p].times, op)
      modifies this`view, this`reprs, this`Repr, Repr
      ensures Valid() && fresh(Repr - old(Repr))
      ensures WellFormed(old(view)[p]) && view == old(view)[p := Do(old(view)[p], op)]
    {
      hide Fold, Do, Nested, WellFormed, Applies, Footprints, AllHold;
      Pass(p, op);
      reprs, Repr, view := reprs[p := flat[p].Repr], Repr + flat[p].Repr, view[p := Do(view[p], op)];
    }

    method SetMode(p: Pair, mode: Mode)
      requires Valid() && p in view
      modifies this`view, Repr
      ensures Valid() && view == old(view)[p := old(view)[p].(mode := mode)]
    {
      hide Fold, Score.Holds, Nested, Footprints, AllHold;
      ChangeMode(p, mode);
      view := view[p := view[p].(mode := mode)];
    }

    method ChangeMode(p: Pair, mode: Mode)
      requires Valid() && p in view
      modifies Repr
      ensures AllHold(flat, view[p := view[p].(mode := mode)], reprs, Repr)
    {
      hide Fold, Score.Holds, Nested, Footprints;
      NestedAt(scores, flat, p);
      FootprintsAt(reprs, Repr, p);
      AllHoldAt(flat, view, reprs, Repr, p);
      scores[p.user][p.task].UpdateScoreMode(mode, view[p]);
      forall q | q in flat && q != p
        ensures OneHolds(flat[q], view[q], reprs[q], Repr)
      {
        assert old(OneHolds(flat[q], view[q], reprs[q], Repr));
      }
    }

    method AddScore(p: Pair, mode: Mode)
      requires Valid() && p !in flat
      modifies this`scores, this`flat, this`view, this`reprs, this`Repr
      ensures Valid() && fresh(Repr - old(Repr)) && p in view && old(Repr) <= Repr
      ensures view == old(view)[p := Empty(mode)]
    {
      hide Fold, Score.Holds, Score.Valid, Score.View, Empty, Nested, Nest, Footprints, AllHold;
      var s := new Score(mode);
      NestedMore(scores, flat, p, s);
      FootprintsMore(reprs, Repr, p, s.Repr);
      AllHoldMore(flat, view, reprs, Repr, p, s, Empty(mode));
      scores := Nest(scores, p, s);
      flat, view, reprs, Repr := flat[p := s], view[p := Empty(mode)], reprs[p := s.Repr], Repr + s.Repr;
    }

    method RemoveScore(p: Pair)
      requires Valid() && p in flat
      modifies this`scores, this`flat, this`view, this`reprs
      ensures Valid() && view == old(view) - {p}
    {
      hide Fold, Score.Holds, Score.Valid, Score.View, Nested, Unnest, Footprints, AllHold;
      FootprintsLess(reprs, Repr, p);
      AllHoldLess(flat, view, reprs, Repr, p);
      NestedAt(scores, flat, p);
      NestedLess(scores, flat, p);
      scores := Unnest(scores, p);
      flat, reprs, view := flat - {p}, reprs - {p}, view - {p};
    }

    /** Makes a Score for p unless there is one. */
    method NeedScore(p: Pair, mode: Mode)
      requires Valid()
      modifies this`scores, this`flat, this`view, this`reprs, this`Repr
      ensures Valid() && fresh(Repr - old(Repr)) && p in view
      ensures view == old(view)[p := At(old(view), p, mode)]
      ensures old(Repr) <= Repr && this !in Repr
    {
      hide Fold, Score.Holds, Nested, Footprints, AllHold, Empty;
      NestedAt(scores, flat, p);
      if p.user !in scores || p.task !in scores[p.user] {
        AddScore(p, mode);
      } else {
        assert view[p := view[p]] == view;
      }
    }

    method CreateSubchange(p: Pair, c: Change)
      requires Valid() && p in view && c.submission in view[p].times
      modifies this`notes, this`view, this`reprs, this`Repr, Repr
      ensures Valid() && fresh(Repr - old(Repr)) && WellFormed(old(view)[p])
      ensures After(p, old(view), old(notes), CreateChange(old(view)[p], c))
    {
      hide Fold, Valid, CreateChange;
      Outside();
      var oldScore := GetScore(p.user, p.task);
      Perform(p, NewChange(c));
      DoTimes(old(view)[p], NewChange(c));
      var newScore := GetScore(p.user, p.task);
      Notify(p, oldScore, newScore);
    }

    method UpdateSubchange(p: Pair, c: Change)
      requires Valid() && p in view && c.submission in view[p].times
      modifies this`notes, this`view, this`reprs, this`Repr, Repr
      ensures Valid() && fresh(Repr - old(Repr)) && WellFormed(old(view)[p])
      ensures After(p, old(view), old(notes), UpdateChange(old(view)[p], c.key, c))
    {
      hide Fold, Valid, UpdateChange;
      Outside();
      var oldScore := GetScore(p.user, p.task);
      Perform(p, SetChange(c));
      DoTimes(old(view)[p], SetChange(c));
      var newScore := GetScore(p.user, p.task);
      Notify(p, oldScore, newScore);
    }

    method DeleteSubchange(p: Pair, key: Key)
      requires Valid() && p in view && view[p].times != map[]
      modifies this`notes, this`view, this`reprs, this`Repr, Repr
      ensures Valid() && fresh(Repr - old(Repr)) && WellFormed(old(view)[p])
      ensures After(p, old(view), old(notes), DeleteChange(old(view)[p], key))
    {
      hide Fold, Valid, DeleteChange;
      Outside();
      var oldScore := GetScore(p.user, p.task);
      Perform(p, DropChange(key));
      DoTimes(old(view)[p], DropChange(key));
      var newScore := GetScore(p.user, p.task);
      Notify(p, oldScore, newScore);
    }

    method CreateSubmission(key: Key, p: Pair, time: int, mode: Mode)
      requires Valid() && (p in view ==> key !in view[p].times)
      modifies this`scores, this`flat, this`notes, this`view, this`reprs, this`Repr, Repr
      ensures Valid() && fresh(Repr - old(Repr))
      ensures After(p, old(view), old(notes), ScoreSpec.CreateSubmission(At(old(view), p, mode), key, time))
    {
      hide Fold, Valid;
      NeedScore(p, mode);
      var oldScore := GetScore(p.user, p.task);
      ghost var was := view[p];
      Perform(p, NewSubmission(key, time));
      DoTimes(was, NewSubmission(key, time));
      var newScore := GetScore(p.user, p.task);
      Notify(p, oldScore, newScore);
      assert key in view[p].times && view[p].times != map[];
      assert view == old(view)[p := view[p]];
    }

    /** A submission that moves leaves its old Score, with its changes, and starts anew in the other. */
    method MoveSubmission(key: Key, was: Pair, p: Pair, time: int, mode: Mode)
      requires Valid() && was in view && key in view[was].times && was != p
      requires p in view ==> key !in view[p].times
      modifies this`scores, this`flat, this`notes, this`view, this`reprs, this`Repr, Repr
      ensures Valid() && fresh(Repr - old(Repr)) && WellFormed(old(view)[was])
      ensures view == Moved(old(view), key, was, ASubmission(p.user, p.task, time), mode)
      ensures Heard(old(view), old(notes), view, notes)
    {
      hide Fold, Valid, ScoreSpec.DeleteSubmission, Heard, Notified;
      Outside();
      DeleteSubmission(key, was);
      ghost var w, heard := view, notes;
      CreateSubmission(key, p, time, mode);
      DeletedIsSilent(old(view)[was], key);
      AfterHeard(old(view), old(notes), was, ScoreSpec.DeleteSubmission(old(view)[was], key));
      assert key in ScoreSpec.CreateSubmission(At(w, p, mode), key, time).times;
      AfterHeard(w, heard, p, ScoreSpec.CreateSubmission(At(w, p, mode), key, time));
      HeardTransitive(old(view), old(notes), w, heard, view, notes);
    }

    /** A submission updated in place; the Score then takes the mode of the task. */
    method RenewSubmission(key: Key, p: Pair, time: int, mode: Mode)
      requires Valid() && p in view && key in view[p].times
      modifies this`notes, this`view, this`reprs, this`Repr, Repr
      ensures Valid() && fresh(Repr - old(Repr)) && WellFormed(old(view)[p])
      ensures After(p, old(view), old(notes), ScoreSpec.UpdateSubmission(old(view)[p], key, time).(mode := mode))
    {
      hide Fold, Valid, ScoreSpec.UpdateSubmission, Do;
      Outside();
      var oldScore := GetScore(p.user, p.task);
      ghost var st := view[p];
      Perform(p, SetSubmission(key, time));
      DoTimes(st, SetSubmission(key, time));
      SetIsUpdate(st, key, time);
      SetMode(p, mode);
      var newScore := GetScore(p.user, p.task);
      Notify(p, oldScore, newScore);
      assert key in view[p].times;
      SetTwice(old(view), p, Do(st, SetSubmission(key, time)), view[p]);
    }

    method UpdateSubmission(key: Key, was: Pair, p: Pair, time: int, mode: Mode)
      requires Valid() && was in view && key in view[was].times
      requires p != was && p in view ==> key !in view[p].times
      modifies this`scores, this`flat, this`notes, this`view, this`reprs, this`Repr, Repr
      ensures Valid() && fresh(Repr - old(Repr)) && WellFormed(old(view)[was])
      ensures p == was ==>
                After(p, old(view), old(notes), ScoreSpec.UpdateSubmission(old(view)[p], key, time).(mode := mode))
      ensures p != was ==>
                && view == Moved(old(view), key, was, ASubmission(p.user, p.task, time), mode)
                && Heard(old(view), old(notes), view, notes)
    {
      hide Fold, Valid, ScoreSpec.UpdateSubmission, Moved, Heard;
      if was != p {
        MoveSubmission(key, was, p, time, mode);
      } else {
        RenewSubmission(key, p, time, mode);
      }
    }

    method DeleteSubmission(key: Key, p: Pair)
      requires Valid() && p in view
      modifies this`scores, this`flat, this`notes, this`view, this`reprs, this`Repr, Repr
      ensures Valid() && fresh(Repr - old(Repr)) && WellFormed(old(view)[p])
      ensures After(p, old(view), old(notes), ScoreSpec.DeleteSubmission(old(view)[p], key))
    {
      hide Fold, Valid, ScoreSpec.DeleteSubmission, Shelve, Notified;
      Outside();
      var oldScore := GetScore(p.user, p.task);
      Perform(p, DropSubmission(key));
      var newScore := GetScore(p.user, p.task);
      Notify(p, oldScore, newScore);
      ShelveAgain(old(view), p, view[p]);
      Tidy(p);
    }

    /** A Score that has lost its last submission goes, and an empty inner map with it. */
    method Tidy(p: Pair)
      requires Valid() && p in view
      modifies this`scores, this`flat, this`view, this`reprs
      ensures Valid() && view == Shelve(old(view), p, old(view)[p])
    {
      hide Fold, Score.Holds, Nested, Footprints, AllHold;
      NestedAt(scores, flat, p);
      AllHoldAt(flat, view, reprs, Repr, p);
      flat[p].HoldsWell(view[p]);
      if scores[p.user][p.task].submissions == map[] {
        RemoveScore(p);
      } else {
        assert view[p := view[p]] == view;
      }
    }

    lemma HistoryAt(p: Pair)
      requires Valid()
      ensures p in view <==> p.user in scores && p.task in scores[p.user]
      ensures p in view ==> scores[p.user][p.task].history == view[p].history
    {
      hide Fold, Nested, Footprints, AllHold, Score.Holds;
      NestedAt(scores, flat, p);
      AllHoldAt(flat, view, reprs, Repr, p);
      if p in view {
        flat[p].HoldsHistory(view[p]);
      }
    }

    /** The histories of all the Scores. */
    method Histories() returns (histories: GlobalHistory.Histories)
      requires Valid()
      ensures histories.Keys == view.Keys
      ensures forall p :: p in view ==> histories[p] == view[p].history
    {
      hide Fold, Valid;
      histories := map u, t | u in scores && t in scores[u] :: Pair(u, t) := scores[u][t].history;
      forall p: Pair
        ensures p in histories <==> p in view
        ensures p in view ==> histories[p] == view[p].history
      {
        HistoryAt(p);
      }
    }

    /** get_global_history: the lines of each user and task are its whole history, in order,
        and the whole is in time order exactly if every history is. */
    method GetGlobalHistory() returns (lines: seq<GlobalHistory.Line>)
      requires Valid()
      ensures forall p :: GlobalHistory.Project(lines, p) == if p in view then view[p].history else []
      ensures GlobalHistory.LinesInTimeOrder(lines) <==>
                forall p :: p in view ==> ScoreTheorems.InTimeOrder(view[p].history)
    {
      hide Valid, GlobalHistory.LinesInTimeOrder, GlobalHistory.Project, ScoreTheorems.InTimeOrder;
      var histories := Histories();
      lines := GlobalHistory.Merge(histories);
      forall p
        ensures GlobalHistory.Project(lines, p) == if p in view then view[p].history else []
      {
        assert GlobalHistory.Project(lines, p) == GlobalHistory.HistoryOf(histories, p);
      }
    }
  }
}
