/** Merging the histories of all the Scores with a priority queue. */
module GlobalHistory {
  import opened Basics
  import opened ScoreSpec
  import opened ScoreTheorems

  /** A line of the global history. */
  datatype Line = Line(pair: Pair, entry: Entry)

  /** What the queue holds: the next entry of a history, and its position there. */
  datatype Item = Item(entry: Entry, pair: Pair, index: nat)

  /** The order of the tuples in the queue. It never has to compare the Scores. */
  predicate Less(a: Item, b: Item) {
    || a.entry.time < b.entry.time
    || (a.entry.time == b.entry.time &&
        (a.entry.score < b.entry.score
         || (a.entry.score == b.entry.score &&
             (Precedes(a.pair.user, b.pair.user)
              || (a.pair.user == b.pair.user && Precedes(a.pair.task, b.pair.task))))))
  }

  lemma LessIsTotal(a: Item, b: Item)
    requires a.pair != b.pair
    ensures Less(a, b) || Less(b, a)
  {
    PrecedesIsTotal(a.pair.user, b.pair.user);
    PrecedesIsTotal(a.pair.task, b.pair.task);
  }

  lemma LessIsTransitive(a: Item, b: Item, c: Item)
    requires Less(a, b) && Less(b, c)
    ensures Less(a, c)
  {
    if Precedes(a.pair.user, b.pair.user) && Precedes(b.pair.user, c.pair.user) {
      PrecedesIsTransitive(a.pair.user, b.pair.user, c.pair.user);
    }
    if Precedes(a.pair.task, b.pair.task) && Precedes(b.pair.task, c.pair.task) {
      PrecedesIsTransitive(a.pair.task, b.pair.task, c.pair.task);
    }
  }

  /** No two items of the queue belong to the same user and task. */
  ghost predicate OnePerPair(queue: set<Item>) {
    forall a, b :: a in queue && b in queue && a.pair == b.pair ==> a == b
  }

  /** heappop: the least item. */
  method PopLeast(queue: set<Item>) returns (least: Item)
    requires queue != {} && OnePerPair(queue)
    ensures least in queue && forall x :: x in queue && x != least ==> Less(least, x)
  {
    least :| least in queue;
    var rest := queue - {least};
    while rest != {}
      invariant rest <= queue && least in queue - rest
      invariant forall x :: x in queue - rest && x != least ==> Less(least, x)
    {
      var x :| x in rest;
      LessIsTotal(least, x);
      if Less(x, least) {
        forall y | y in queue - rest && y != least {
          LessIsTransitive(x, least, y);
        }
        least := x;
      }
      rest := rest - {x};
    }
  }

  /** The lines of one user and task, in order. */
  function Project(lines: seq<Line>, p: Pair): seq<Entry> {
    if lines == [] then []
    else Project(lines[..|lines| - 1], p)
         + if lines[|lines| - 1].pair == p then [lines[|lines| - 1].entry] else []
  }

  function HistoryOf(histories: map<Pair, seq<Entry>>, p: Pair): seq<Entry> {
    if p in histories then histories[p] else []
  }

  ghost predicate LinesInTimeOrder(lines: seq<Line>) {
    forall i, j :: 0 <= i < j < |lines| ==> lines[i].entry.time <= lines[j].entry.time
  }

  /** The part of a merged history that belongs to one pair comes in the same order. */
  lemma {:induction false} ProjectInTimeOrder(lines: seq<Line>, p: Pair)
    requires LinesInTimeOrder(lines)
    ensures InTimeOrder(Project(lines, p))
    ensures forall e :: e in Project(lines, p) ==> exists i :: 0 <= i < |lines| && lines[i].entry == e
  {
    if lines != [] {
      var prior, l := lines[..|lines| - 1], lines[|lines| - 1];
      ProjectInTimeOrder(prior, p);
      forall e | e in Project(prior, p)
        ensures e.time <= l.entry.time && exists i :: 0 <= i < |lines| && lines[i].entry == e
      {
        var i :| 0 <= i < |prior| && prior[i].entry == e;
        assert lines[i].entry == e;
      }
    }
  }

  lemma ProjectAppend(lines: seq<Line>, l: Line, p: Pair)
    ensures Project(lines + [l], p) == Project(lines, p) + if l.pair == p then [l.entry] else []
  {
    assert (lines + [l])[..|lines|] == lines;
  }

  type Histories = map<Pair, seq<Entry>>

  /** Where each history stands. */
  ghost predicate Positions(histories: Histories, at: map<Pair, nat>) {
    at.Keys == histories.Keys && forall p :: p in histories ==> at[p] <= |histories[p]|
  }

  /** q is the next entry of its history. */
  ghost predicate IsNext(histories: Histories, at: map<Pair, nat>, q: Item)
    requires Positions(histories, at)
  {
    && q.pair in histories && q.index == at[q.pair] && q.index < |histories[q.pair]|
    && q.entry == histories[q.pair][q.index]
  }

  /** The lines are the entries before the positions and the queue holds those at them. */
  ghost predicate Merging(histories: Histories, at: map<Pair, nat>, queue: set<Item>, lines: seq<Line>) {
    && Positions(histories, at)
    && (forall p :: Project(lines, p) == if p in histories then histories[p][..at[p]] else [])
    && (forall q :: q in queue <==> IsNext(histories, at, q))
  }

  function Following(h: seq<Entry>, q: Item): set<Item> {
    if q.index + 1 < |h| then {Item(h[q.index + 1], q.pair, q.index + 1)} else {}
  }

  lemma MergingStarts(histories: Histories, queue: set<Item>)
    requires queue == set p | p in histories && histories[p] != [] :: Item(histories[p][0], p, 0)
    ensures Merging(histories, map p | p in histories :: 0, queue, [])
  {
    var at: map<Pair, nat> := map p | p in histories :: 0;
    forall q
      ensures q in queue <==> IsNext(histories, at, q)
    {
      if IsNext(histories, at, q) {
        assert q == Item(histories[q.pair][0], q.pair, 0);
      }
    }
  }

  lemma NextStep(histories: Histories, at: map<Pair, nat>, queue: set<Item>, q: Item)
    requires Positions(histories, at) && q in queue && forall x :: x in queue <==> IsNext(histories, at, x)
    ensures var more := at[q.pair := q.index + 1];
            Positions(histories, more)
            && forall x :: x in queue - {q} + Following(histories[q.pair], q) <==> IsNext(histories, more, x)
  {
    var more := at[q.pair := q.index + 1];
    forall x
      ensures x in queue - {q} + Following(histories[q.pair], q) <==> IsNext(histories, more, x)
    {
      assert x in queue <==> IsNext(histories, at, x);
      if x.pair == q.pair {
        assert x in queue ==> x == q;
      }
    }
  }

  lemma MergingStep(histories: Histories, at: map<Pair, nat>, queue: set<Item>, lines: seq<Line>, q: Item)
    requires Merging(histories, at, queue, lines) && q in queue
    ensures Merging(histories, at[q.pair := q.index + 1], queue - {q} + Following(histories[q.pair], q),
                    lines + [Line(q.pair, q.entry)])
  {
    hide Project, Following;
    NextStep(histories, at, queue, q);
    var l, more := Line(q.pair, q.entry), at[q.pair := q.index + 1];
    forall p
      ensures Project(lines + [l], p) == if p in histories then histories[p][..more[p]] else []
    {
      ProjectAppend(lines, l, p);
    }
  }

  /** The entries still to come. */
  ghost function Left(histories: Histories, at: map<Pair, nat>): set<(Pair, nat)>
    requires Positions(histories, at)
  {
    set p, i: nat | p in histories && at[p] <= i < |histories[p]| :: (p, i)
  }

  lemma LeftShrinks(histories: Histories, at: map<Pair, nat>, q: Item)
    requires Positions(histories, at) && IsNext(histories, at, q)
    ensures Positions(histories, at[q.pair := q.index + 1])
    ensures Left(histories, at[q.pair := q.index + 1]) < Left(histories, at)
  {
    var more := at[q.pair := q.index + 1];
    assert (q.pair, q.index) in Left(histories, at) && (q.pair, q.index) !in Left(histories, more);
    forall x | x in Left(histories, more)
      ensures x in Left(histories, at)
    {
    }
  }

  lemma MergingEnds(histories: Histories, at: map<Pair, nat>, lines: seq<Line>)
    requires Merging(histories, at, {}, lines)
    ensures forall p :: Project(lines, p) == HistoryOf(histories, p)
  {
    forall p
      ensures Project(lines, p) == HistoryOf(histories, p)
    {
      if p in histories && at[p] < |histories[p]| {
        assert IsNext(histories, at, Item(histories[p][at[p]], p, at[p]));
        assert false;
      }
    }
  }

  lemma QueueOnePerPair(histories: Histories, at: map<Pair, nat>, queue: set<Item>, lines: seq<Line>)
    requires Merging(histories, at, queue, lines)
    ensures OnePerPair(queue)
  {
  }

  ghost predicate AllInTimeOrder(histories: Histories) {
    forall p :: p in histories ==> InTimeOrder(histories[p])
  }

  /** Every line so far is no later than everything to come. */
  ghost predicate Ahead(lines: seq<Line>, queue: set<Item>) {
    && LinesInTimeOrder(lines)
    && forall q :: q in queue ==> lines == [] || lines[|lines| - 1].entry.time <= q.entry.time
  }

  lemma AheadStep(histories: Histories, at: map<Pair, nat>, queue: set<Item>, lines: seq<Line>, q: Item)
    requires Merging(histories, at, queue, lines) && Ahead(lines, queue) && q in queue
    requires forall x :: x in queue && x != q ==> Less(q, x)
    requires AllInTimeOrder(histories)
    ensures Ahead(lines + [Line(q.pair, q.entry)], queue - {q} + Following(histories[q.pair], q))
  {
    hide Project;
    var h := histories[q.pair];
    assert IsNext(histories, at, q);
    assert q.index + 1 < |h| ==> h[q.index].time <= h[q.index + 1].time;
  }

  lemma OrderComesFromHistories(histories: Histories, lines: seq<Line>)
    requires forall p :: Project(lines, p) == HistoryOf(histories, p)
    requires LinesInTimeOrder(lines)
    ensures AllInTimeOrder(histories)
  {
    forall p | p in histories
      ensures InTimeOrder(histories[p])
    {
      ProjectInTimeOrder(lines, p);
      assert Project(lines, p) == HistoryOf(histories, p);
    }
  }

  /** get_global_history: every history is output completely and in its own order, and
      the whole is in time order exactly if every history is. */
  method Merge(histories: Histories) returns (lines: seq<Line>)
    ensures forall p :: Project(lines, p) == HistoryOf(histories, p)
    ensures LinesInTimeOrder(lines) <==> AllInTimeOrder(histories)
  {
    hide Merging, Project, Following, Less, OnePerPair, AllInTimeOrder, Positions, Left, IsNext;
    var queue := set p | p in histories && histories[p] != [] :: Item(histories[p][0], p, 0);
    lines := [];
    ghost var at: map<Pair, nat> := map p | p in histories :: 0;
    MergingStarts(histories, queue);
    MergingFacts(histories, at, queue, lines);
    while queue != {}
      invariant Merging(histories, at, queue, lines) && Positions(histories, at)
      invariant AllInTimeOrder(histories) ==> Ahead(lines, queue)
      decreases Left(histories, at)
    {
      QueueOnePerPair(histories, at, queue, lines);
      var q := PopLeast(queue);
      MergingFacts(histories, at, queue, lines);
      MergingStep(histories, at, queue, lines, q);
      if AllInTimeOrder(histories) {
        AheadStep(histories, at, queue, lines, q);
      }
      LeftShrinks(histories, at, q);
      lines := lines + [Line(q.pair, q.entry)];
      queue := queue - {q} + Following(histories[q.pair], q);
      at := at[q.pair := q.index + 1];
    }
    MergingEnds(histories, at, lines);
    if LinesInTimeOrder(lines) {
      OrderComesFromHistories(histories, lines);
    }
  }

  lemma MergingFacts(histories: Histories, at: map<Pair, nat>, queue: set<Item>, lines: seq<Line>)
    requires Merging(histories, at, queue, lines)
    ensures Positions(histories, at)
    ensures forall q :: q in queue ==> IsNext(histories, at, q) && q.pair in histories
  {
  }
}
