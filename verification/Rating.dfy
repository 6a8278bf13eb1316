/** Ratings of the players of a task where submissions play against each other, and the
    scores given for the ranks. Ratings are real numbers; the formula for the
    expected score is a function with the two properties that matter. */
module Rating {
  import opened Basics

  type Player = int

  type Ratings = map<Player, real>

  const START: real := 1200.0
  const K: real := 32.0

  /** A game of one testcase; the result is that of the first player. */
  datatype Game = Game(a: Player, b: Player, result: real)

  /** The expected score as a function of how much higher the rating of the opponent is: it
      lies between 0 and 1, and the two players' scores add up to 1. */
  ghost predicate IsCurve(curve: real -> real) {
    && (forall x: real :: 0.0 < curve(x) < 1.0)
    && (forall x: real, y: real :: x + y == 0.0 ==> curve(x) + curve(y) == 1.0)
  }

  function Expected(curve: real -> real, a: real, b: real): real {
    curve(b - a)
  }

  function Updated(rating: real, expected: real, actual: real): real {
    rating + K * (actual - expected)
  }

  lemma ExpectationsAddUp(curve: real -> real, a: real, b: real)
    requires IsCurve(curve)
    ensures 0.0 < Expected(curve, a, b) < 1.0 && 0.0 < Expected(curve, b, a) < 1.0
    ensures Expected(curve, a, b) + Expected(curve, b, a) == 1.0
  {
    assert (b - a) + (a - b) == 0.0;
  }

  /** The ratings after a game. */
  ghost function Played(curve: real -> real, ratings: Ratings, g: Game): Ratings
    requires IsCurve(curve) && g.a in ratings && g.b in ratings
  {
    ExpectationsAddUp(curve, ratings[g.a], ratings[g.b]);
    var first := ratings[g.a := Updated(ratings[g.a], Expected(curve, ratings[g.a], ratings[g.b]), g.result)];
    first[g.b := Updated(first[g.b], Expected(curve, ratings[g.b], ratings[g.a]), 1.0 - g.result)]
  }

  ghost predicate Known(ratings: Ratings, games: seq<Game>) {
    forall i :: 0 <= i < |games| ==> games[i].a in ratings && games[i].b in ratings
  }

  ghost predicate Fair(games: seq<Game>) {
    forall i :: 0 <= i < |games| ==> 0.0 <= games[i].result <= 1.0
  }

  /** The ratings after all the games. */
  ghost function PlayedAll(curve: real -> real, ratings: Ratings, games: seq<Game>): (r: Ratings)
    requires IsCurve(curve) && Known(ratings, games)
    ensures r.Keys == ratings.Keys
  {
    if games == [] then ratings
    else
      var prior := PlayedAll(curve, ratings, games[..|games| - 1]);
      assert games[|games| - 1].a in ratings;
      Played(curve, prior, games[|games| - 1])
  }

  // ----------------------------------------------------------- conservation

  ghost function Total(players: seq<Player>, ratings: Ratings): real
    requires forall i :: 0 <= i < |players| ==> players[i] in ratings
  {
    if players == [] then 0.0 else Total(players[..|players| - 1], ratings) + ratings[players[|players| - 1]]
  }

  function SetOf(s: seq<int>): set<int> {
    set x | x in s
  }

  lemma {:induction false} TotalWithout(players: seq<Player>, ratings: Ratings, p: Player, x: real)
    requires forall i :: 0 <= i < |players| ==> players[i] in ratings && players[i] != p
    ensures Total(players, ratings[p := x]) == Total(players, ratings)
  {
    if players != [] {
      TotalWithout(players[..|players| - 1], ratings, p, x);
    }
  }

  lemma {:induction false} TotalChanged(players: seq<Player>, ratings: Ratings, p: Player, x: real)
    requires Distinct(players) && p in players && forall i :: 0 <= i < |players| ==> players[i] in ratings
    ensures Total(players, ratings[p := x]) == Total(players, ratings) - ratings[p] + x
  {
    var prior, last := players[..|players| - 1], players[|players| - 1];
    if last == p {
      TotalWithout(prior, ratings, p, x);
    } else {
      TotalChanged(prior, ratings, p, x);
    }
  }

  /** A game moves rating from one player to the other and makes none. */
  lemma GameConserves(curve: real -> real, players: seq<Player>, ratings: Ratings, g: Game)
    requires IsCurve(curve) && Distinct(players) && ratings.Keys == SetOf(players)
    requires g.a in ratings && g.b in ratings
    ensures Played(curve, ratings, g).Keys == ratings.Keys
    ensures Total(players, Played(curve, ratings, g)) == Total(players, ratings)
  {
    var x, y := ratings[g.a], ratings[g.b];
    ExpectationsAddUp(curve, x, y);
    var first := ratings[g.a := Updated(x, Expected(curve, x, y), g.result)];
    TotalChanged(players, ratings, g.a, first[g.a]);
    TotalChanged(players, first, g.b, Updated(first[g.b], Expected(curve, y, x), 1.0 - g.result));
    assert first.Keys == ratings.Keys;
    assert K * (g.result - Expected(curve, x, y)) + K * (1.0 - g.result - Expected(curve, y, x)) == 0.0;
  }

  /** A win raises the rating of the winner and lowers that of the loser. */
  lemma WinnerGains(curve: real -> real, ratings: Ratings, g: Game)
    requires IsCurve(curve) && g.a in ratings && g.b in ratings && g.a != g.b
    ensures g.result == 1.0 ==>
              Played(curve, ratings, g)[g.a] > ratings[g.a] && Played(curve, ratings, g)[g.b] < ratings[g.b]
    ensures g.result == 0.0 ==>
              Played(curve, ratings, g)[g.a] < ratings[g.a] && Played(curve, ratings, g)[g.b] > ratings[g.b]
    ensures forall p :: p in ratings && p != g.a && p != g.b ==> Played(curve, ratings, g)[p] == ratings[p]
  {
    ExpectationsAddUp(curve, ratings[g.a], ratings[g.b]);
  }

  lemma {:induction false} GamesConserve(curve: real -> real, players: seq<Player>, ratings: Ratings, games: seq<Game>)
    requires IsCurve(curve) && Distinct(players) && ratings.Keys == SetOf(players) && Known(ratings, games)
    ensures Total(players, PlayedAll(curve, ratings, games)) == Total(players, ratings)
  {
    if games != [] {
      var prior := games[..|games| - 1];
      GamesConserve(curve, players, ratings, prior);
      GameConserves(curve, players, PlayedAll(curve, ratings, prior), games[|games| - 1]);
    }
  }

  /** How often a player takes part. */
  function Appearances(games: seq<Game>, p: Player): nat {
    if games == [] then 0
    else
      var g := games[|games| - 1];
      Appearances(games[..|games| - 1], p) + Part(g, p)
  }

  function Abs(x: real): real { if x < 0.0 then -x else x }

  lemma SmallUpdate(rating: real, expected: real, actual: real)
    requires 0.0 <= expected <= 1.0 && 0.0 <= actual <= 1.0
    ensures Abs(Updated(rating, expected, actual) - rating) <= K
  {
  }

  function Part(g: Game, p: Player): nat {
    (if g.a == p then 1 else 0) + if g.b == p then 1 else 0
  }

  lemma GameIsBounded(curve: real -> real, ratings: Ratings, g: Game, p: Player)
    requires IsCurve(curve) && g.a in ratings && g.b in ratings && p in ratings && 0.0 <= g.result <= 1.0
    ensures Abs(Played(curve, ratings, g)[p] - ratings[p]) <= K * Part(g, p) as real
  {
    var x, y := ratings[g.a], ratings[g.b];
    ExpectationsAddUp(curve, x, y);
    var first := ratings[g.a := Updated(x, Expected(curve, x, y), g.result)];
    SmallUpdate(x, Expected(curve, x, y), g.result);
    SmallUpdate(first[g.b], Expected(curve, y, x), 1.0 - g.result);
    assert Played(curve, ratings, g) == first[g.b := Updated(first[g.b], Expected(curve, y, x), 1.0 - g.result)];
  }

  lemma NothingPlayed(curve: real -> real, ratings: Ratings, p: Player)
    requires IsCurve(curve) && p in ratings
    ensures Abs(PlayedAll(curve, ratings, [])[p] - ratings[p]) <= K * Appearances([], p) as real
  {
  }

  lemma PlayedMore(curve: real -> real, ratings: Ratings, games: seq<Game>, p: Player)
    requires IsCurve(curve) && Known(ratings, games) && games != []
    ensures var prior := games[..|games| - 1]; var g := games[|games| - 1];
      && Known(ratings, prior) && g.a in ratings && g.b in ratings
      && PlayedAll(curve, ratings, games) == Played(curve, PlayedAll(curve, ratings, prior), g)
      && Appearances(games, p) == Appearances(prior, p) + Part(g, p)
  {
  }

  lemma Further(x: real, y: real, z: real, m: nat, n: nat)
    requires Abs(x - y) <= K * m as real && Abs(y - z) <= K * n as real
    ensures Abs(x - z) <= K * (n + m) as real
  {
  }

  /** A rating moves by at most 32 for every game played. */
  lemma {:induction false} RatingsAreBounded(curve: real -> real, ratings: Ratings, games: seq<Game>, p: Player)
    requires IsCurve(curve) && Known(ratings, games) && Fair(games) && p in ratings
    ensures Abs(PlayedAll(curve, ratings, games)[p] - ratings[p]) <= K * Appearances(games, p) as real
  {
    hide Played, PlayedAll, IsCurve, Abs, Part, Appearances;
    if games == [] {
      NothingPlayed(curve, ratings, p);
    } else {
      var prior := games[..|games| - 1];
      var g := games[|games| - 1];
      PlayedMore(curve, ratings, games, p);
      RatingsAreBounded(curve, ratings, prior, p);
      GameIsBounded(curve, PlayedAll(curve, ratings, prior), g, p);
      Further(PlayedAll(curve, ratings, games)[p], PlayedAll(curve, ratings, prior)[p],
              ratings[p], Part(g, p), Appearances(prior, p));
    }
  }

  // ------------------------------------------------------------- the program

  class Elo {
    var players: Ratings

    constructor (ids: set<Player>)
      ensures players == map p | p in ids :: START
    {
      players := map p | p in ids :: START;
    }

    /** update_scores: both expectations come from the ratings before the game. A player that
        is not known raises before anything changes. */
    method UpdateScores(curve: real -> real, g: Game) returns (ok: bool)
      requires IsCurve(curve)
      modifies this
      ensures ok <==> g.a in old(players) && g.b in old(players)
      ensures players == if ok then Played(curve, old(players), g) else old(players)
    {
      if g.a !in players || g.b !in players {
        return false;
      }
      ExpectationsAddUp(curve, players[g.a], players[g.b]);
      var expectedA := Expected(curve, players[g.a], players[g.b]);
      var expectedB := Expected(curve, players[g.b], players[g.a]);
      players := players[g.a := Updated(players[g.a], expectedA, g.result)];
      players := players[g.b := Updated(players[g.b], expectedB, 1.0 - g.result)];
      ok := true;
    }
  }

  type Testcase = int

  /** A match: whether it has been scored, and the result of every testcase in it. */
  datatype Match = Match(scored: bool, a: Player, b: Player, outcomes: seq<(Testcase, real)>)

  /** The games of a testcase within a match, and within all matches, in their order. */
  ghost function GamesOf(m: Match, tc: Testcase): seq<Game> {
    GamesIn(m, m.outcomes, tc)
  }

  ghost function GamesIn(m: Match, outcomes: seq<(Testcase, real)>, tc: Testcase): seq<Game> {
    if outcomes == [] then []
    else
      var last := outcomes[|outcomes| - 1];
      GamesIn(m, outcomes[..|outcomes| - 1], tc) + if last.0 == tc then [Game(m.a, m.b, last.1)] else []
  }

  ghost function Games(matches: seq<Match>, tc: Testcase): seq<Game> {
    if matches == [] then [] else Games(matches[..|matches| - 1], tc) + GamesOf(matches[|matches| - 1], tc)
  }

  /** Players with a submission start at 1200, the others at 0. */
  ghost function Starting(players: set<Player>, rated: set<Player>): Ratings {
    map p | p in players :: if p in rated then START else 0.0
  }

  /** How a run can end: at a match that has not been scored, or with an exception at one that
      names a player or a testcase that the task does not have. */
  datatype Ending = Done | NotScored | KeyError

  /** Every game of the match is between players of the task, on one of its testcases. */
  ghost predicate Playable(players: set<Player>, testcases: set<Testcase>, m: Match) {
    forall j :: 0 <= j < |m.outcomes| ==> KnownOutcome(players, testcases, m, j)
  }

  ghost predicate KnownOutcome(players: set<Player>, testcases: set<Testcase>, m: Match, j: nat)
    requires j < |m.outcomes|
  {
    m.outcomes[j].0 in testcases && m.a in players && m.b in players
  }

  ghost predicate Fits(players: set<Player>, testcases: set<Testcase>, m: Match) {
    m.scored && Playable(players, testcases, m)
  }

  ghost predicate AllFit(players: set<Player>, testcases: set<Testcase>, matches: seq<Match>) {
    forall i :: 0 <= i < |matches| ==> Fits(players, testcases, matches[i])
  }

  /** The first match that does not fit decides how the run ends. */
  ghost predicate EndsWith(players: set<Player>, testcases: set<Testcase>, matches: seq<Match>, r: Ending) {
    match r
    case Done => AllFit(players, testcases, matches)
    case NotScored =>
      exists i :: 0 <= i < |matches| && AllFit(players, testcases, matches[..i]) && !matches[i].scored
    case KeyError =>
      exists i :: 0 <= i < |matches| && AllFit(players, testcases, matches[..i])
                  && matches[i].scored && !Playable(players, testcases, matches[i])
  }

  /** There is just one way for a run to end. */
  lemma EndingIsUnique(players: set<Player>, testcases: set<Testcase>, matches: seq<Match>, q: Ending, r: Ending)
    requires EndsWith(players, testcases, matches, q) && EndsWith(players, testcases, matches, r)
    ensures q == r
  {
    hide Fits, Playable;
    if !q.Done? && !r.Done? {
      var i := FirstMisfit(players, testcases, matches, q);
      var j := FirstMisfit(players, testcases, matches, r);
      MisfitEnds(players, testcases, matches, i, j);
      MisfitEnds(players, testcases, matches, j, i);
    } else if !q.Done? {
      var i := FirstMisfit(players, testcases, matches, q);
    } else if !r.Done? {
      var j := FirstMisfit(players, testcases, matches, r);
    }
  }

  lemma Fitting(players: set<Player>, testcases: set<Testcase>, matches: seq<Match>, i: nat)
    requires AllFit(players, testcases, matches) && i < |matches|
    ensures Fits(players, testcases, matches[i])
  {
  }

  lemma MisfitEnds(players: set<Player>, testcases: set<Testcase>, matches: seq<Match>, i: nat, j: nat)
    requires i < |matches| && j <= |matches| && !Fits(players, testcases, matches[i])
             && AllFit(players, testcases, matches[..j])
    ensures j <= i
  {
    if i < j {
      Fitting(players, testcases, matches[..j], i);
    }
  }

  lemma FirstMisfit(players: set<Player>, testcases: set<Testcase>, matches: seq<Match>, r: Ending) returns (i: nat)
    requires EndsWith(players, testcases, matches, r) && !r.Done?
    ensures i < |matches| && !Fits(players, testcases, matches[i]) && AllFit(players, testcases, matches[..i])
    ensures r.NotScored? <==> !matches[i].scored
  {
    if r.NotScored? {
      i :| 0 <= i < |matches| && AllFit(players, testcases, matches[..i]) && !matches[i].scored;
    } else {
      i :| 0 <= i < |matches| && AllFit(players, testcases, matches[..i])
           && matches[i].scored && !Playable(players, testcases, matches[i]);
    }
  }

  // ------------------------------------------------------------- the ranking

  ghost predicate Ranked(table: seq<Player>, ratings: Ratings) {
    (forall i :: 0 <= i < |table| ==> table[i] in ratings)
    && forall i, j :: 0 <= i < j < |table| ==> ratings[table[i]] >= ratings[table[j]]
  }

  /** A stable sort by decreasing rating. */
  function Rank(players: seq<Player>, ratings: Ratings): (table: seq<Player>)
    requires forall i :: 0 <= i < |players| ==> players[i] in ratings
    ensures multiset(table) == multiset(players) && Ranked(table, ratings)
  {
    if players == [] then []
    else
      assert players == players[..|players| - 1] + [players[|players| - 1]];
      Place(Rank(players[..|players| - 1], ratings), players[|players| - 1], ratings)
  }

  function Place(table: seq<Player>, p: Player, ratings: Ratings): (more: seq<Player>)
    requires Ranked(table, ratings) && p in ratings
    ensures Ranked(more, ratings) && multiset(more) == multiset(table) + multiset{p}
  {
    if table == [] || ratings[table[|table| - 1]] >= ratings[p] then table + [p]
    else
      var prior := table[..|table| - 1];
      assert table == prior + [table[|table| - 1]];
      var placed := Place(prior, p, ratings);
      PlacedBelow(placed, prior, p, table[|table| - 1], ratings);
      placed + [table[|table| - 1]]
  }

  lemma PlacedBelow(placed: seq<Player>, prior: seq<Player>, p: Player, last: Player, ratings: Ratings)
    requires Ranked(placed, ratings) && multiset(placed) == multiset(prior) + multiset{p} && p in ratings
             && last in ratings
    requires ratings[last] < ratings[p] && Ranked(prior + [last], ratings)
    ensures Ranked(placed + [last], ratings)
  {
    forall i | 0 <= i < |placed|
      ensures ratings[placed[i]] >= ratings[last]
    {
      assert placed[i] in multiset(placed);
      if placed[i] != p {
        assert placed[i] in prior;
        var j :| 0 <= j < |prior| && prior[j] == placed[i];
        assert (prior + [last])[j] == placed[i] && (prior + [last])[|prior|] == last;
      }
    }
  }

  function ScoreOfRank(rank: nat): real
    requires rank > 0
  {
    1.0 / rank as real
  }

  lemma ScoresDecrease(i: nat, j: nat)
    requires 0 < i < j
    ensures ScoreOfRank(j) < ScoreOfRank(i)
  {
    var x, y := ScoreOfRank(i), ScoreOfRank(j);
    assert x * i as real == 1.0 && y * j as real == 1.0;
    if y >= x {
      Grows(x, y, i as real, j as real);
    }
  }

  lemma Grows(x: real, y: real, a: real, b: real)
    requires 0.0 < a < b
    ensures y >= x && x > 0.0 ==> y * b > x * a
  {
    if y >= x && x > 0.0 {
      assert (y - x) * b >= 0.0 && x * (b - a) > 0.0;
      assert y * b - x * a == (y - x) * b + x * (b - a);
    }
  }

  /** The scores of a testcase: the players are ranked 1 to n by rating, and whoever has a
      submission gets one over the rank. */
  ghost predicate IsScored(players: seq<Player>, rated: set<Player>, ratings: Ratings, tc: Testcase,
        scores: map<(Testcase, Player), real>) {
    exists table: seq<Player> :: IsTable(table, players, rated, ratings, tc, scores)
  }

  ghost predicate IsTable(table: seq<Player>, players: seq<Player>, rated: set<Player>, ratings: Ratings,
        tc: Testcase, scores: map<(Testcase, Player), real>) {
    && multiset(table) == multiset(players) && Ranked(table, ratings)
    && forall i :: 0 <= i < |table| && table[i] in rated ==>
         (tc, table[i]) in scores && scores[(tc, table[i])] == ScoreOfRank(i + 1)
  }

  /** A strictly higher rating gives a strictly higher score. */
  lemma HigherRatingHigherScore(players: seq<Player>, rated: set<Player>, ratings: Ratings, tc: Testcase,
                                scores: map<(Testcase, Player), real>, p: Player, q: Player)
    requires IsScored(players, rated, ratings, tc, scores)
    requires p in players && q in players && p in rated && q in rated && p in ratings && q in ratings
    requires ratings[p] > ratings[q]
    ensures (tc, p) in scores && (tc, q) in scores && scores[(tc, p)] > scores[(tc, q)]
  {
    var table: seq<Player> :| IsTable(table, players, rated, ratings, tc, scores);
    assert p in multiset(players) && q in multiset(players);
    var i :| 0 <= i < |table| && table[i] == p;
    var j :| 0 <= j < |table| && table[j] == q;
    ScoresDecrease(i + 1, j + 1);
  }

  // ----------------------------------------------------------- the whole run

  /** One system of ratings for each testcase, all different. */
  ghost predicate Separate(systems: map<Testcase, Elo>) {
    forall s, t :: s in systems && t in systems && s != t ==> systems[s] != systems[t]
  }

  method CreateSystems(testcases: seq<Testcase>, players: set<Player>,
        rated: set<Player>) returns (systems: map<Testcase, Elo>)
    requires rated <= players
    ensures systems.Keys == (set t | t in testcases) && Separate(systems)
    ensures fresh(systems.Values) && forall t :: t in systems ==> systems[t].players == Starting(players, rated)
  {
    systems := map[];
    for i := 0 to |testcases|
      invariant systems.Keys == (set t | t in testcases[..i]) && Separate(systems)
      invariant fresh(systems.Values) && forall t :: t in systems ==> systems[t].players == Starting(players, rated)
    {
      var elo := new Elo(players);
      assert forall t :: t in systems ==> systems[t] in systems.Values;
      elo.players := elo.players + map p | p in players && p !in rated :: 0.0;
      assert elo.players == Starting(players, rated);
      systems := systems[testcases[i] := elo];
      assert testcases[..i + 1] == testcases[..i] + [testcases[i]];
    }
    assert testcases[..|testcases|] == testcases;
  }

  ghost predicate Stand(curve: real -> real, systems: map<Testcase, Elo>, players: set<Player>, rated: set<Player>,
        matches: seq<Match>, m: Match, n: nat)
    requires IsCurve(curve) && n <= |m.outcomes|
    reads systems.Values
  {
    forall t :: t in systems ==>
      var games := Games(matches, t) + GamesIn(m, m.outcomes[..n], t);
      Known(Starting(players, rated), games) && systems[t].players == PlayedAll(curve, Starting(players, rated), games)
  }

  /** One game of a match. */
  method PlayOutcome(curve: real -> real, systems: map<Testcase, Elo>, m: Match, j: nat, ghost players: set<Player>,
        ghost rated: set<Player>, ghost matches: seq<Match>) returns (ok: bool)
    requires IsCurve(curve) && Separate(systems) && j < |m.outcomes| && m.outcomes[j].0 in systems
    requires Stand(curve, systems, players, rated, matches, m, j)
    modifies systems.Values
    ensures ok <==> m.a in players && m.b in players
    ensures ok ==> Stand(curve, systems, players, rated, matches, m, j + 1)
  {
    hide Known, PlayedAll, Games, GamesIn;
    var (tc, result) := m.outcomes[j];
    ghost var before := map t | t in systems :: systems[t].players;
    StandKeys(curve, systems, players, rated, matches, m, j, tc);
    ok := systems[tc].UpdateScores(curve, Game(m.a, m.b, result));
    if ok {
      forall t | t in systems
        ensures var games := Games(matches, t) + GamesIn(m, m.outcomes[..j + 1], t);
          Known(Starting(players, rated), games)
          && systems[t].players == PlayedAll(curve, Starting(players, rated), games)
      {
        assert t != tc ==> systems[t].players == before[t];
        OneMoreOutcome(curve, Starting(players, rated), matches, m, j, t, before[t]);
      }
    }
  }

  /** One match: every testcase counts in its own system. */
  method PlayMatch(curve: real -> real, systems: map<Testcase, Elo>, m: Match, ghost players: set<Player>,
        ghost rated: set<Player>, ghost matches: seq<Match>) returns (ok: bool)
    requires IsCurve(curve) && Separate(systems) && Stand(curve, systems, players, rated, matches, m, 0)
    modifies systems.Values
    ensures ok <==> Playable(players, systems.Keys, m)
    ensures ok ==> Stand(curve, systems, players, rated, matches, m, |m.outcomes|)
  {
    hide IsCurve, Stand, Separate;
    for j := 0 to |m.outcomes|
      invariant Stand(curve, systems, players, rated, matches, m, j)
      invariant forall i :: 0 <= i < j ==> KnownOutcome(players, systems.Keys, m, i)
    {
      if m.outcomes[j].0 !in systems {
        assert !KnownOutcome(players, systems.Keys, m, j);
        return false;
      }
      var known := PlayOutcome(curve, systems, m, j, players, rated, matches);
      if !known {
        assert !KnownOutcome(players, systems.Keys, m, j);
        return false;
      }
    }
    ok := true;
  }

  lemma StandKeys(curve: real -> real, systems: map<Testcase, Elo>, players: set<Player>, rated: set<Player>,
        matches: seq<Match>, m: Match, n: nat, t: Testcase)
    requires IsCurve(curve) && n <= |m.outcomes| && Stand(curve, systems, players, rated, matches, m, n) && t in systems
    ensures systems[t].players.Keys == players
  {
    SameKeys(curve, players, rated, Games(matches, t) + GamesIn(m, m.outcomes[..n], t));
  }

  lemma OneMoreOutcome(curve: real -> real, start: Ratings, matches: seq<Match>, m: Match, j: nat, t: Testcase,
        before: Ratings)
    requires IsCurve(curve) && j < |m.outcomes| && m.a in start && m.b in start
    requires Known(start, Games(matches, t) + GamesIn(m, m.outcomes[..j], t))
    requires before == PlayedAll(curve, start, Games(matches, t) + GamesIn(m, m.outcomes[..j], t))
    ensures Known(start, Games(matches, t) + GamesIn(m, m.outcomes[..j + 1], t))
    ensures PlayedAll(curve, start, Games(matches, t) + GamesIn(m, m.outcomes[..j + 1], t)) ==
            if m.outcomes[j].0 == t then Played(curve, before, Game(m.a, m.b, m.outcomes[j].1)) else before
  {
    hide Games, GamesIn, Played, PlayedAll, IsCurve, Known;
    var games := Games(matches, t) + GamesIn(m, m.outcomes[..j], t);
    GamesInMore(m, j, t);
    if m.outcomes[j].0 == t {
      var g := Game(m.a, m.b, m.outcomes[j].1);
      assert Games(matches, t) + GamesIn(m, m.outcomes[..j + 1], t) == games + [g];
      OneMoreGame(curve, start, games, g);
    }
  }

  lemma GamesInMore(m: Match, j: nat, t: Testcase)
    requires j < |m.outcomes|
    ensures GamesIn(m, m.outcomes[..j + 1], t) ==
            if m.outcomes[j].0 == t then GamesIn(m, m.outcomes[..j], t) + [Game(m.a, m.b, m.outcomes[j].1)]
            else GamesIn(m, m.outcomes[..j], t)
  {
    assert m.outcomes[..j + 1][..j] == m.outcomes[..j];
  }

  lemma OneMoreGame(curve: real -> real, start: Ratings, games: seq<Game>, g: Game)
    requires IsCurve(curve) && Known(start, games) && g.a in start && g.b in start
    ensures Known(start, games + [g])
    ensures PlayedAll(curve, start, games + [g]) == Played(curve, PlayedAll(curve, start, games), g)
  {
    hide IsCurve, Played;
    assert (games + [g])[..|games|] == games;
  }

  ghost predicate Finished(curve: real -> real, systems: map<Testcase, Elo>, players: set<Player>, rated: set<Player>,
        matches: seq<Match>)
    requires IsCurve(curve)
    reads systems.Values
  {
    forall t :: t in systems ==>
      Known(Starting(players, rated), Games(matches, t))
      && systems[t].players == PlayedAll(curve, Starting(players, rated), Games(matches, t))
  }

  /** The loop over the matches. */
  method PlayMatches(curve: real -> real, systems: map<Testcase, Elo>, matches: seq<Match>,
        ghost players: set<Player>, ghost rated: set<Player>)
    returns (r: Ending)
    requires IsCurve(curve) && Separate(systems)
    requires forall t :: t in systems ==> systems[t].players == Starting(players, rated)
    modifies systems.Values
    ensures EndsWith(players, systems.Keys, matches, r)
    ensures r.Done? ==> Finished(curve, systems, players, rated, matches)
  {
    hide Known, PlayedAll, Starting, Playable;
    StartingFinished(curve, systems, players, rated);
    for i := 0 to |matches|
      invariant Finished(curve, systems, players, rated, matches[..i])
      invariant AllFit(players, systems.Keys, matches[..i])
    {
      var m := matches[i];
      if !m.scored {
        return NotScored;
      }
      BeforeMatch(curve, systems, players, rated, matches[..i], m);
      var ok := PlayMatch(curve, systems, m, players, rated, matches[..i]);
      if !ok {
        return KeyError;
      }
      AfterMatch(curve, systems, players, rated, matches[..i], m);
      assert matches[..i + 1] == matches[..i] + [m];
    }
    assert matches[..|matches|] == matches;
    r := Done;
  }

  lemma StartingFinished(curve: real -> real, systems: map<Testcase, Elo>, players: set<Player>, rated: set<Player>)
    requires IsCurve(curve) && forall t :: t in systems ==> systems[t].players == Starting(players, rated)
    ensures Finished(curve, systems, players, rated, [])
  {
  }

  lemma BeforeMatch(curve: real -> real, systems: map<Testcase, Elo>, players: set<Player>, rated: set<Player>,
        matches: seq<Match>, m: Match)
    requires IsCurve(curve) && Finished(curve, systems, players, rated, matches)
    ensures Stand(curve, systems, players, rated, matches, m, 0)
  {
    forall t | t in systems
      ensures Games(matches, t) + GamesIn(m, m.outcomes[..0], t) == Games(matches, t)
    {
    }
  }

  lemma AfterMatch(curve: real -> real, systems: map<Testcase, Elo>, players: set<Player>, rated: set<Player>,
        matches: seq<Match>, m: Match)
    requires IsCurve(curve) && Stand(curve, systems, players, rated, matches, m, |m.outcomes|)
    ensures Finished(curve, systems, players, rated, matches + [m])
  {
    assert m.outcomes[..|m.outcomes|] == m.outcomes;
    assert (matches + [m])[..|matches|] == matches;
    forall t | t in systems
      ensures Games(matches + [m], t) == Games(matches, t) + GamesIn(m, m.outcomes[..|m.outcomes|], t)
    {
    }
  }

  /** The ranking loop of one testcase. */
  method ScoreTestcase(tc: Testcase, players: seq<Player>, rated: set<Player>, ratings: Ratings,
        scores: map<(Testcase, Player), real>)
    returns (more: map<(Testcase, Player), real>)
    requires Distinct(players) && forall i :: 0 <= i < |players| ==> players[i] in ratings
    ensures IsScored(players, rated, ratings, tc, more)
    ensures forall k: (Testcase, Player) ::
              k.0 != tc ==> (k in more <==> k in scores) && (k in scores ==> more[k] == scores[k])
  {
    var table := Rank(players, ratings);
    StillDistinct(players, table);
    more := scores;
    for i := 0 to |table|
      invariant forall j :: 0 <= j < i && table[j] in rated ==>
                  (tc, table[j]) in more && more[(tc, table[j])] == ScoreOfRank(j + 1)
      invariant forall k: (Testcase, Player) ::
                  k.0 != tc ==> (k in more <==> k in scores) && (k in scores ==> more[k] == scores[k])
    {
      if table[i] in rated {
        more := more[(tc, table[i]) := ScoreOfRank(i + 1)];
      }
    }
    assert IsTable(table, players, rated, ratings, tc, more);
  }

  lemma {:induction false} DistinctCounts(players: seq<Player>)
    ensures Distinct(players) <==> forall p :: multiset(players)[p] <= 1
  {
    if players != [] {
      var prior, last := players[..|players| - 1], players[|players| - 1];
      DistinctCounts(prior);
      assert players == prior + [last];
      assert multiset(prior)[last] >= 1 <==> last in prior;
      if last in prior {
        var i :| 0 <= i < |prior| && prior[i] == last;
        assert players[i] == players[|prior|];
        assert multiset(players)[last] == multiset(prior)[last] + 1;
      } else if Distinct(prior) {
        assert forall i :: 0 <= i < |prior| ==> prior[i] in prior;
      } else {
        var i, j :| 0 <= i < j < |prior| && prior[i] == prior[j];
        assert players[i] == players[j];
        var p :| multiset(prior)[p] > 1;
        assert multiset(players)[p] >= multiset(prior)[p];
      }
    }
  }

  lemma StillDistinct(players: seq<Player>, table: seq<Player>)
    requires Distinct(players) && multiset(table) == multiset(players)
    ensures Distinct(table)
  {
    DistinctCounts(players);
    DistinctCounts(table);
  }

  /** update_final_score: the first match that does not fit ends it; when all fit, every
      testcase has the ratings of its games and the scores of its ranking. */
  method UpdateFinalScore(curve: real -> real, testcases: seq<Testcase>, players: seq<Player>, rated: set<Player>,
        matches: seq<Match>)
    returns (r: Ending, ratings: map<Testcase, Ratings>, scores: map<(Testcase, Player), real>)
    requires IsCurve(curve) && Distinct(players) && rated <= SetOf(players)
    ensures EndsWith(SetOf(players), SetOf(testcases), matches, r)
    ensures r.Done? ==> forall t :: t in testcases ==>
              Known(Starting(SetOf(players), rated), Games(matches, t)) && t in ratings
              && ratings[t] == PlayedAll(curve, Starting(SetOf(players), rated), Games(matches, t))
              && IsScored(players, rated, ratings[t], t, scores)
  {
    hide IsScored, Known, PlayedAll, Starting, EndsWith, Games, Distinct;
    var all := SetOf(players);
    var systems := CreateSystems(testcases, all, rated);
    r := PlayMatches(curve, systems, matches, all, rated);
    ratings, scores := map[], map[];
    if !r.Done? {
      return;
    }
    ratings := map t | t in systems :: systems[t].players;
    forall t | t in testcases
      ensures t in ratings && ratings[t].Keys == all
    {
      SameKeys(curve, all, rated, Games(matches, t));
    }
    scores := ScoreAll(testcases, players, rated, ratings);
  }

  /** The scores of the given testcases. */
  ghost predicate AllScored(testcases: seq<Testcase>, players: seq<Player>, rated: set<Player>,
        ratings: map<Testcase, Ratings>, scores: map<(Testcase, Player), real>) {
    forall t :: t in testcases ==> t in ratings && IsScored(players, rated, ratings[t], t, scores)
  }

  /** The loop over the testcases. */
  method ScoreAll(testcases: seq<Testcase>, players: seq<Player>, rated: set<Player>, ratings: map<Testcase, Ratings>)
    returns (scores: map<(Testcase, Player), real>)
    requires Distinct(players) && forall t :: t in testcases ==> t in ratings && ratings[t].Keys == SetOf(players)
    ensures forall t :: t in testcases ==> IsScored(players, rated, ratings[t], t, scores)
  {
    hide IsScored, AllScored, SetOf, Distinct;
    scores := map[];
    NoneScored(players, rated, ratings);
    for i := 0 to |testcases|
      invariant AllScored(testcases[..i], players, rated, ratings, scores)
    {
      var t := testcases[i];
      InSetOf(players);
      var more := ScoreTestcase(t, players, rated, ratings[t], scores);
      OneMoreScored(testcases[..i], t, players, rated, ratings, scores, more);
      assert testcases[..i + 1] == testcases[..i] + [t];
      scores := more;
    }
    assert testcases[..|testcases|] == testcases;
    EachScored(testcases, players, rated, ratings, scores);
  }

  lemma NoneScored(players: seq<Player>, rated: set<Player>, ratings: map<Testcase, Ratings>)
    ensures AllScored([], players, rated, ratings, map[])
  {
  }

  lemma EachScored(testcases: seq<Testcase>, players: seq<Player>, rated: set<Player>,
        ratings: map<Testcase, Ratings>, scores: map<(Testcase, Player), real>)
    requires AllScored(testcases, players, rated, ratings, scores)
    ensures forall t :: t in testcases ==> t in ratings && IsScored(players, rated, ratings[t], t, scores)
  {
  }

  /** Scoring another testcase leaves the scores of the others. */
  lemma OneMoreScored(testcases: seq<Testcase>, tc: Testcase, players: seq<Player>, rated: set<Player>,
        ratings: map<Testcase, Ratings>, scores: map<(Testcase, Player), real>, more: map<(Testcase, Player), real>)
    requires AllScored(testcases, players, rated, ratings, scores)
    requires tc in ratings && IsScored(players, rated, ratings[tc], tc, more)
    requires forall k: (Testcase, Player) :: k.0 != tc && k in scores ==> k in more && more[k] == scores[k]
    ensures AllScored(testcases + [tc], players, rated, ratings, more)
  {
    hide IsScored;
    forall t | t in testcases + [tc]
      ensures t in ratings && IsScored(players, rated, ratings[t], t, more)
    {
      if t != tc {
        ScoredStays(players, rated, ratings[t], t, scores, more);
      }
    }
  }

  lemma SameKeys(curve: real -> real, players: set<Player>, rated: set<Player>, games: seq<Game>)
    requires IsCurve(curve) && Known(Starting(players, rated), games)
    ensures PlayedAll(curve, Starting(players, rated), games).Keys == players
  {
  }

  lemma ScoredStays(players: seq<Player>, rated: set<Player>, ratings: Ratings, tc: Testcase,
                    scores: map<(Testcase, Player), real>, more: map<(Testcase, Player), real>)
    requires IsScored(players, rated, ratings, tc, scores)
    requires forall k: (Testcase, Player) :: k.0 == tc && k in scores ==> k in more && more[k] == scores[k]
    ensures IsScored(players, rated, ratings, tc, more)
  {
    var table: seq<Player> :| IsTable(table, players, rated, ratings, tc, scores);
    forall i | 0 <= i < |table| && table[i] in rated
      ensures (tc, table[i]) in more && more[(tc, table[i])] == ScoreOfRank(i + 1)
    {
      assert (tc, table[i]) in scores;
    }
    assert IsTable(table, players, rated, ratings, tc, more);
  }

  /** At the start the total is 1200 for every player with a submission. */
  lemma {:induction false} StartingTotal(players: seq<Player>, rated: set<Player>)
    requires Distinct(players) && rated <= SetOf(players)
    ensures Total(players, Starting(SetOf(players), rated)) == START * |rated| as real
    decreases |players|
  {
    hide Starting, Total, SetOf, Distinct;
    var all := Starting(SetOf(players), rated);
    StartingOf(SetOf(players), rated);
    InSetOf(players);
    if players == [] {
      NoTotal(all);
      assert rated == {};
    } else {
      var prior, last := players[..|players| - 1], players[|players| - 1];
      SetOfLast(players);
      InSetOf(prior);
      StartingOf(SetOf(prior), rated - {last});
      StartingTotal(prior, rated - {last});
      SameTotal(prior, Starting(SetOf(prior), rated - {last}), all);
      TotalStep(players, all);
      CountWithout(rated, last);
      OneMorePlayer(|rated - {last}|, if last in rated then 1 else 0);
    }
  }

  lemma OneMorePlayer(n: nat, m: nat)
    requires m <= 1
    ensures START * (n + m) as real == START * n as real + if m == 1 then START else 0.0
  {
  }

  lemma InSetOf(players: seq<Player>)
    ensures forall i :: 0 <= i < |players| ==> players[i] in SetOf(players)
    ensures players == [] ==> SetOf(players) == {}
  {
  }

  lemma SetOfLast(players: seq<Player>)
    requires Distinct(players) && players != []
    ensures var prior, last := players[..|players| - 1], players[|players| - 1];
      && Distinct(prior) && SetOf(players) == SetOf(prior) + {last} && last !in SetOf(prior)
      && forall i :: 0 <= i < |prior| ==> prior[i] != last
  {
    var prior, last := players[..|players| - 1], players[|players| - 1];
    assert players == prior + [last];
  }

  lemma NoTotal(ratings: Ratings)
    ensures Total([], ratings) == 0.0
  {
  }

  lemma TotalStep(players: seq<Player>, ratings: Ratings)
    requires players != [] && forall i :: 0 <= i < |players| ==> players[i] in ratings
    ensures Total(players, ratings) == Total(players[..|players| - 1], ratings) + ratings[players[|players| - 1]]
  {
  }

  lemma StartingOf(players: set<Player>, rated: set<Player>)
    ensures Starting(players, rated).Keys == players
    ensures forall p :: p in players ==> Starting(players, rated)[p] == if p in rated then START else 0.0
  {
  }

  lemma CountWithout(s: set<Player>, p: Player)
    ensures |s| == |s - {p}| + if p in s then 1 else 0
  {
    if p in s {
      assert s == (s - {p}) + {p};
    } else {
      assert s == s - {p};
    }
  }

  lemma {:induction false} SameTotal(players: seq<Player>, a: Ratings, b: Ratings)
    requires forall i :: 0 <= i < |players| ==> players[i] in a && players[i] in b && a[players[i]] == b[players[i]]
    ensures Total(players, a) == Total(players, b)
  {
    if players != [] {
      SameTotal(players[..|players| - 1], a, b);
    }
  }

  /** The ratings of a testcase always add up to 1200 times the number of rated players. */
  lemma TotalIsConstant(curve: real -> real, players: seq<Player>, rated: set<Player>, games: seq<Game>)
    requires IsCurve(curve) && Distinct(players) && rated <= SetOf(players)
    requires Known(Starting(SetOf(players), rated), games)
    ensures Total(players, PlayedAll(curve, Starting(SetOf(players), rated), games)) == START * |rated| as real
  {
    StartingTotal(players, rated);
    GamesConserve(curve, players, Starting(SetOf(players), rated), games);
  }
}
