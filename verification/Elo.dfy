/**
 Elo arithmetic over the reals, the incremental calculator, and what every run of it
 conserves. `10^x` is any positive function with `p(x) * p(-x) == 1`.
 */
module Elo {
  import opened Wrappers

  datatype Params = Params(start: real, k: real, pow10: real -> real)

  ghost predicate ValidParams(p: Params) {
    p.k > 0.0 && forall x :: p.pow10(x) > 0.0 && p.pow10(x) * p.pow10(-x) == 1.0
  }

  datatype Label = WIN | LOSS | DRAW

  datatype PlayerRating = PlayerRating(rating: real, matches: nat, wins: nat, losses: nat, draws: nat, peak: real)

  datatype Match = Match(matchId: int, eventId: int, player1: Option<int>, player2: Option<int>,
                         winner: Option<int>, isDraw: bool)

  datatype HistoryRow = HistoryRow(
    player: int, matchId: int, eventId: int, before: real, after: real, change: real,
    opponent: int, opponentBefore: real, result: Label)

  type Players = map<int, PlayerRating>

  datatype Calc = Calc(players: Players, processed: nat, invalid: nat)

  const EMPTY := Calc(map[], 0, 0)

  function Expected(p: Params, a: real, b: real): real
    requires 1.0 + p.pow10((b - a) / 400.0) != 0.0
  {
    1.0 / (1.0 + p.pow10((b - a) / 400.0))
  }

  lemma ExpectedShares(p: Params, a: real, b: real)
    requires ValidParams(p)
    ensures 1.0 + p.pow10((b - a) / 400.0) > 0.0 && 1.0 + p.pow10((a - b) / 400.0) > 0.0
    ensures 0.0 < Expected(p, a, b) < 1.0
    ensures Expected(p, a, b) + Expected(p, b, a) == 1.0
  {
    var d := (b - a) / 400.0;
    assert (a - b) / 400.0 == -d;
    var x, y := p.pow10(d), p.pow10(-d);
    assert x > 0.0 && y > 0.0 && x * y == 1.0;
    Reciprocals(x, y);
  }

  lemma Reciprocals(x: real, y: real)
    requires x > 0.0 && y > 0.0 && x * y == 1.0
    ensures 0.0 < 1.0 / (1.0 + x) < 1.0
    ensures 1.0 / (1.0 + x) + 1.0 / (1.0 + y) == 1.0
  {
    var u, v := 1.0 / (1.0 + x), 1.0 / (1.0 + y);
    assert u * (1.0 + x) == 1.0 && v * (1.0 + y) == 1.0;
    assert (1.0 + x) * (1.0 + y) == (1.0 + x) + (1.0 + y);
    calc {
      u + v;
      u * (v * (1.0 + y)) + v * (u * (1.0 + x));
      u * v * ((1.0 + y) + (1.0 + x));
      u * v * ((1.0 + x) * (1.0 + y));
      (u * (1.0 + x)) * (v * (1.0 + y));
      1.0;
    }
    assert u > 0.0 && v > 0.0;
  }

  function Updated(p: Params, rating: real, opponent: real, score: real): real
    requires 1.0 + p.pow10((opponent - rating) / 400.0) != 0.0
  {
    rating + p.k * (score - Expected(p, rating, opponent))
  }

  /** One match moves both ratings by the same amount, less than `k`, in opposite directions. */
  lemma UpdatesBalance(p: Params, a: real, b: real, score: real)
    requires ValidParams(p) && 0.0 <= score <= 1.0
    ensures 1.0 + p.pow10((b - a) / 400.0) != 0.0 && 1.0 + p.pow10((a - b) / 400.0) != 0.0
    ensures Updated(p, a, b, score) + Updated(p, b, a, 1.0 - score) == a + b
    ensures -p.k < Updated(p, a, b, score) - a < p.k
    ensures -p.k < Updated(p, b, a, 1.0 - score) - b < p.k
  {
    ExpectedShares(p, a, b);
    var e, f := Expected(p, a, b), Expected(p, b, a);
    Balance(p.k, a, b, score, e, f);
    UpdatedIs(p, a, b, score, e);
    UpdatedIs(p, b, a, 1.0 - score, f);
  }

  lemma UpdatedIs(p: Params, rating: real, opponent: real, score: real, expected: real)
    requires 1.0 + p.pow10((opponent - rating) / 400.0) != 0.0 && expected == Expected(p, rating, opponent)
    ensures Updated(p, rating, opponent, score) == rating + p.k * (score - expected)
  {
  }

  lemma Balance(k: real, a: real, b: real, score: real, e: real, f: real)
    requires k > 0.0 && 0.0 <= score <= 1.0 && 0.0 < e < 1.0 && 0.0 < f < 1.0 && e + f == 1.0
    ensures (a + k * (score - e)) + (b + k * ((1.0 - score) - f)) == a + b
    ensures -k < k * (score - e) < k && -k < k * ((1.0 - score) - f) < k
  {
    var share := score - e;
    assert (1.0 - score) - f == -share;
    Bounded(k, share);
    Negated(k, share);
  }

  lemma Negated(k: real, share: real)
    ensures k * -share == -(k * share)
  {
  }

  lemma Bounded(k: real, share: real)
    requires k > 0.0 && -1.0 < share < 1.0
    ensures -k < k * share < k
  {
    assert k * (1.0 - share) > 0.0 && k * (1.0 + share) > 0.0;
    assert k * (1.0 - share) == k - k * share && k * (1.0 + share) == k + k * share;
  }

  // ---------------------------------------------------------------- the calculator

  predicate Accepts(m: Match) {
    && m.player1.Some? && m.player2.Some? && m.player1 != m.player2
    && (m.winner.Some? ==> m.winner == m.player1 || m.winner == m.player2)
    && (m.winner.None? ==> m.isDraw)
  }

  function Outcome(m: Match): (real, Label, Label) {
    if m.isDraw then (0.5, DRAW, DRAW)
    else if m.winner == m.player1 then (1.0, WIN, LOSS)
    else (0.0, LOSS, WIN)
  }

  function Initial(start: real): PlayerRating { PlayerRating(start, 0, 0, 0, 0, start) }

  function Lookup(start: real, players: Players, id: int): PlayerRating {
    if id in players then players[id] else Initial(start)
  }

  function After(was: PlayerRating, rating: real, verdict: Label): PlayerRating {
    PlayerRating(rating, was.matches + 1,
                 was.wins + (if verdict == WIN then 1 else 0),
                 was.losses + (if verdict == LOSS then 1 else 0),
                 was.draws + (if verdict == DRAW then 1 else 0),
                 (if rating > was.peak then rating else was.peak))
  }

  function Row(m: Match, player: int, opponent: int, before: real, after: real, opponentBefore: real, verdict: Label): HistoryRow {
    HistoryRow(player, m.matchId, m.eventId, before, after, after - before, opponent, opponentBefore, verdict)
  }

  function Process(p: Params, c: Calc, m: Match): (Calc, seq<HistoryRow>)
    requires forall x :: p.pow10(x) > 0.0
  {
    if !Accepts(m) then (c.(invalid := c.invalid + 1), [])
    else
      var id1, id2 := m.player1.value, m.player2.value;
      var (score, label1, label2) := Outcome(m);
      var old1, old2 := Lookup(p.start, c.players, id1), Lookup(p.start, c.players, id2);
      var new1 := Updated(p, old1.rating, old2.rating, score);
      var new2 := Updated(p, old2.rating, old1.rating, 1.0 - score);
      (Calc(c.players[id1 := After(old1, new1, label1)][id2 := After(old2, new2, label2)], c.processed + 1, c.invalid),
       [Row(m, id1, id2, old1.rating, new1, old2.rating, label1), Row(m, id2, id1, old2.rating, new2, old1.rating, label2)])
  }

  /** The calculator and everything it returned after the given matches, in order. */
  function Fold(p: Params, matches: seq<Match>): (Calc, seq<HistoryRow>)
    requires forall x :: p.pow10(x) > 0.0
  {
    if matches == [] then (EMPTY, [])
    else
      var (c, history) := Fold(p, matches[..|matches| - 1]);
      var (c', rows) := Process(p, c, matches[|matches| - 1]);
      (c', history + rows)
  }

  class EloCalculator {
    const params: Params
    var players: Players
    var matchesProcessed: nat
    var invalidMatches: nat

    ghost function St(): Calc reads this { Calc(players, matchesProcessed, invalidMatches) }

    /** The factor must be positive; every real is finite. */
    constructor (params: Params)
      requires params.k > 0.0
      ensures this.params == params && St() == EMPTY
    {
      this.params := params;
      players, matchesProcessed, invalidMatches := map[], 0, 0;
    }

    method ProcessMatch(m: Match) returns (history: seq<HistoryRow>)
      requires forall x :: params.pow10(x) > 0.0
      modifies this
      ensures (St(), history) == Process(params, old(St()), m)
    {
      if m.player1.None? || m.player2.None? || m.player1 == m.player2
         || (m.winner.Some? && m.winner != m.player1 && m.winner != m.player2)
         || (m.winner.None? && !m.isDraw) {
        invalidMatches := invalidMatches + 1;
        return [];
      }
      var scores, labels;
      if m.isDraw {
        scores, labels := [0.5, 0.5], [DRAW, DRAW];
      } else if m.winner == m.player1 {
        scores, labels := [1.0, 0.0], [WIN, LOSS];
      } else {
        scores, labels := [0.0, 1.0], [LOSS, WIN];
      }
      history := RateBoth(m, [m.player1.value, m.player2.value], scores, labels);
      matchesProcessed := matchesProcessed + 1;
    }

    /** The loop over the two players; both new ratings are computed from the old ones. */
    method RateBoth(m: Match, ids: seq<int>, scores: seq<real>, labels: seq<Label>) returns (history: seq<HistoryRow>)
      requires forall x :: params.pow10(x) > 0.0
      requires |ids| == |scores| == |labels| == 2 && ids[0] != ids[1]
      modifies this`players
      ensures var old0, old1 := Lookup(params.start, old(players), ids[0]), Lookup(params.start, old(players), ids[1]);
              var new0 := Updated(params, old0.rating, old1.rating, scores[0]);
              var new1 := Updated(params, old1.rating, old0.rating, scores[1]);
              && players == old(players)[ids[0] := After(old0, new0, labels[0])][ids[1] := After(old1, new1, labels[1])]
              && history == [Row(m, ids[0], ids[1], old0.rating, new0, old1.rating, labels[0]),
                             Row(m, ids[1], ids[0], old1.rating, new1, old0.rating, labels[1])]
    {
      var before := [Lookup(params.start, players, ids[0]), Lookup(params.start, players, ids[1])];
      ghost var was := players;
      ghost var new0 := Updated(params, before[0].rating, before[1].rating, scores[0]);
      ghost var new1 := Updated(params, before[1].rating, before[0].rating, scores[1]);
      ghost var row0 := Row(m, ids[0], ids[1], before[0].rating, new0, before[1].rating, labels[0]);
      ghost var row1 := Row(m, ids[1], ids[0], before[1].rating, new1, before[0].rating, labels[1]);
      history := [];
      for index := 0 to 2
        invariant index == 0 ==> players == was && history == []
        invariant index == 1 ==> players == was[ids[0] := After(before[0], new0, labels[0])] && history == [row0]
        invariant index == 2 ==>
                    players == was[ids[0] := After(before[0], new0, labels[0])][ids[1] := After(before[1], new1, labels[1])]
                    && history == [row0, row1]
      {
        var player, mine, opponent := ids[index], before[index], before[1 - index];
        var rating := Updated(params, mine.rating, opponent.rating, scores[index]);
        players := players[player := After(mine, rating, labels[index])];
        history := history + [Row(m, player, ids[1 - index], mine.rating, rating, opponent.rating, labels[index])];
      }
    }
  }

  // ---------------------------------------------------------------- sums over the players

  lemma SomePlayer(players: Players)
    requires |players| != 0
    ensures exists id :: id in players
  {
    assert (forall id :: id !in players) ==> players == map[];
  }

  ghost function Pick(players: Players): (id: int)
    requires |players| != 0
    ensures id in players
  {
    SomePlayer(players);
    var id :| id in players;
    id
  }

  ghost function Total(players: Players, weight: PlayerRating -> real): real
    decreases |players|
  {
    if |players| == 0 then 0.0
    else
      var id := Pick(players);
      weight(players[id]) + Total(players - {id}, weight)
  }

  lemma {:induction false} TotalWithout(players: Players, id: int, weight: PlayerRating -> real)
    requires id in players
    ensures Total(players, weight) == weight(players[id]) + Total(players - {id}, weight)
    decreases |players|
  {
    var first := Pick(players);
    if first != id {
      var rest := players - {first};
      TotalWithout(rest, id, weight);
      TotalWithout(players - {id}, first, weight);
      assert rest - {id} == (players - {id}) - {first};
    }
  }

  lemma TotalSet(players: Players, id: int, r: PlayerRating, weight: PlayerRating -> real)
    ensures Total(players[id := r], weight)
         == Total(players, weight) + weight(r) - (if id in players then weight(players[id]) else 0.0)
  {
    TotalWithout(players[id := r], id, weight);
    assert players[id := r] - {id} == players - {id};
    if id in players {
      TotalWithout(players, id, weight);
    } else {
      assert players - {id} == players;
    }
  }

  // ---------------------------------------------------------------- each player's history

  function RowsOf(history: seq<HistoryRow>, id: int): seq<HistoryRow> {
    if history == [] then []
    else
      var last := history[|history| - 1];
      RowsOf(history[..|history| - 1], id) + if last.player == id then [last] else []
  }

  function CountOf(rows: seq<HistoryRow>, verdict: Label): nat {
    if rows == [] then 0
    else CountOf(rows[..|rows| - 1], verdict) + if rows[|rows| - 1].result == verdict then 1 else 0
  }

  function Highest(rows: seq<HistoryRow>, start: real): real {
    if rows == [] then start
    else
      var high := Highest(rows[..|rows| - 1], start);
      if rows[|rows| - 1].after > high then rows[|rows| - 1].after else high
  }

  /** The rows start at `start`, each begins where the one before ended, and the last ends at `final`. */
  ghost predicate Chained(rows: seq<HistoryRow>, start: real, final: real) {
    && (rows == [] ==> final == start)
    && (rows != [] ==> rows[0].before == start && rows[|rows| - 1].after == final)
    && (forall i :: 0 <= i < |rows| - 1 ==> rows[i + 1].before == rows[i].after)
    && (forall i :: 0 <= i < |rows| ==> rows[i].change == rows[i].after - rows[i].before)
  }

  lemma RowsOfTwo(history: seq<HistoryRow>, a: HistoryRow, b: HistoryRow, id: int)
    ensures RowsOf(history + [a, b], id)
         == RowsOf(history, id) + (if a.player == id then [a] else []) + (if b.player == id then [b] else [])
  {
    assert (history + [a, b])[..|history| + 1] == history + [a];
    assert (history + [a])[..|history|] == history;
  }

  /** Everything the stored rating of one player says, read off that player's history rows. */
  ghost predicate Explains(p: Params, rows: seq<HistoryRow>, r: PlayerRating) {
    && Chained(rows, p.start, r.rating)
    && r.peak == Highest(rows, p.start)
    && r.matches == |rows|
    && r.wins == CountOf(rows, WIN) && r.losses == CountOf(rows, LOSS) && r.draws == CountOf(rows, DRAW)
  }

  lemma ExplainsOneMore(p: Params, rows: seq<HistoryRow>, r: PlayerRating, row: HistoryRow)
    requires Explains(p, rows, r) && row.before == r.rating && row.change == row.after - row.before
    ensures Explains(p, rows + [row], After(r, row.after, row.result))
  {
    assert (rows + [row])[..|rows|] == rows;
  }

  // ---------------------------------------------------------------- what every run keeps

  ghost predicate Near(p: Params, r: PlayerRating) {
    var reach := r.matches as real * p.k;
    r.matches >= 1 && -reach < r.rating - p.start < reach
  }

  ghost function RatingTotal(players: Players): real { Total(players, (r: PlayerRating) => r.rating) }
  ghost function Ratings(c: Calc): real { RatingTotal(c.players) }
  ghost function Wins(c: Calc): real { Total(c.players, (r: PlayerRating) => r.wins as real) }
  ghost function Losses(c: Calc): real { Total(c.players, (r: PlayerRating) => r.losses as real) }
  ghost function Matches(c: Calc): real { Total(c.players, (r: PlayerRating) => r.matches as real) }

  /** `start` for each of `n` players. */
  function Shares(start: real, n: nat): real { if n == 0 then 0.0 else Shares(start, n - 1) + start }

  ghost predicate Conserved(p: Params, c: Calc) {
    && Ratings(c) == Shares(p.start, |c.players|)
    && Wins(c) == Losses(c)
    && Matches(c) == 2.0 * c.processed as real
  }

  ghost predicate ExplainedFor(p: Params, c: Calc, history: seq<HistoryRow>, id: int) {
    if id in c.players then Explains(p, RowsOf(history, id), c.players[id]) && Near(p, c.players[id])
    else RowsOf(history, id) == []
  }

  ghost predicate Explained(p: Params, c: Calc, history: seq<HistoryRow>) {
    |history| == 2 * c.processed && forall id: int :: ExplainedFor(p, c, history, id)
  }

  /** The sum over the players after two of them changed; `old1` and `old2` are what they weighed before, 0 if new. */
  lemma SumOfTwo(players: Players, id1: int, id2: int, r1: PlayerRating, r2: PlayerRating, weight: PlayerRating -> real)
    requires id1 != id2
    ensures Total(players[id1 := r1][id2 := r2], weight) == Total(players, weight) + weight(r1) + weight(r2)
              - (if id1 in players then weight(players[id1]) else 0.0)
              - (if id2 in players then weight(players[id2]) else 0.0)
  {
    TotalSet(players, id1, r1, weight);
    TotalSet(players[id1 := r1], id2, r2, weight);
  }

  lemma OneMore(ids: set<int>, id: int)
    ensures |ids + {id}| == |ids| + (if id in ids then 0 else 1)
  {
    if id in ids {
      assert ids + {id} == ids;
    }
  }

  lemma SizeOfTwo(players: Players, id1: int, id2: int, r1: PlayerRating, r2: PlayerRating)
    requires id1 != id2
    ensures |players[id1 := r1][id2 := r2]|
         == |players| + (if id1 in players then 0 else 1) + (if id2 in players then 0 else 1)
  {
    SizeOfOne(players, id1, r1);
    SizeOfOne(players[id1 := r1], id2, r2);
  }

  lemma SizeOfOne(players: Players, id: int, r: PlayerRating)
    ensures |players[id := r]| == |players| + (if id in players then 0 else 1)
  {
    OneMore(players.Keys, id);
    assert players[id := r].Keys == players.Keys + {id};
    assert |players| == |players.Keys| && |players[id := r]| == |players[id := r].Keys|;
  }

  /** The two changes balance, and a newcomer brings the starting rating. */
  lemma RatingsDelta(start: real, players: Players, id1: int, id2: int, r1: PlayerRating, r2: PlayerRating)
    requires id1 != id2
    requires r1.rating + r2.rating == Lookup(start, players, id1).rating + Lookup(start, players, id2).rating
    ensures RatingTotal(players[id1 := r1][id2 := r2])
         == RatingTotal(players) + (if id1 in players then 0.0 else start) + (if id2 in players then 0.0 else start)
  {
    SumOfTwo(players, id1, id2, r1, r2, (r: PlayerRating) => r.rating);
  }

  lemma RatingsOfTwo(start: real, players: Players, id1: int, id2: int, r1: PlayerRating, r2: PlayerRating)
    requires id1 != id2
    requires r1.rating + r2.rating == Lookup(start, players, id1).rating + Lookup(start, players, id2).rating
    requires RatingTotal(players) == Shares(start, |players|)
    ensures RatingTotal(players[id1 := r1][id2 := r2]) == Shares(start, |players[id1 := r1][id2 := r2]|)
  {
    RatingsDelta(start, players, id1, id2, r1, r2);
    SizeOfTwo(players, id1, id2, r1, r2);
    MoreShares(start, |players|);
  }

  lemma MoreShares(start: real, n: nat)
    ensures Shares(start, n + 1) == Shares(start, n) + start && Shares(start, n + 2) == Shares(start, n) + start + start
  {
  }

  lemma PlusOne(a: real, n: real)
    ensures a * (n + 1.0) == a * n + a
  {
  }

  lemma {:induction false} SharesAreProduct(start: real, n: nat)
    ensures Shares(start, n) == start * n as real
  {
    if n == 0 {
      assert n as real == 0.0;
    } else {
      SharesAreProduct(start, n - 1);
      PlusOne(start, (n - 1) as real);
      assert n as real == (n - 1) as real + 1.0;
    }
  }

  lemma RecordsOfTwo(p: Params, c: Calc, id1: int, id2: int, new1: real, new2: real, verdict1: Label, verdict2: Label)
    requires id1 != id2 && Wins(c) == Losses(c) && Matches(c) == 2.0 * c.processed as real
    requires verdict1 == WIN <==> verdict2 == LOSS
    requires verdict1 == LOSS <==> verdict2 == WIN
    ensures var c' := AfterTwo(p, c, id1, id2, new1, new2, verdict1, verdict2);
            Wins(c') == Losses(c') && Matches(c') == 2.0 * c'.processed as real
  {
    var r1 := After(Lookup(p.start, c.players, id1), new1, verdict1);
    var r2 := After(Lookup(p.start, c.players, id2), new2, verdict2);
    SumOfTwo(c.players, id1, id2, r1, r2, (r: PlayerRating) => r.wins as real);
    SumOfTwo(c.players, id1, id2, r1, r2, (r: PlayerRating) => r.losses as real);
    SumOfTwo(c.players, id1, id2, r1, r2, (r: PlayerRating) => r.matches as real);
  }

  /** The calculator after an accepted match with the given new ratings and labels. */
  function AfterTwo(p: Params, c: Calc, id1: int, id2: int, new1: real, new2: real, verdict1: Label, verdict2: Label): Calc {
    Calc(c.players[id1 := After(Lookup(p.start, c.players, id1), new1, verdict1)]
                  [id2 := After(Lookup(p.start, c.players, id2), new2, verdict2)], c.processed + 1, c.invalid)
  }

  /** The match itself moves nothing in or out. */
  lemma ConservedByTwo(p: Params, c: Calc, id1: int, id2: int, new1: real, new2: real, verdict1: Label, verdict2: Label)
    requires id1 != id2 && Conserved(p, c)
    requires new1 + new2 == Lookup(p.start, c.players, id1).rating + Lookup(p.start, c.players, id2).rating
    requires verdict1 == WIN <==> verdict2 == LOSS
    requires verdict1 == LOSS <==> verdict2 == WIN
    ensures Conserved(p, AfterTwo(p, c, id1, id2, new1, new2, verdict1, verdict2))
  {
    RatingsOfTwo(p.start, c.players, id1, id2, After(Lookup(p.start, c.players, id1), new1, verdict1),
                 After(Lookup(p.start, c.players, id2), new2, verdict2));
    RecordsOfTwo(p, c, id1, id2, new1, new2, verdict1, verdict2);
  }

  lemma ConservedByStep(p: Params, c: Calc, m: Match)
    requires ValidParams(p) && Conserved(p, c)
    ensures Conserved(p, Process(p, c, m).0)
  {
    if Accepts(m) {
      var id1, id2 := m.player1.value, m.player2.value;
      var (score, verdict1, verdict2) := Outcome(m);
      var old1, old2 := Lookup(p.start, c.players, id1).rating, Lookup(p.start, c.players, id2).rating;
      UpdatesBalance(p, old1, old2, score);
      ConservedByTwo(p, c, id1, id2, Updated(p, old1, old2, score), Updated(p, old2, old1, 1.0 - score), verdict1, verdict2);
    }
  }

  /** The first match of a player moves the rating by less than `k`. */
  lemma NearAtFirst(p: Params, rating: real, verdict: Label)
    requires p.k > 0.0 && -p.k < rating - p.start < p.k
    ensures Near(p, After(Initial(p.start), rating, verdict))
  {
    assert After(Initial(p.start), rating, verdict).matches as real == 1.0;
  }

  /** Every further match moves it by less than `k` once more. */
  lemma NearByOneMore(p: Params, was: PlayerRating, rating: real, verdict: Label)
    requires p.k > 0.0 && Near(p, was) && -p.k < rating - was.rating < p.k
    ensures Near(p, After(was, rating, verdict))
  {
    var n := was.matches as real;
    PlusOne(p.k, n);
    assert After(was, rating, verdict).matches as real == n + 1.0;
    assert (n + 1.0) * p.k == n * p.k + p.k;
  }

  lemma NearByStep(p: Params, was: PlayerRating, rating: real, verdict: Label)
    requires p.k > 0.0 && (was == Initial(p.start) || Near(p, was)) && -p.k < rating - was.rating < p.k
    ensures Near(p, After(was, rating, verdict))
  {
    if was == Initial(p.start) {
      NearAtFirst(p, rating, verdict);
    } else {
      NearByOneMore(p, was, rating, verdict);
    }
  }

  /** One player after one more row of that player. */
  lemma PlayerByStep(p: Params, rows: seq<HistoryRow>, was: PlayerRating, row: HistoryRow)
    requires p.k > 0.0 && Explains(p, rows, was) && (was == Initial(p.start) || Near(p, was))
    requires row.before == was.rating && row.change == row.after - row.before && -p.k < row.change < p.k
    ensures Explains(p, rows + [row], After(was, row.after, row.result))
    ensures Near(p, After(was, row.after, row.result))
  {
    ExplainsOneMore(p, rows, was, row);
    NearByStep(p, was, row.after, row.result);
  }

  /** What two history rows have to do with the players they are about. */
  ghost predicate RowMoves(p: Params, was: PlayerRating, now: PlayerRating, row: HistoryRow) {
    && row.before == was.rating && row.change == row.after - row.before && -p.k < row.change < p.k
    && now == After(was, row.after, row.result)
  }

  lemma ProcessRows(p: Params, c: Calc, m: Match)
    requires ValidParams(p) && Accepts(m)
    ensures var (c', rows) := Process(p, c, m); var id1, id2 := m.player1.value, m.player2.value;
            && |rows| == 2 && rows[0].player == id1 && rows[1].player == id2
            && c'.players.Keys == c.players.Keys + {id1, id2}
            && (forall id :: id in c.players && id != id1 && id != id2 ==> c'.players[id] == c.players[id])
            && RowMoves(p, Lookup(p.start, c.players, id1), c'.players[id1], rows[0])
            && RowMoves(p, Lookup(p.start, c.players, id2), c'.players[id2], rows[1])
  {
    var was1, was2 := Lookup(p.start, c.players, m.player1.value), Lookup(p.start, c.players, m.player2.value);
    UpdatesBalance(p, was1.rating, was2.rating, Outcome(m).0);
  }

  // ---------------------------------------------------------------- what one match is worth

  /**
   The change of a history row by the rating formula: with `d` the lead of the opponent over
   400, a win is worth the factor over `1 + 10^-d`, a loss costs it over `1 + 10^d`, and a
   draw is half of both together.
   */
  ghost predicate Worth(p: Params, row: HistoryRow) {
    var d := (row.opponentBefore - row.before) / 400.0;
    match row.result
    case WIN => row.change * (1.0 + p.pow10(-d)) == p.k
    case LOSS => row.change * (1.0 + p.pow10(d)) == -p.k
    case DRAW => 2.0 * row.change * (1.0 + p.pow10(d)) == p.k * (p.pow10(d) - 1.0)
  }

  lemma WorthOfShare(k: real, x: real, y: real, share: real, change: real, score: real)
    requires x > 0.0 && y > 0.0 && x * y == 1.0 && share * (1.0 + x) == 1.0 && change == k * (score - share)
    ensures score == 1.0 ==> change * (1.0 + y) == k
    ensures score == 0.0 ==> change * (1.0 + x) == -k
    ensures score == 0.5 ==> 2.0 * change * (1.0 + x) == k * (x - 1.0)
  {
    assert change * (1.0 + x) == k * (score * (1.0 + x) - 1.0) by {
      assert (score - share) * (1.0 + x) == score * (1.0 + x) - share * (1.0 + x);
      Regroup(k, score - share, 1.0 + x);
    }
    if score == 1.0 {
      assert change * (1.0 + x) == k * x;
      assert change * (1.0 + x) * y == k * (x * y) by {
        Regroup(k, x, y);
      }
      assert change * ((1.0 + x) * y) == change * (1.0 + y) by {
        assert (1.0 + x) * y == y + x * y;
      }
      Regroup(change, 1.0 + x, y);
    } else if score == 0.5 {
      assert 0.5 * (1.0 + x) - 1.0 == 0.5 * (x - 1.0);
      Regroup(k, 0.5, x - 1.0);
    }
  }

  lemma Regroup(a: real, b: real, c: real)
    ensures (a * b) * c == a * (b * c)
  {
  }

  lemma ExpectedTimes(p: Params, a: real, b: real)
    requires ValidParams(p)
    ensures var x, y := p.pow10((b - a) / 400.0), p.pow10(-((b - a) / 400.0));
            x > 0.0 && y > 0.0 && x * y == 1.0 && Expected(p, a, b) * (1.0 + x) == 1.0
  {
  }

  lemma RowIsWorth(p: Params, row: HistoryRow, score: real)
    requires ValidParams(p) && 1.0 + p.pow10((row.opponentBefore - row.before) / 400.0) != 0.0
    requires row.change == Updated(p, row.before, row.opponentBefore, score) - row.before
    requires score == match row.result case WIN => 1.0 case LOSS => 0.0 case DRAW => 0.5
    ensures Worth(p, row)
  {
    var d := (row.opponentBefore - row.before) / 400.0;
    ExpectedTimes(p, row.before, row.opponentBefore);
    var share := Expected(p, row.before, row.opponentBefore);
    UpdatedIs(p, row.before, row.opponentBefore, score, share);
    ShareIsWorth(p, row, p.pow10(d), p.pow10(-d), share, score);
  }

  lemma ShareIsWorth(p: Params, row: HistoryRow, x: real, y: real, share: real, score: real)
    requires var d := (row.opponentBefore - row.before) / 400.0; x == p.pow10(d) && y == p.pow10(-d)
    requires x > 0.0 && y > 0.0 && x * y == 1.0 && share * (1.0 + x) == 1.0
    requires row.change == p.k * (score - share)
    requires score == match row.result case WIN => 1.0 case LOSS => 0.0 case DRAW => 0.5
    ensures Worth(p, row)
  {
    WorthOfShare(p.k, x, y, share, row.change, score);
  }

  /**
   The rows of one match, in full: the calculator rates it exactly if it has two different
   players and a winner among them or a draw; then each player has a row about the other,
   the winner's says win, and each change is worth what the formula says.
   */
  lemma RowsFollowTheFormula(p: Params, c: Calc, m: Match)
    requires ValidParams(p)
    ensures var rows := Process(p, c, m).1;
            if m.player1.Some? && m.player2.Some? && m.player1 != m.player2
               && (m.winner == m.player1 || m.winner == m.player2 || (m.winner.None? && m.isDraw))
            then
              && |rows| == 2
              && forall i :: 0 <= i < 2 ==>
                   var row, other := rows[i], rows[1 - i];
                   && row.matchId == m.matchId && row.eventId == m.eventId
                   && Some(row.player) == (if i == 0 then m.player1 else m.player2)
                   && row.opponent == other.player && row.opponentBefore == other.before
                   && row.before == Lookup(p.start, c.players, row.player).rating && row.after == row.before + row.change
                   && row.result == (if m.isDraw then DRAW else if m.winner == Some(row.player) then WIN else LOSS)
                   && Worth(p, row)
            else rows == [] && Process(p, c, m).0 == c.(invalid := c.invalid + 1)
  {
    if Accepts(m) {
      var rows, score := Process(p, c, m).1, Outcome(m).0;
      RowIsWorth(p, rows[0], score);
      RowIsWorth(p, rows[1], 1.0 - score);
    }
  }

  lemma WinIsRated(p: Params, c: Calc, m: Match, i: nat)
    requires ValidParams(p) && i < |Process(p, c, m).1| && Process(p, c, m).1[i].result == WIN
    ensures Worth(p, Process(p, c, m).1[i])
  {
    RowsFollowTheFormula(p, c, m);
  }

  /**
   Where a higher exponent means a higher power, a win is worth the less the further the
   winner was ahead: beating an equal brings half the factor, a favourite gets less for
   winning and an underdog more. Whatever the runs the two wins are from.
   */
  lemma FavouriteGainsLess(p: Params, c1: Calc, m1: Match, i: nat, c2: Calc, m2: Match, j: nat)
    requires ValidParams(p) && forall x, y :: x < y ==> p.pow10(x) < p.pow10(y)
    requires i < |Process(p, c1, m1).1| && Process(p, c1, m1).1[i].result == WIN
    requires j < |Process(p, c2, m2).1| && Process(p, c2, m2).1[j].result == WIN
    ensures var one, two := Process(p, c1, m1).1[i], Process(p, c2, m2).1[j];
            && (one.before - one.opponentBefore > two.before - two.opponentBefore ==> one.change < two.change)
            && (one.before == one.opponentBefore ==> one.change == p.k / 2.0)
  {
    WinIsRated(p, c1, m1, i);
    WinIsRated(p, c2, m2, j);
    LeadLowersWorth(p, Process(p, c1, m1).1[i], Process(p, c2, m2).1[j]);
  }

  lemma LeadLowersWorth(p: Params, one: HistoryRow, two: HistoryRow)
    requires ValidParams(p) && forall x, y :: x < y ==> p.pow10(x) < p.pow10(y)
    requires Worth(p, one) && Worth(p, two) && one.result == two.result == WIN
    ensures one.before - one.opponentBefore > two.before - two.opponentBefore ==> one.change < two.change
    ensures one.before == one.opponentBefore ==> one.change == p.k / 2.0
  {
    var d1, d2 := (one.opponentBefore - one.before) / 400.0, (two.opponentBefore - two.before) / 400.0;
    if one.before - one.opponentBefore > two.before - two.opponentBefore {
      assert -d2 < -d1;
      SmallerShare(p.k, p.pow10(-d1), p.pow10(-d2), one.change, two.change);
    }
    if one.before == one.opponentBefore {
      assert d1 == 0.0 == -d1;
      assert p.pow10(0.0) * p.pow10(-0.0) == 1.0;
      PositiveRoot(p.pow10(0.0));
    }
  }

  lemma PositiveRoot(x: real)
    requires x > 0.0 && x * x == 1.0
    ensures x == 1.0
  {
    assert (x - 1.0) * (x + 1.0) == x * x - 1.0;
  }

  lemma SmallerShare(k: real, x: real, y: real, a: real, b: real)
    requires k > 0.0 && x > y > 0.0 && a * (1.0 + x) == k && b * (1.0 + y) == k
    ensures a < b
  {
    PositiveFactor(a, 1.0 + x);
    assert a * (x - y) > 0.0;
    assert (b - a) * (1.0 + y) == a * (x - y);
    PositiveFactor(b - a, 1.0 + y);
  }

  lemma PositiveFactor(u: real, v: real)
    requires v > 0.0 && u * v > 0.0
    ensures u > 0.0
  {
  }

  lemma ExplainedForRows(p: Params, c: Calc, c': Calc, history: seq<HistoryRow>, rows: seq<HistoryRow>,
                         id1: int, id2: int, id: int)
    requires p.k > 0.0 && id1 != id2 && ExplainedFor(p, c, history, id)
    requires |rows| == 2 && rows[0].player == id1 && rows[1].player == id2
    requires c'.players.Keys == c.players.Keys + {id1, id2}
    requires forall other :: other in c.players && other != id1 && other != id2 ==> c'.players[other] == c.players[other]
    requires RowMoves(p, Lookup(p.start, c.players, id1), c'.players[id1], rows[0])
    requires RowMoves(p, Lookup(p.start, c.players, id2), c'.players[id2], rows[1])
    ensures ExplainedFor(p, c', history + rows, id)
  {
    RowsOfTwo(history, rows[0], rows[1], id);
    assert rows == [rows[0], rows[1]];
    if id == id1 {
      PlayerByStep(p, RowsOf(history, id), Lookup(p.start, c.players, id1), rows[0]);
      assert RowsOf(history + rows, id) == RowsOf(history, id) + [rows[0]];
    } else if id == id2 {
      PlayerByStep(p, RowsOf(history, id), Lookup(p.start, c.players, id2), rows[1]);
      assert RowsOf(history + rows, id) == RowsOf(history, id) + [rows[1]];
    } else {
      assert RowsOf(history + rows, id) == RowsOf(history, id);
    }
  }

  lemma ExplainedForStep(p: Params, c: Calc, history: seq<HistoryRow>, m: Match, id: int)
    requires ValidParams(p) && Accepts(m) && ExplainedFor(p, c, history, id)
    ensures ExplainedFor(p, Process(p, c, m).0, history + Process(p, c, m).1, id)
  {
    var (c', rows) := Process(p, c, m);
    ProcessRows(p, c, m);
    ExplainedForRows(p, c, c', history, rows, m.player1.value, m.player2.value, id);
  }

  lemma ExplainedByStep(p: Params, c: Calc, history: seq<HistoryRow>, m: Match)
    requires ValidParams(p) && Explained(p, c, history)
    ensures Explained(p, Process(p, c, m).0, history + Process(p, c, m).1)
  {
    if Accepts(m) {
      forall id: int
        ensures ExplainedFor(p, Process(p, c, m).0, history + Process(p, c, m).1, id)
      {
        assert ExplainedFor(p, c, history, id);
        ExplainedForStep(p, c, history, m, id);
      }
    } else {
      assert history + [] == history;
      forall id: int
        ensures ExplainedFor(p, Process(p, c, m).0, history + Process(p, c, m).1, id)
      {
        assert ExplainedFor(p, c, history, id);
      }
    }
  }

  /** Rating is neither made nor lost, wins balance losses, and every match is counted twice. */
  lemma {:induction false} RunConserves(p: Params, matches: seq<Match>)
    requires ValidParams(p)
    ensures Conserved(p, Fold(p, matches).0)
  {
    if matches == [] {
    } else {
      RunConserves(p, matches[..|matches| - 1]);
      ConservedByStep(p, Fold(p, matches[..|matches| - 1]).0, matches[|matches| - 1]);
    }
  }

  /** In numbers: the ratings add up to the starting rating times the number of players. */
  lemma ConservedInNumbers(p: Params, c: Calc)
    requires Conserved(p, c)
    ensures Ratings(c) == p.start * |c.players| as real
  {
    SharesAreProduct(p.start, |c.players|);
  }

  /** Every stored rating, peak and record is what that player's history rows say. */
  lemma {:induction false} RunExplains(p: Params, matches: seq<Match>)
    requires ValidParams(p)
    ensures Explained(p, Fold(p, matches).0, Fold(p, matches).1)
  {
    if matches != [] {
      RunExplains(p, matches[..|matches| - 1]);
      ExplainedByStep(p, Fold(p, matches[..|matches| - 1]).0, Fold(p, matches[..|matches| - 1]).1, matches[|matches| - 1]);
    } else {
      forall id: int
        ensures ExplainedFor(p, Fold(p, matches).0, Fold(p, matches).1, id)
      {
        assert Fold(p, matches) == (EMPTY, []);
      }
    }
  }

  lemma {:induction false} CountsAddUp(rows: seq<HistoryRow>)
    ensures CountOf(rows, WIN) + CountOf(rows, LOSS) + CountOf(rows, DRAW) == |rows|
  {
    if rows == [] {
    } else {
      CountsAddUp(rows[..|rows| - 1]);
    }
  }

  /** The highest rating in a player's history, or the start, whichever is higher; and it is reached. */
  lemma {:induction false} HighestIsMaximum(rows: seq<HistoryRow>, start: real)
    ensures start <= Highest(rows, start)
    ensures forall i :: 0 <= i < |rows| ==> rows[i].after <= Highest(rows, start)
    ensures Highest(rows, start) == start || exists i :: 0 <= i < |rows| && rows[i].after == Highest(rows, start)
  {
    if rows == [] {
    } else {
      var shorter := rows[..|rows| - 1];
      HighestIsMaximum(shorter, start);
      assert forall i :: 0 <= i < |shorter| ==> shorter[i] == rows[i];
    }
  }
}
