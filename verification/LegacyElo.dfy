/**
 The frozen reference loop and the proof that the incremental calculator refines it.
 A `defaultdict` read that inserts its default is modelled as an insertion.
 */
module LegacyElo {
  import opened Wrappers
  import opened Elo

  const START := 1500.0
  const K := 32.0

  /** A source row; the query already leaves out matches without two players. */
  datatype LegacyMatch = LegacyMatch(matchId: int, eventId: int, player1: int, player2: int, winner: Option<int>, isDraw: bool)

  datatype Record = Record(matches: nat, wins: nat, losses: nat, draws: nat)

  datatype Legacy = Legacy(
    ratings: map<int, real>,
    peaks: map<int, real>,
    records: map<int, Record>,
    history: seq<HistoryRow>,
    processed: nat,
    invalid: nat)

  const NOTHING := Legacy(map[], map[], map[], [], 0, 0)

  function Touch<V>(m: map<int, V>, id: int, default: V): map<int, V> {
    if id in m then m else m[id := default]
  }

  function Raise(peaks: map<int, real>, id: int, rating: real): map<int, real> {
    var peak := Touch(peaks, id, START)[id];
    peaks[id := if rating > peak then rating else peak]
  }

  function Count(records: map<int, Record>, id: int, verdict: Label): map<int, Record> {
    var r := Touch(records, id, Record(0, 0, 0, 0))[id];
    records[id := match verdict
                  case WIN => r.(wins := r.wins + 1)
                  case LOSS => r.(losses := r.losses + 1)
                  case DRAW => r.(draws := r.draws + 1)]
  }

  function CountMatch(records: map<int, Record>, id: int): map<int, Record> {
    var r := Touch(records, id, Record(0, 0, 0, 0))[id];
    records[id := r.(matches := r.matches + 1)]
  }

  function LegacyParams(pow10: real -> real): Params { Params(START, K, pow10) }

  datatype Verdict = Verdict(score1: real, score2: real, verdict1: Label, verdict2: Label)

  function Judge(m: LegacyMatch): Option<Verdict> {
    if m.isDraw then Some(Verdict(0.5, 0.5, DRAW, DRAW))
    else if m.winner == Some(m.player1) then Some(Verdict(1.0, 0.0, WIN, LOSS))
    else if m.winner == Some(m.player2) then Some(Verdict(0.0, 1.0, LOSS, WIN))
    else None
  }

  /** The part of the loop body after the result is known. */
  function Apply(pow10: real -> real, l: Legacy, m: LegacyMatch, v: Verdict): Legacy
    requires forall x :: pow10(x) > 0.0
    requires m.player1 in l.ratings && m.player2 in l.ratings
  {
    var before1, before2 := l.ratings[m.player1], l.ratings[m.player2];
    var after1 := Updated(LegacyParams(pow10), before1, before2, v.score1);
    var after2 := Updated(LegacyParams(pow10), before2, before1, v.score2);
    Legacy(
      l.ratings[m.player1 := after1][m.player2 := after2],
      Raise(Raise(l.peaks, m.player1, after1), m.player2, after2),
      CountMatch(CountMatch(Count(Count(l.records, m.player1, v.verdict1), m.player2, v.verdict2), m.player1), m.player2),
      l.history + [HistoryRow(m.player1, m.matchId, m.eventId, before1, after1, after1 - before1, m.player2, before2, v.verdict1),
                   HistoryRow(m.player2, m.matchId, m.eventId, before2, after2, after2 - before2, m.player1, before1, v.verdict2)],
      l.processed + 1, l.invalid)
  }

  function Step(pow10: real -> real, l: Legacy, m: LegacyMatch): Legacy
    requires forall x :: pow10(x) > 0.0
  {
    if m.winner.Some? && m.winner.value != m.player1 && m.winner.value != m.player2 then l.(invalid := l.invalid + 1)
    else
      var touched := l.(ratings := Touch(Touch(l.ratings, m.player1, START), m.player2, START));
      if Judge(m).None? then touched.(invalid := l.invalid + 1)
      else Apply(pow10, touched, m, Judge(m).value)
  }

  function Reference(pow10: real -> real, matches: seq<LegacyMatch>): Legacy
    requires forall x :: pow10(x) > 0.0
  {
    if matches == [] then NOTHING
    else Step(pow10, Reference(pow10, matches[..|matches| - 1]), matches[|matches| - 1])
  }

  /** The reference loop as it is written. */
  method CalculateReference(pow10: real -> real, matches: seq<LegacyMatch>)
    returns (ratings: map<int, real>, peaks: map<int, real>, records: map<int, Record>, history: seq<HistoryRow>,
             processed: nat, invalid: nat)
    requires forall x :: pow10(x) > 0.0
    ensures Legacy(ratings, peaks, records, history, processed, invalid) == Reference(pow10, matches)
  {
    ratings, peaks, records, history, processed, invalid := map[], map[], map[], [], 0, 0;
    for i := 0 to |matches|
      invariant Legacy(ratings, peaks, records, history, processed, invalid) == Reference(pow10, matches[..i])
    {
      var m := matches[i];
      assert matches[..i + 1][..i] == matches[..i];
      assert Reference(pow10, matches[..i + 1]) == Step(pow10, Reference(pow10, matches[..i]), m);
      if m.winner.Some? && m.winner.value != m.player1 && m.winner.value != m.player2 {
        invalid := invalid + 1;
        continue;
      }
      ratings := Touch(ratings, m.player1, START);
      ratings := Touch(ratings, m.player2, START);
      if Judge(m).None? {
        invalid := invalid + 1;
        continue;
      }
      ratings, peaks, records, history := ApplyVerdict(pow10, ratings, peaks, records, history, m, Judge(m).value);
      processed := processed + 1;
    }
    assert matches[..|matches|] == matches;
  }

  method ApplyVerdict(pow10: real -> real, ratings0: map<int, real>, peaks0: map<int, real>, records0: map<int, Record>,
                      history0: seq<HistoryRow>, m: LegacyMatch, v: Verdict)
    returns (ratings: map<int, real>, peaks: map<int, real>, records: map<int, Record>, history: seq<HistoryRow>)
    requires forall x :: pow10(x) > 0.0
    requires m.player1 in ratings0 && m.player2 in ratings0
    ensures forall processed: nat, invalid: nat ::
              Legacy(ratings, peaks, records, history, processed + 1, invalid)
              == Apply(pow10, Legacy(ratings0, peaks0, records0, history0, processed, invalid), m, v)
  {
    ratings, peaks, records, history := ratings0, peaks0, records0, history0;
    var params := LegacyParams(pow10);
    var id1, id2 := m.player1, m.player2;
    var before1, before2 := ratings[id1], ratings[id2];
    records := Count(records, id1, v.verdict1);
    records := Count(records, id2, v.verdict2);
    var after1 := Updated(params, before1, before2, v.score1);
    var after2 := Updated(params, before2, before1, v.score2);
    ratings := ratings[id1 := after1];
    ratings := ratings[id2 := after2];
    peaks := Raise(peaks, id1, after1);
    peaks := Raise(peaks, id2, after2);
    records := CountMatch(records, id1);
    records := CountMatch(records, id2);
    history := history + [HistoryRow(id1, m.matchId, m.eventId, before1, after1, after1 - before1, id2, before2, v.verdict1)];
    history := history + [HistoryRow(id2, m.matchId, m.eventId, before2, after2, after2 - before2, id1, before1, v.verdict2)];
  }

  // ---------------------------------------------------------------- refinement

  function AsMatch(m: LegacyMatch): Match {
    Match(m.matchId, m.eventId, Some(m.player1), Some(m.player2), m.winner, m.isDraw)
  }

  function AsMatches(matches: seq<LegacyMatch>): seq<Match> {
    seq(|matches|, i requires 0 <= i < |matches| => AsMatch(matches[i]))
  }

  /** What the reference stores for a player, put together as the calculator stores it. */
  function Gathered(l: Legacy, id: int): PlayerRating
    requires id in l.ratings && id in l.peaks && id in l.records
  {
    var r := l.records[id];
    PlayerRating(l.ratings[id], r.matches, r.wins, r.losses, r.draws, l.peaks[id])
  }

  /**
   Same players, ratings, records, peaks, history and counts. The one difference: a
   rejected match leaves players behind in the reference's `ratings`, at the start
   value and with nothing else stored for them.
   */
  ghost predicate Agrees(c: Calc, rows: seq<HistoryRow>, l: Legacy) {
    && rows == l.history && c.processed == l.processed && c.invalid == l.invalid
    && l.peaks.Keys == c.players.Keys && l.records.Keys == c.players.Keys && c.players.Keys <= l.ratings.Keys
    && (forall id :: id in c.players ==> c.players[id] == Gathered(l, id))
    && (forall id :: id in l.ratings && id !in c.players ==> l.ratings[id] == START)
  }

  /** A match of a player against itself with a result that neither loop would reject. */
  predicate RatedSelfMatch(m: LegacyMatch) {
    && m.player1 == m.player2
    && (m.winner.Some? ==> m.winner.value == m.player1)
    && (m.winner.None? ==> m.isDraw)
  }

  lemma StepAgrees(pow10: real -> real, c: Calc, rows: seq<HistoryRow>, l: Legacy, m: LegacyMatch)
    requires ValidParams(LegacyParams(pow10)) && !RatedSelfMatch(m) && Agrees(c, rows, l)
    ensures var (c', more) := Process(LegacyParams(pow10), c, AsMatch(m)); Agrees(c', rows + more, Step(pow10, l, m))
  {
    if Accepts(AsMatch(m)) {
      AcceptedAgrees(pow10, c, rows, l, m);
    } else {
      assert rows + [] == rows;
    }
  }

  /** One player's stored values, through the reference's separate dictionaries. */
  lemma PlayerAgrees(c: Calc, l: Legacy, id: int, after: real, verdict: Label)
    requires l.peaks.Keys == c.players.Keys && l.records.Keys == c.players.Keys
    requires id in c.players ==> id in l.ratings && c.players[id] == Gathered(l, id)
    ensures Raise(l.peaks, id, after)[id] == After(Lookup(START, c.players, id), after, verdict).peak
    ensures var r := CountMatch(Count(l.records, id, verdict), id)[id];
            var now := After(Lookup(START, c.players, id), after, verdict);
            r == Record(now.matches, now.wins, now.losses, now.draws)
  {
  }

  /** The records of two different players do not interfere. */
  lemma CountsApart(records: map<int, Record>, id1: int, id2: int, verdict1: Label, verdict2: Label)
    requires id1 != id2
    ensures CountMatch(CountMatch(Count(Count(records, id1, verdict1), id2, verdict2), id1), id2)
         == records[id1 := CountMatch(Count(records, id1, verdict1), id1)[id1]]
                   [id2 := CountMatch(Count(records, id2, verdict2), id2)[id2]]
  {
  }

  lemma JudgeIsOutcome(m: LegacyMatch)
    requires Accepts(AsMatch(m))
    ensures Judge(m).Some?
    ensures var (score, verdict1, verdict2) := Outcome(AsMatch(m));
            Judge(m).value == Verdict(score, 1.0 - score, verdict1, verdict2)
  {
  }

  lemma AcceptedAgrees(pow10: real -> real, c: Calc, rows: seq<HistoryRow>, l: Legacy, m: LegacyMatch)
    requires ValidParams(LegacyParams(pow10)) && m.player1 != m.player2 && Agrees(c, rows, l) && Accepts(AsMatch(m))
    ensures var (c', more) := Process(LegacyParams(pow10), c, AsMatch(m)); Agrees(c', rows + more, Step(pow10, l, m))
  {
    JudgeIsOutcome(m);
    var touched := l.(ratings := Touch(Touch(l.ratings, m.player1, START), m.player2, START));
    assert touched.ratings[m.player1] == Lookup(START, c.players, m.player1).rating;
    assert touched.ratings[m.player2] == Lookup(START, c.players, m.player2).rating;
    var c' := ProcessIsApply(pow10, c, touched, m, Judge(m).value);
    var l' := Apply(pow10, touched, m, Judge(m).value);
    PlayersAgree(c, rows, l, m, c', l', l'.ratings[m.player1], l'.ratings[m.player2], Judge(m).value);
  }

  /** From equal ratings the calculator and the reference compute the same new ratings and rows. */
  lemma ProcessIsApply(pow10: real -> real, c: Calc, l: Legacy, m: LegacyMatch, v: Verdict) returns (c': Calc)
    requires ValidParams(LegacyParams(pow10)) && Accepts(AsMatch(m)) && Judge(m) == Some(v)
    requires Outcome(AsMatch(m)) == (v.score1, v.verdict1, v.verdict2) && v.score2 == 1.0 - v.score1
    requires m.player1 in l.ratings && m.player2 in l.ratings
    requires l.ratings[m.player1] == Lookup(START, c.players, m.player1).rating
    requires l.ratings[m.player2] == Lookup(START, c.players, m.player2).rating
    ensures c' == Process(LegacyParams(pow10), c, AsMatch(m)).0
    ensures var l' := Apply(pow10, l, m, v);
            && c'.players == c.players[m.player1 := After(Lookup(START, c.players, m.player1), l'.ratings[m.player1], v.verdict1)]
                                      [m.player2 := After(Lookup(START, c.players, m.player2), l'.ratings[m.player2], v.verdict2)]
            && l'.history == l.history + Process(LegacyParams(pow10), c, AsMatch(m)).1
            && c'.processed == c.processed + 1 && c'.invalid == c.invalid
  {
    c' := Process(LegacyParams(pow10), c, AsMatch(m)).0;
  }

  /** The players after an accepted match, whatever the two new ratings are. */
  lemma PlayersAgree(c: Calc, rows: seq<HistoryRow>, l: Legacy, m: LegacyMatch, c': Calc, l': Legacy,
                     after1: real, after2: real, v: Verdict)
    requires m.player1 != m.player2 && Agrees(c, rows, l)
    requires c'.players == c.players[m.player1 := After(Lookup(START, c.players, m.player1), after1, v.verdict1)]
                                    [m.player2 := After(Lookup(START, c.players, m.player2), after2, v.verdict2)]
    requires l'.ratings == Touch(Touch(l.ratings, m.player1, START), m.player2, START)[m.player1 := after1][m.player2 := after2]
    requires l'.peaks == Raise(Raise(l.peaks, m.player1, after1), m.player2, after2)
    requires l'.records == CountMatch(CountMatch(Count(Count(l.records, m.player1, v.verdict1), m.player2, v.verdict2),
                                                 m.player1), m.player2)
    requires c'.processed == l'.processed && c'.invalid == l'.invalid
    ensures Agrees(c', l'.history, l')
  {
    var id1, id2 := m.player1, m.player2;
    PlayerAgrees(c, l, id1, after1, v.verdict1);
    PlayerAgrees(c, l, id2, after2, v.verdict2);
    CountsApart(l.records, id1, id2, v.verdict1, v.verdict2);
    assert l'.peaks == l.peaks[id1 := Raise(l.peaks, id1, after1)[id1]][id2 := Raise(l.peaks, id2, after2)[id2]];
    forall id | id in c'.players && id != id1 && id != id2
      ensures c'.players[id] == Gathered(l', id)
    {
      assert c.players[id] == Gathered(l, id);
    }
  }

  ghost predicate RatesASelfMatch(matches: seq<LegacyMatch>) {
    exists i :: 0 <= i < |matches| && RatedSelfMatch(matches[i])
  }

  lemma {:induction false} WithoutSelfMatchesAgrees(pow10: real -> real, matches: seq<LegacyMatch>)
    requires ValidParams(LegacyParams(pow10)) && !RatesASelfMatch(matches)
    ensures var (c, rows) := Fold(LegacyParams(pow10), AsMatches(matches)); Agrees(c, rows, Reference(pow10, matches))
  {
    if matches == [] {
    } else {
      var n := |matches| - 1;
      assert !RatesASelfMatch(matches[..n]);
      WithoutSelfMatchesAgrees(pow10, matches[..n]);
      var (c, rows) := Fold(LegacyParams(pow10), AsMatches(matches[..n]));
      assert AsMatches(matches)[..n] == AsMatches(matches[..n]);
      StepAgrees(pow10, c, rows, Reference(pow10, matches[..n]), matches[n]);
    }
  }

  function CountSelfMatches(matches: seq<LegacyMatch>): nat {
    if matches == [] then 0
    else CountSelfMatches(matches[..|matches| - 1]) + if RatedSelfMatch(matches[|matches| - 1]) then 1 else 0
  }

  lemma {:induction false} NoSelfMatchCounted(matches: seq<LegacyMatch>)
    ensures CountSelfMatches(matches) == 0 <==> !RatesASelfMatch(matches)
  {
    if matches == [] {
    } else {
      var n := |matches| - 1;
      NoSelfMatchCounted(matches[..n]);
      assert RatesASelfMatch(matches) <==> RatesASelfMatch(matches[..n]) || RatedSelfMatch(matches[n]) by {
        if i :| 0 <= i < |matches| && RatedSelfMatch(matches[i]) {
          assert i < n ==> RatedSelfMatch(matches[..n][i]);
        }
        if i :| 0 <= i < n && RatedSelfMatch(matches[..n][i]) {
          assert RatedSelfMatch(matches[i]);
        }
      }
    }
  }

  /** On one match the reference processes what the calculator does, and a rated self-match besides. */
  lemma StepCounts(pow10: real -> real, c: Calc, l: Legacy, m: LegacyMatch)
    requires ValidParams(LegacyParams(pow10))
    ensures Step(pow10, l, m).processed - l.processed
         == (Process(LegacyParams(pow10), c, AsMatch(m)).0.processed - c.processed) + if RatedSelfMatch(m) then 1 else 0
  {
  }

  lemma {:induction false} ProcessedDiffer(pow10: real -> real, matches: seq<LegacyMatch>)
    requires ValidParams(LegacyParams(pow10))
    ensures Reference(pow10, matches).processed
         == Fold(LegacyParams(pow10), AsMatches(matches)).0.processed + CountSelfMatches(matches)
  {
    if matches == [] {
    } else {
      var n := |matches| - 1;
      ProcessedDiffer(pow10, matches[..n]);
      assert AsMatches(matches)[..n] == AsMatches(matches[..n]);
      StepCounts(pow10, Fold(LegacyParams(pow10), AsMatches(matches[..n])).0, Reference(pow10, matches[..n]), matches[n]);
    }
  }

  /**
   For every stream: the calculator does what the reference does exactly when the stream
   holds no match of a player against itself whose result is otherwise valid. One of them
   is enough to part the two for good.
   */
  lemma AgreesExactlyWithoutSelfMatches(pow10: real -> real, matches: seq<LegacyMatch>)
    requires ValidParams(LegacyParams(pow10))
    ensures var (c, rows) := Fold(Params(1500.0, 32.0, pow10), AsMatches(matches));
            Agrees(c, rows, Reference(pow10, matches))
            <==> !exists i :: 0 <= i < |matches| && matches[i].player1 == matches[i].player2
                     && (matches[i].winner == Some(matches[i].player1) || (matches[i].winner.None? && matches[i].isDraw))
  {
    NoSelfMatchCounted(matches);
    assert forall m: LegacyMatch :: RatedSelfMatch(m) <==>
             m.player1 == m.player2 && (m.winner == Some(m.player1) || (m.winner.None? && m.isDraw));
    ProcessedDiffer(pow10, matches);
    if !RatesASelfMatch(matches) {
      WithoutSelfMatchesAgrees(pow10, matches);
    }
  }

  /** On every stream of matches between two different players the calculator does what the reference does. */
  lemma CalculatorRefinesReference(pow10: real -> real, matches: seq<LegacyMatch>)
    requires ValidParams(LegacyParams(pow10))
    requires forall i :: 0 <= i < |matches| ==> matches[i].player1 != matches[i].player2
    ensures var (c, rows) := Fold(Params(1500.0, 32.0, pow10), AsMatches(matches)); Agrees(c, rows, Reference(pow10, matches))
  {
    AgreesExactlyWithoutSelfMatches(pow10, matches);
  }

  /** A player who beats itself: the reference rates the match, the calculator rejects it. */
  lemma SamePlayerParts(pow10: real -> real)
    requires ValidParams(LegacyParams(pow10))
    ensures var matches := [LegacyMatch(1, 1, 7, 7, Some(7), false)];
            && Reference(pow10, matches).processed == 1
            && Fold(LegacyParams(pow10), AsMatches(matches)).0 == Calc(map[], 0, 1)
  {
    var matches := [LegacyMatch(1, 1, 7, 7, Some(7), false)];
    assert matches[..0] == [];
    assert AsMatches(matches)[..0] == [];
    assert Fold(LegacyParams(pow10), AsMatches(matches)).0
        == Process(LegacyParams(pow10), EMPTY, AsMatch(matches[0])).0;
  }
}
