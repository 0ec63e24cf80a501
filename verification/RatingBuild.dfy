/** Previewing, snapshotting and calculating a rating run, as loops and as what they compute. */
module RatingBuilds {
  import opened Wrappers
  import opened Digests
  import opened RatingPolicies
  import E = Elo

  datatype BuildError =
    | IncompleteMatch | NonContiguous | RejectedInput | CountMismatch | BadRecord
    | RunMissing | WrongStatus | EmptyName

  // ---------------------------------------------------------------- the eligible inputs

  /** The inputs a policy draws from an ordered source, numbered from 1; a bad policy is an error. */
  function Eligible(policy: Policy, source: seq<Candidate>): Result<seq<RunInput>, BuildError> {
    if source == [] then Ok([])
    else
      var before := Eligible(policy, source[..|source| - 1]);
      var c := source[|source| - 1];
      if before.Err? || !Evaluate(policy, c).included then before
      else if !Complete(c) then Err(IncompleteMatch)
      else Ok(before.value + [InputFor(c, |before.value| + 1)])
  }

  /** How many source rows were left out for each reason. */
  function Exclusions(policy: Policy, source: seq<Candidate>): map<Reason, nat> {
    if source == [] then map[]
    else
      var before := Exclusions(policy, source[..|source| - 1]);
      var decision := Evaluate(policy, source[|source| - 1]);
      if decision.included then before else Bump(before, decision.reason)
  }

  function Bump(counts: map<Reason, nat>, reason: Reason): map<Reason, nat> {
    counts[reason := (if reason in counts then counts[reason] else 0) + 1]
  }

  function CountReason(policy: Policy, source: seq<Candidate>, reason: Reason): nat {
    if source == [] then 0
    else
      var decision := Evaluate(policy, source[|source| - 1]);
      CountReason(policy, source[..|source| - 1], reason) + if !decision.included && decision.reason == reason then 1 else 0
  }

  lemma {:induction false} ExclusionsCount(policy: Policy, source: seq<Candidate>, reason: Reason)
    ensures var counts := Exclusions(policy, source);
            (if reason in counts then counts[reason] else 0) == CountReason(policy, source, reason)
    ensures reason in Exclusions(policy, source) ==> CountReason(policy, source, reason) > 0
  {
    if source == [] {
    } else {
      ExclusionsCount(policy, source[..|source| - 1], reason);
    }
  }

  function ExcludedCount(policy: Policy, source: seq<Candidate>): nat {
    if source == [] then 0
    else ExcludedCount(policy, source[..|source| - 1]) + if Evaluate(policy, source[|source| - 1]).included then 0 else 1
  }

  ghost predicate WellNumbered(rows: seq<RunInput>) {
    forall i :: 0 <= i < |rows| ==> rows[i].sequence == i + 1 && E.Accepts(AsRatingMatch(rows[i]))
  }

  /** A policy never draws an error: every source row is an accepted input or counted as left out. */
  lemma {:induction false} EligibleIsAccepted(policy: Policy, source: seq<Candidate>)
    ensures Eligible(policy, source).Ok?
    ensures WellNumbered(Eligible(policy, source).value)
    ensures |Eligible(policy, source).value| + ExcludedCount(policy, source) == |source|
  {
    if source == [] {
    } else {
      EligibleIsAccepted(policy, source[..|source| - 1]);
      var c := source[|source| - 1];
      if Evaluate(policy, c).included {
        IncludedIsRated(policy, c, |Eligible(policy, source[..|source| - 1]).value| + 1);
      }
    }
  }

  /** The source rows the policy lets through, in source order. */
  function Included(policy: Policy, source: seq<Candidate>): seq<Candidate> {
    if source == [] then []
    else
      Included(policy, source[..|source| - 1])
      + if Evaluate(policy, source[|source| - 1]).included then [source[|source| - 1]] else []
  }

  /** Input `i + 1` of a snapshot is the `i`-th row the policy lets through: none is lost, added or moved. */
  lemma {:induction false} EligibleIsIncluded(policy: Policy, source: seq<Candidate>)
    ensures Eligible(policy, source).Ok? && |Eligible(policy, source).value| == |Included(policy, source)|
    ensures forall i :: 0 <= i < |Included(policy, source)| ==>
              && Complete(Included(policy, source)[i])
              && Eligible(policy, source).value[i] == InputFor(Included(policy, source)[i], i + 1)
  {
    if source == [] {
    } else {
      EligibleIsIncluded(policy, source[..|source| - 1]);
      var c := source[|source| - 1];
      if Evaluate(policy, c).included {
        IncludedIsRated(policy, c, 1);
      }
    }
  }

  lemma {:induction false} EligibleErrStays(policy: Policy, source: seq<Candidate>, n: nat)
    requires n <= |source| && Eligible(policy, source[..n]).Err?
    ensures Eligible(policy, source) == Eligible(policy, source[..n])
  {
    if n < |source| {
      assert source[..|source| - 1][..n] == source[..n];
      EligibleErrStays(policy, source[..|source| - 1], n);
    } else {
      assert source[..n] == source;
    }
  }

  /** The match ids of the inputs are those of distinct source rows. */
  lemma {:induction false} EligibleMatchIds(policy: Policy, source: seq<Candidate>, i: nat)
    requires Eligible(policy, source).Ok? && i < |Eligible(policy, source).value|
    ensures exists k :: 0 <= k < |source| && source[k].matchId == Eligible(policy, source).value[i].matchId
  {
    var front := source[..|source| - 1];
    if Eligible(policy, front).Ok? && i < |Eligible(policy, front).value| {
      EligibleMatchIds(policy, front, i);
      var k :| 0 <= k < |front| && front[k].matchId == Eligible(policy, front).value[i].matchId;
      assert source[k] == front[k];
    } else {
      assert source[|source| - 1].matchId == Eligible(policy, source).value[i].matchId;
    }
  }

  ghost predicate DistinctMatches(source: seq<Candidate>) {
    forall i, j :: 0 <= i < j < |source| ==> source[i].matchId != source[j].matchId
  }

  /** The unique constraint on (run, match) holds of every snapshot of a source keyed by match id. */
  lemma {:induction false} SnapshotKeysDistinct(policy: Policy, source: seq<Candidate>)
    requires DistinctMatches(source) && Eligible(policy, source).Ok?
    ensures var rows := Eligible(policy, source).value;
            forall i, j :: 0 <= i < j < |rows| ==> rows[i].matchId != rows[j].matchId
  {
    if source == [] {
    } else {
      var front := source[..|source| - 1];
      if Eligible(policy, front).Ok? {
        SnapshotKeysDistinct(policy, front);
        var rows := Eligible(policy, front).value;
        forall i | 0 <= i < |rows|
          ensures rows[i].matchId != source[|source| - 1].matchId
        {
          EligibleMatchIds(policy, front, i);
        }
      }
    }
  }

  datatype Preview = Preview(included: nat, digest: string, exclusions: map<Reason, nat>)

  /** Rows wait in the batch until it is full. */
  method AddToBatch<T>(inserted: seq<T>, batch: seq<T>, rows: seq<T>, batchSize: nat)
    returns (inserted': seq<T>, batch': seq<T>)
    ensures inserted' + batch' == inserted + batch + rows
    ensures batch' == [] || |batch'| < batchSize
  {
    if |batch + rows| >= batchSize {
      return inserted + (batch + rows), [];
    }
    return inserted, batch + rows;
  }

  /** One more source row of the scan. */
  lemma EligibleNext(policy: Policy, source: seq<Candidate>, i: nat, rows: seq<RunInput>)
    requires i < |source| && Eligible(policy, source[..i]) == Ok(rows)
    ensures var c := source[i]; var decision := Evaluate(policy, c);
            && Eligible(policy, source[..i + 1])
               == (if !decision.included then Ok(rows)
                   else if !Complete(c) then Err(IncompleteMatch)
                   else Ok(rows + [InputFor(c, |rows| + 1)]))
            && Exclusions(policy, source[..i + 1])
               == (if decision.included then Exclusions(policy, source[..i]) else Bump(Exclusions(policy, source[..i]), decision.reason))
  {
    assert source[..i + 1][..i] == source[..i];
  }

  lemma StreamNext(rows: seq<RunInput>, row: RunInput)
    ensures Stream(rows + [row]) == Stream(rows) + CanonicalInput(row)
  {
    assert (rows + [row])[..|rows|] == rows;
  }

  /** `preview_source`: scan, number, hash and count without writing. */
  method PreviewSource(policy: Policy, source: seq<Candidate>, sha: string -> string) returns (r: Result<Preview, BuildError>)
    ensures r == var rows := Eligible(policy, source);
                 if rows.Err? then Err(rows.error)
                 else Ok(Preview(|rows.value|, sha(Stream(rows.value)), Exclusions(policy, source)))
  {
    var text, exclusions, included := "", map[], 0;
    ghost var rows: seq<RunInput> := [];
    for i := 0 to |source|
      invariant Eligible(policy, source[..i]) == Ok(rows) && included == |rows| && text == Stream(rows)
      invariant exclusions == Exclusions(policy, source[..i])
    {
      EligibleNext(policy, source, i, rows);
      var decision := Evaluate(policy, source[i]);
      if !decision.included {
        exclusions := Bump(exclusions, decision.reason);
        continue;
      }
      if !Complete(source[i]) {
        EligibleErrStays(policy, source, i + 1);
        return Err(IncompleteMatch);
      }
      included := included + 1;
      var row := InputFor(source[i], included);
      text := text + CanonicalInput(row);
      StreamNext(rows, row);
      rows := rows + [row];
    }
    assert source[..|source|] == source;
    return Ok(Preview(included, sha(text), exclusions));
  }

  /** `_snapshot`: the same scan, inserting the inputs in batches. */
  method Snapshot(policy: Policy, source: seq<Candidate>, sha: string -> string, batchSize: nat)
    returns (r: Result<Preview, BuildError>, inserted: seq<RunInput>)
    requires batchSize > 0
    ensures r == var rows := Eligible(policy, source);
                 if rows.Err? then Err(rows.error)
                 else Ok(Preview(|rows.value|, sha(Stream(rows.value)), Exclusions(policy, source)))
    ensures r.Ok? ==> inserted == Eligible(policy, source).value
  {
    var text, exclusions, included, batch: seq<RunInput> := "", map[], 0, [];
    inserted := [];
    ghost var rows: seq<RunInput> := [];
    for i := 0 to |source|
      invariant Eligible(policy, source[..i]) == Ok(rows) && included == |rows| && text == Stream(rows)
      invariant exclusions == Exclusions(policy, source[..i])
      invariant inserted + batch == rows
    {
      EligibleNext(policy, source, i, rows);
      var decision := Evaluate(policy, source[i]);
      if !decision.included {
        exclusions := Bump(exclusions, decision.reason);
        continue;
      }
      if !Complete(source[i]) {
        EligibleErrStays(policy, source, i + 1);
        return Err(IncompleteMatch), inserted;
      }
      included := included + 1;
      var row := InputFor(source[i], included);
      text := text + CanonicalInput(row);
      StreamNext(rows, row);
      inserted, batch := AddToBatch(inserted, batch, [row], batchSize);
      rows := rows + [row];
      assert inserted + batch == rows;
    }
    assert source[..|source|] == source;
    return Ok(Preview(included, sha(text), exclusions)), inserted + batch;
  }

  // ---------------------------------------------------------------- calculation

  /** A `rating_history` row: its key is the run, the sequence number and the player. */
  datatype StoredRow = StoredRow(sequence: nat, entry: E.HistoryRow)

  function Numbered(sequence: nat, rows: seq<E.HistoryRow>): seq<StoredRow> {
    if rows == [] then [] else Numbered(sequence, rows[..|rows| - 1]) + [StoredRow(sequence, rows[|rows| - 1])]
  }

  datatype Calculated = Calculated(elo: E.Calc, history: seq<StoredRow>)

  /** One input of the loop: its position is checked, then it is rated. */
  function Rated(p: E.Params, c: Calculated, row: RunInput, position: nat): Result<Calculated, BuildError>
    requires forall x :: p.pow10(x) > 0.0
  {
    if row.sequence != position then Err(NonContiguous)
    else
      var (elo, history) := E.Process(p, c.elo, AsRatingMatch(row));
      if |history| != 2 then Err(RejectedInput)
      else Ok(Calculated(elo, c.history + Numbered(row.sequence, history)))
  }

  /** The loop of `_calculate_and_validate` over the inputs read back, with its two checks. */
  function Calculate(p: E.Params, rows: seq<RunInput>): Result<Calculated, BuildError>
    requires forall x :: p.pow10(x) > 0.0
  {
    if rows == [] then Ok(Calculated(E.EMPTY, []))
    else
      var before := Calculate(p, rows[..|rows| - 1]);
      if before.Err? then before else Rated(p, before.value, rows[|rows| - 1], |rows|)
  }

  predicate RecordsAddUp(players: E.Players) {
    forall id :: id in players ==>
      players[id].matches == players[id].wins + players[id].losses + players[id].draws
  }

  /** Every check between the last input and `mark_validated`, in order. */
  function Validated(c: Calculated, rows: seq<RunInput>, inputCount: nat): Result<Calculated, BuildError> {
    if |rows| != inputCount then Err(CountMismatch)
    else if c.elo.invalid != 0 then Err(RejectedInput)
    else if c.elo.processed != inputCount then Err(CountMismatch)
    else if !RecordsAddUp(c.elo.players) then Err(BadRecord)
    else if |c.history| != inputCount * 2 then Err(CountMismatch)
    else Ok(c)
  }

  function CalculateAndValidate(p: E.Params, rows: seq<RunInput>, inputCount: nat): Result<Calculated, BuildError>
    requires forall x :: p.pow10(x) > 0.0
  {
    var c := Calculate(p, rows);
    if c.Err? then c else Validated(c.value, rows, inputCount)
  }

  lemma {:induction false} CalculateErrStays(p: E.Params, rows: seq<RunInput>, n: nat)
    requires forall x :: p.pow10(x) > 0.0
    requires n <= |rows| && Calculate(p, rows[..n]).Err?
    ensures Calculate(p, rows) == Calculate(p, rows[..n])
  {
    if n < |rows| {
      assert rows[..|rows| - 1][..n] == rows[..n];
      CalculateErrStays(p, rows[..|rows| - 1], n);
    } else {
      assert rows[..n] == rows;
    }
  }

  lemma CalculateNext(p: E.Params, rows: seq<RunInput>, i: nat, c: Calculated)
    requires forall x :: p.pow10(x) > 0.0
    requires i < |rows| && Calculate(p, rows[..i]) == Ok(c)
    ensures Calculate(p, rows[..i + 1]) == Rated(p, c, rows[i], i + 1)
  {
    assert rows[..i + 1][..i] == rows[..i];
  }

  /** The body of the loop, as it changes the calculator: the history rows to insert, or the error. */
  method RateInput(calculator: E.EloCalculator, rows: seq<RunInput>, i: nat, position: nat, ghost c: Calculated)
    returns (r: Result<seq<StoredRow>, BuildError>)
    requires forall x :: calculator.params.pow10(x) > 0.0
    requires i < |rows| && position == i + 1
    requires Calculate(calculator.params, rows[..i]) == Ok(c) && c.elo == calculator.St()
    modifies calculator
    ensures r.Err? ==> Calculate(calculator.params, rows) == Err(r.error)
    ensures r.Ok? ==> Calculate(calculator.params, rows[..i + 1]) == Ok(Calculated(calculator.St(), c.history + r.value))
  {
    CalculateNext(calculator.params, rows, i, c);
    if rows[i].sequence != position {
      CalculateErrStays(calculator.params, rows, i + 1);
      return Err(NonContiguous);
    }
    var history := calculator.ProcessMatch(AsRatingMatch(rows[i]));
    if |history| != 2 {
      CalculateErrStays(calculator.params, rows, i + 1);
      return Err(RejectedInput);
    }
    return Ok(Numbered(rows[i].sequence, history));
  }

  /** Every input in turn; history rows go out in batches, the last one when the inputs are through. */
  method RateInputs(calculator: E.EloCalculator, rows: seq<RunInput>, batchSize: nat)
    returns (r: Result<seq<StoredRow>, BuildError>, seen: nat)
    requires forall x :: calculator.params.pow10(x) > 0.0
    requires calculator.St() == E.EMPTY && batchSize > 0
    modifies calculator
    ensures r.Err? ==> Calculate(calculator.params, rows) == Err(r.error)
    ensures r.Ok? ==> Calculate(calculator.params, rows) == Ok(Calculated(calculator.St(), r.value)) && seen == |rows|
  {
    var inserted, batch := [], [];
    seen := 0;
    ghost var c := Calculated(E.EMPTY, []);
    for i := 0 to |rows|
      invariant seen == i
      invariant Calculate(calculator.params, rows[..i]) == Ok(c) && c.elo == calculator.St()
      invariant c.history == inserted + batch
    {
      seen := seen + 1;
      var stored := RateInput(calculator, rows, i, seen, c);
      if stored.Err? {
        return Err(stored.error), seen;
      }
      c := Calculated(calculator.St(), c.history + stored.value);
      inserted, batch := AddToBatch(inserted, batch, stored.value, batchSize);
    }
    assert rows[..|rows|] == rows;
    return Ok(inserted + batch), seen;
  }

  /** `_calculate_and_validate`. */
  method CalculateRun(p: E.Params, rows: seq<RunInput>, inputCount: nat, batchSize: nat)
    returns (r: Result<Calculated, BuildError>)
    requires p.k > 0.0 && forall x :: p.pow10(x) > 0.0
    requires batchSize > 0
    ensures r == CalculateAndValidate(p, rows, inputCount)
  {
    var calculator := new E.EloCalculator(p);
    var history, seen := RateInputs(calculator, rows, batchSize);
    if history.Err? {
      return Err(history.error);
    }
    r := ValidateRun(Calculated(E.Calc(calculator.players, calculator.matchesProcessed, calculator.invalidMatches), history.value),
                     rows, seen, inputCount);
  }

  method ValidateRun(c: Calculated, ghost rows: seq<RunInput>, seen: nat, inputCount: nat)
    returns (r: Result<Calculated, BuildError>)
    requires seen == |rows|
    ensures r == Validated(c, rows, inputCount)
  {
    if seen != inputCount {
      return Err(CountMismatch);
    }
    if c.elo.invalid != 0 {
      return Err(RejectedInput);
    }
    if c.elo.processed != inputCount {
      return Err(CountMismatch);
    }
    if !RecordsAddUp(c.elo.players) {
      return Err(BadRecord);
    }
    if |c.history| != inputCount * 2 {
      return Err(CountMismatch);
    }
    return Ok(c);
  }

  // ---------------------------------------------------------------- a build of policy inputs never fails

  lemma NumberedTwo(sequence: nat, rows: seq<E.HistoryRow>)
    requires |rows| == 2
    ensures Numbered(sequence, rows) == [StoredRow(sequence, rows[0]), StoredRow(sequence, rows[1])]
  {
    assert rows[..1][..0] == [];
    assert Numbered(sequence, rows[..1]) == [StoredRow(sequence, rows[0])];
  }

  /** What the loop adds for one accepted input at its place. */
  lemma RatedAccepted(p: E.Params, c: Calculated, row: RunInput, position: nat)
    requires E.ValidParams(p) && E.Accepts(AsRatingMatch(row)) && row.sequence == position
    ensures var (elo, rows) := E.Process(p, c.elo, AsRatingMatch(row));
            && |rows| == 2 && rows[0].player == row.player1 && rows[1].player == row.player2 && row.player1 != row.player2
            && Rated(p, c, row, position)
               == Ok(Calculated(elo, c.history + [StoredRow(position, rows[0]), StoredRow(position, rows[1])]))
            && elo.processed == c.elo.processed + 1 && elo.invalid == c.elo.invalid
            && (RecordsAddUp(c.elo.players) ==> RecordsAddUp(elo.players))
  {
    NumberedTwo(position, E.Process(p, c.elo, AsRatingMatch(row)).1);
  }

  lemma CalculateLast(p: E.Params, rows: seq<RunInput>)
    requires E.ValidParams(p) && rows != [] && Calculate(p, rows[..|rows| - 1]).Ok?
    ensures Calculate(p, rows) == Rated(p, Calculate(p, rows[..|rows| - 1]).value, rows[|rows| - 1], |rows|)
  {
  }

  /** On well numbered inputs the loop is the plain fold over the matches. */
  lemma {:induction false} CalculateIsFold(p: E.Params, rows: seq<RunInput>)
    requires E.ValidParams(p) && WellNumbered(rows)
    ensures Calculate(p, rows).Ok?
    ensures Calculate(p, rows).value.elo == E.Fold(p, AsRatingMatches(rows)).0
    ensures Calculate(p, rows).value.elo.processed == |rows| && Calculate(p, rows).value.elo.invalid == 0
    ensures |Calculate(p, rows).value.history| == 2 * |rows|
    ensures RecordsAddUp(Calculate(p, rows).value.elo.players)
  {
    if rows == [] {
    } else {
      var front, last := rows[..|rows| - 1], rows[|rows| - 1];
      CalculateIsFold(p, front);
      CalculateLast(p, rows);
      RatedAccepted(p, Calculate(p, front).value, last, |rows|);
      FoldLast(p, rows);
    }
  }

  lemma FoldLast(p: E.Params, rows: seq<RunInput>)
    requires E.ValidParams(p) && rows != []
    ensures var front, last := rows[..|rows| - 1], rows[|rows| - 1];
            var before := E.Fold(p, AsRatingMatches(front));
            && E.Fold(p, AsRatingMatches(rows)).0 == E.Process(p, before.0, AsRatingMatch(last)).0
            && E.Fold(p, AsRatingMatches(rows)).1 == before.1 + E.Process(p, before.0, AsRatingMatch(last)).1
  {
    var matches := AsRatingMatches(rows);
    assert matches[..|rows| - 1] == AsRatingMatches(rows[..|rows| - 1]);
    assert matches[|rows| - 1] == AsRatingMatch(rows[|rows| - 1]);
  }

  /** The rows of the plain fold, two an input, under the number of their input. */
  function NumberedFold(p: E.Params, rows: seq<RunInput>): seq<StoredRow>
    requires forall x :: p.pow10(x) > 0.0
  {
    var fold := E.Fold(p, AsRatingMatches(rows)).1;
    seq(|fold|, k requires 0 <= k < |fold| => StoredRow(k / 2 + 1, fold[k]))
  }

  ghost predicate NumberedInTwos(history: seq<StoredRow>, fold: seq<E.HistoryRow>, n: nat) {
    && |history| == |fold| == 2 * n
    && forall k :: 0 <= k < |fold| ==> history[k] == StoredRow(k / 2 + 1, fold[k])
  }

  lemma TwoMoreRows(history: seq<StoredRow>, fold: seq<E.HistoryRow>, n: nat, two: seq<E.HistoryRow>)
    requires NumberedInTwos(history, fold, n) && |two| == 2
    ensures NumberedInTwos(history + [StoredRow(n + 1, two[0]), StoredRow(n + 1, two[1])], fold + two, n + 1)
  {
  }

  lemma {:induction false} HistoryInTwos(p: E.Params, rows: seq<RunInput>)
    requires E.ValidParams(p) && WellNumbered(rows)
    ensures Calculate(p, rows).Ok?
    ensures NumberedInTwos(Calculate(p, rows).value.history, E.Fold(p, AsRatingMatches(rows)).1, |rows|)
  {
    if rows == [] {
    } else {
      var front, last := rows[..|rows| - 1], rows[|rows| - 1];
      HistoryInTwos(p, front);
      CalculateIsFold(p, front);
      CalculateLast(p, rows);
      var c := Calculate(p, front).value;
      RatedAccepted(p, c, last, |rows|);
      FoldLast(p, rows);
      TwoMoreRows(c.history, E.Fold(p, AsRatingMatches(front)).1, |front|, E.Process(p, c.elo, AsRatingMatch(last)).1);
    }
  }

  lemma InTwosIsNumberedFold(p: E.Params, rows: seq<RunInput>, history: seq<StoredRow>)
    requires E.ValidParams(p) && NumberedInTwos(history, E.Fold(p, AsRatingMatches(rows)).1, |rows|)
    ensures history == NumberedFold(p, rows)
  {
    var numbered := NumberedFold(p, rows);
    assert |numbered| == |history|;
    assert forall k :: 0 <= k < |history| ==> history[k] == numbered[k];
  }

  /** The stored history is that of the plain fold, two rows an input, under the number of their input. */
  lemma HistoryIsFold(p: E.Params, rows: seq<RunInput>)
    requires E.ValidParams(p) && WellNumbered(rows)
    ensures Calculate(p, rows).Ok?
    ensures var history, fold := Calculate(p, rows).value.history, E.Fold(p, AsRatingMatches(rows)).1;
            && |history| == |fold| == 2 * |rows|
            && (forall k :: 0 <= k < |fold| ==> history[k] == StoredRow(k / 2 + 1, fold[k]))
            && history == NumberedFold(p, rows)
  {
    HistoryInTwos(p, rows);
    InTwosIsNumberedFold(p, rows, Calculate(p, rows).value.history);
  }

  /** What the calculation asks of the input at a place. */
  ghost predicate FitsPlace(row: RunInput, place: nat) {
    && row.sequence == place && row.player1 != row.player2
    && (row.winner == Some(row.player1) || row.winner == Some(row.player2) || (row.winner.None? && row.isDraw))
  }

  lemma FitsMeans(row: RunInput, place: nat)
    ensures FitsPlace(row, place) <==> row.sequence == place && E.Accepts(AsRatingMatch(row))
  {
  }

  /** The loop stops at the first input that does not fit. */
  lemma StopsAtMisfit(p: E.Params, rows: seq<RunInput>, i: nat)
    requires E.ValidParams(p) && i < |rows| && WellNumbered(rows[..i]) && !FitsPlace(rows[i], i + 1)
    ensures Calculate(p, rows) == Err(if rows[i].sequence != i + 1 then NonContiguous else RejectedInput)
  {
    FitsMeans(rows[i], i + 1);
    CalculateIsFold(p, rows[..i]);
    CalculateNext(p, rows, i, Calculate(p, rows[..i]).value);
    CalculateErrStays(p, rows, i + 1);
  }

  lemma {:induction false} FirstMisfit(rows: seq<RunInput>) returns (i: nat)
    ensures i <= |rows| && WellNumbered(rows[..i]) && (i < |rows| ==> !FitsPlace(rows[i], i + 1))
  {
    i := 0;
    while i < |rows| && FitsPlace(rows[i], i + 1)
      invariant i <= |rows| && WellNumbered(rows[..i])
    {
      FitsMeans(rows[i], i + 1);
      i := i + 1;
    }
  }

  /**
   A calculation goes through exactly when the stored inputs are as many as the snapshot
   counted, are numbered without a gap and are all matches with a result between two
   different players; otherwise the first input that does not fit decides the error.
   */
  lemma ValidatesExactly(p: E.Params, rows: seq<RunInput>, inputCount: nat)
    requires E.ValidParams(p)
    ensures var r := CalculateAndValidate(p, rows, inputCount);
            && (r.Ok? <==> |rows| == inputCount && forall i :: 0 <= i < |rows| ==> FitsPlace(rows[i], i + 1))
            && (r.Err? ==> r.error in {NonContiguous, RejectedInput, CountMismatch})
            && (r == Err(CountMismatch) <==>
                  |rows| != inputCount && forall i :: 0 <= i < |rows| ==> FitsPlace(rows[i], i + 1))
            && (r == Err(NonContiguous) <==>
                  exists i :: 0 <= i < |rows| && rows[i].sequence != i + 1
                              && forall j :: 0 <= j < i ==> FitsPlace(rows[j], j + 1))
  {
    var i := FirstMisfit(rows);
    assert forall j :: 0 <= j < i ==> rows[..i][j] == rows[j];
    forall j | 0 <= j < i
      ensures FitsPlace(rows[j], j + 1)
    {
      FitsMeans(rows[j], j + 1);
    }
    if i < |rows| {
      StopsAtMisfit(p, rows, i);
    } else {
      assert rows[..i] == rows;
      CalculateIsFold(p, rows);
    }
  }

  ghost predicate KeysDistinct(history: seq<StoredRow>, n: nat) {
    && (forall i :: 0 <= i < |history| ==> 1 <= history[i].sequence <= n)
    && (forall i, j :: 0 <= i < j < |history| ==>
          history[i].sequence != history[j].sequence || history[i].entry.player != history[j].entry.player)
  }

  lemma TwoMoreKeys(history: seq<StoredRow>, n: nat, a: StoredRow, b: StoredRow)
    requires KeysDistinct(history, n) && a.sequence == b.sequence == n + 1 && a.entry.player != b.entry.player
    ensures KeysDistinct(history + [a, b], n + 1)
  {
  }

  /** Two history rows of one run never share a key: each input adds one row for each of its players. */
  lemma {:induction false} HistoryKeysDistinct(p: E.Params, rows: seq<RunInput>)
    requires E.ValidParams(p) && WellNumbered(rows)
    ensures Calculate(p, rows).Ok? && KeysDistinct(Calculate(p, rows).value.history, |rows|)
  {
    if rows == [] {
    } else {
      var front, last := rows[..|rows| - 1], rows[|rows| - 1];
      HistoryKeysDistinct(p, front);
      CalculateLast(p, rows);
      var c := Calculate(p, front).value;
      RatedAccepted(p, c, last, |rows|);
      var history := E.Process(p, c.elo, AsRatingMatch(last)).1;
      TwoMoreKeys(c.history, |front|, StoredRow(|rows|, history[0]), StoredRow(|rows|, history[1]));
    }
  }

  /** No check of a build over policy inputs ever fails, and the ratings are the fold from scratch. */
  lemma BuildNeverFails(policy: Policy, source: seq<Candidate>, p: E.Params)
    requires E.ValidParams(p)
    ensures Eligible(policy, source).Ok?
    ensures var rows := Eligible(policy, source).value;
            var built := CalculateAndValidate(p, rows, |rows|);
            built.Ok? && built.value.elo == E.Fold(p, AsRatingMatches(rows)).0 && built.value.history == NumberedFold(p, rows)
  {
    EligibleIsAccepted(policy, source);
    CalculateIsFold(p, Eligible(policy, source).value);
    HistoryIsFold(p, Eligible(policy, source).value);
  }

  /** The history a from-scratch calculation gives for the source as it stands. */
  function FreshHistory(p: E.Params, policy: Policy, source: seq<Candidate>): seq<StoredRow>
    requires forall x :: p.pow10(x) > 0.0
  {
    var rows := Eligible(policy, source);
    if rows.Err? then [] else NumberedFold(p, rows.value)
  }

  /** The ratings a from-scratch calculation gives for the source as it stands. */
  function FreshRatings(p: E.Params, policy: Policy, source: seq<Candidate>): E.Players
    requires forall x :: p.pow10(x) > 0.0
  {
    var rows := Eligible(policy, source);
    if rows.Err? then map[] else E.Fold(p, AsRatingMatches(rows.value)).0.players
  }
}
