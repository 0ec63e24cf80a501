/** Which source matches are rated, and the proof that the calculator accepts every one of them. */
module RatingPolicies {
  import opened Wrappers
  import opened Digests
  import E = Elo

  /** One row of the ordered source query. */
  datatype Candidate = Candidate(
    matchId: int,
    eventId: int,
    player1: Option<int>,
    player2: Option<int>,
    winner: Option<int>,
    isDraw: bool,
    status: Option<string>,
    isBye: bool,
    isGhost: bool,
    participants: Option<int>,
    start: Option<Timestamp>,
    format: Option<string>,
    syncState: Option<string>,
    phaseOrder: int,
    roundNumber: int)

  /** The reasons, named as the policies spell them. */
  datatype Reason =
    | Included | MatchNotComplete | Bye | GhostMatch | NotTwoPlayer | MissingPlayer | SamePlayer | MissingResult
    | InvalidWinner | MissingEventStart | UnsupportedEventFormat | EventNotComplete

  datatype Decision = Decision(included: bool, reason: Reason)

  datatype Policy = LegacyParity | GlobalEloV1

  function Version(policy: Policy): string {
    match policy
    case LegacyParity => "legacy_parity_v1"
    case GlobalEloV1 => "global_elo_v1"
  }

  function EvaluateLegacy(c: Candidate): Decision {
    if c.status != Some("COMPLETE") then Decision(false, MatchNotComplete)
    else if c.isBye then Decision(false, Bye)
    else if c.isGhost then Decision(false, GhostMatch)
    else if c.participants != Some(2) then Decision(false, NotTwoPlayer)
    else if c.player1.None? || c.player2.None? then Decision(false, MissingPlayer)
    else if c.player1 == c.player2 then Decision(false, SamePlayer)
    else if c.winner.None? && !c.isDraw then Decision(false, MissingResult)
    else if c.winner.Some? && c.winner != c.player1 && c.winner != c.player2 then Decision(false, InvalidWinner)
    else if c.start.None? then Decision(false, MissingEventStart)
    else Decision(true, Included)
  }

  function Evaluate(policy: Policy, c: Candidate): Decision {
    var base := EvaluateLegacy(c);
    if policy == LegacyParity || !base.included then base
    else if c.format != Some("Core Constructed") && c.format != Some("Infinity Constructed") then
      Decision(false, UnsupportedEventFormat)
    else if c.syncState != Some("complete") then Decision(false, EventNotComplete)
    else Decision(true, Included)
  }

  /** Complete calculation facts: what a policy must never include a match without. */
  predicate Complete(c: Candidate) { c.player1.Some? && c.player2.Some? && c.start.Some? }

  function InputFor(c: Candidate, sequence: nat): RunInput
    requires Complete(c)
  {
    RunInput(sequence, c.matchId, c.eventId, c.start.value, c.phaseOrder, c.roundNumber,
             c.player1.value, c.player2.value, c.winner, c.isDraw)
  }

  function AsRatingMatch(row: RunInput): E.Match {
    E.Match(row.matchId, row.eventId, Some(row.player1), Some(row.player2), row.winner, row.isDraw)
  }

  function AsRatingMatches(rows: seq<RunInput>): (matches: seq<E.Match>)
    ensures |matches| == |rows|
  {
    if rows == [] then [] else AsRatingMatches(rows[..|rows| - 1]) + [AsRatingMatch(rows[|rows| - 1])]
  }

  // ---------------------------------------------------------------- what is included, and why not

  /** What each reason says about a candidate. */
  predicate Applies(policy: Policy, c: Candidate, reason: Reason) {
    match reason
    case Included => true
    case MatchNotComplete => c.status != Some("COMPLETE")
    case Bye => c.isBye
    case GhostMatch => c.isGhost
    case NotTwoPlayer => c.participants != Some(2)
    case MissingPlayer => c.player1 == None || c.player2 == None
    case SamePlayer => c.player1 == c.player2
    case MissingResult => c.winner == None && !c.isDraw
    case InvalidWinner => c.winner != None && c.winner != c.player1 && c.winner != c.player2
    case MissingEventStart => c.start == None
    case UnsupportedEventFormat =>
      policy == GlobalEloV1 && !(c.format.Some? && c.format.value in {"Core Constructed", "Infinity Constructed"})
    case EventNotComplete => policy == GlobalEloV1 && c.syncState != Some("complete")
  }

  /** The order in which reasons are looked for; nothing comes after being included. */
  const REASONS := [MatchNotComplete, Bye, GhostMatch, NotTwoPlayer, MissingPlayer, SamePlayer, MissingResult,
                    InvalidWinner, MissingEventStart, UnsupportedEventFormat, EventNotComplete, Included]

  /** The decision is the first reason that applies, and the match is included exactly if none does. */
  lemma FirstReasonDecides(policy: Policy, c: Candidate, i: nat)
    requires i < |REASONS|
    ensures var decision := Evaluate(policy, c);
            && (decision.reason == REASONS[i] <==>
                  Applies(policy, c, REASONS[i]) && forall j :: 0 <= j < i ==> !Applies(policy, c, REASONS[j]))
            && (decision.included <==> forall reason: Reason :: Applies(policy, c, reason) ==> reason == Included)
            && (decision.included <==> decision.reason == Included)
  {
    var decision := Evaluate(policy, c);
    forall j | 0 <= j < |REASONS|
      ensures decision.reason == REASONS[j] ==>
                Applies(policy, c, REASONS[j]) && forall k :: 0 <= k < j ==> !Applies(policy, c, REASONS[k])
    {
    }
    var place := PlaceOf(decision.reason);
  }

  lemma PlaceOf(reason: Reason) returns (i: nat)
    ensures i < |REASONS| && REASONS[i] == reason
  {
    i := match reason
         case MatchNotComplete => 0 case Bye => 1 case GhostMatch => 2 case NotTwoPlayer => 3 case MissingPlayer => 4
         case SamePlayer => 5 case MissingResult => 6 case InvalidWinner => 7 case MissingEventStart => 8
         case UnsupportedEventFormat => 9 case EventNotComplete => 10 case Included => 11;
  }

  /** Whatever a policy includes is complete, reaches the calculator with its own facts, and is rated there. */
  lemma IncludedIsRated(policy: Policy, c: Candidate, sequence: nat)
    requires Evaluate(policy, c).included
    ensures Complete(c) && E.Accepts(AsRatingMatch(InputFor(c, sequence)))
    ensures var row := InputFor(c, sequence);
            && (row.sequence, row.matchId, row.eventId, row.phaseOrder, row.roundNumber)
               == (sequence, c.matchId, c.eventId, c.phaseOrder, c.roundNumber)
            && (Some(row.start), Some(row.player1), Some(row.player2), row.winner, row.isDraw)
               == (c.start, c.player1, c.player2, c.winner, c.isDraw)
    ensures var m := AsRatingMatch(InputFor(c, sequence));
            (m.matchId, m.eventId, m.player1, m.player2, m.winner, m.isDraw)
            == (c.matchId, c.eventId, c.player1, c.player2, c.winner, c.isDraw)
  {
  }

  /** The production policy rates only matches the historical one rates. */
  lemma GlobalIsStricter(c: Candidate)
    ensures Evaluate(GlobalEloV1, c).included ==> Evaluate(LegacyParity, c).included
    ensures Evaluate(GlobalEloV1, c).included <==>
              Evaluate(LegacyParity, c).included && c.syncState == Some("complete")
              && (c.format == Some("Core Constructed") || c.format == Some("Infinity Constructed"))
  {
  }
}
