/**
 The canonical line of a rating input, and a decoder that undoes it: two input
 sequences that feed the digest the same bytes are equal. Every character printed is
 ASCII, so the UTF-8 bytes are the characters.
 */
module Digests {
  import opened Wrappers
  import opened Texts

  /** A UTC timestamp with microseconds; `astimezone(utc)` has been applied. */
  datatype Stamp = Stamp(year: nat, month: nat, day: nat, hour: nat, minute: nat, second: nat, micro: nat) {
    predicate Valid() {
      year < 10_000 && month < 100 && day < 100 && hour < 100 && minute < 100 && second < 100 && micro < 1_000_000
    }
  }

  /** Calendar bounds are wider than the calendar's: only the printed widths matter. */
  type Timestamp = s: Stamp | s.Valid() witness Stamp(1, 1, 1, 0, 0, 0, 0)

  datatype RunInput = RunInput(
    sequence: nat,
    matchId: int,
    eventId: int,
    start: Timestamp,
    phaseOrder: int,
    roundNumber: int,
    player1: int,
    player2: int,
    winner: Option<int>,
    isDraw: bool)

  // ---------------------------------------------------------------- printing

  function DateText(t: Timestamp): string { Padded(t.year, 4) + "-" + Padded(t.month, 2) + "-" + Padded(t.day, 2) }

  function TimeText(t: Timestamp): string {
    Padded(t.hour, 2) + ":" + Padded(t.minute, 2) + ":" + Padded(t.second, 2) + "." + Padded(t.micro, 6)
  }

  /** A JSON string holding `isoformat(timespec="microseconds")`. */
  function StampText(t: Timestamp): string { Quoted(DateText(t), TimeText(t)) }

  function Quoted(date: string, time: string): string { "\"" + date + "T" + time + "+00:00\"" }

  function OptionText(n: Option<int>): string { if n.None? then "null" else IntText(n.value) }

  function BoolText(b: bool): string { if b then "true" else "false" }

  function Fields(row: RunInput): (fields: seq<string>)
    ensures |fields| == 10
  {
    [IntText(row.sequence), IntText(row.matchId), IntText(row.eventId), StampText(row.start),
     IntText(row.phaseOrder), IntText(row.roundNumber), IntText(row.player1), IntText(row.player2),
     OptionText(row.winner), BoolText(row.isDraw)]
  }

  /** The JSON array without blanks, up to but not including the newline. */
  function Line(row: RunInput): string { "[" + Join(Fields(row), ',') + "]" }

  function CanonicalInput(row: RunInput): string { Line(row) + "\n" }

  /** Everything `digest.update` is given, in order. */
  function Stream(rows: seq<RunInput>): string { Framed(rows, Line) }

  // ---------------------------------------------------------------- reading back

  function ReadOption(s: string): Option<int> { if s == "null" then None else ParseInt(s) }

  function ReadStamp(s: string): Option<Timestamp> {
    if |s| != 34 || !AllDigits(s[1..5]) || !AllDigits(s[6..8]) || !AllDigits(s[9..11]) || !AllDigits(s[12..14])
       || !AllDigits(s[15..17]) || !AllDigits(s[18..20]) || !AllDigits(s[21..27]) then None
    else
      var t := Stamp(NatValue(s[1..5]), NatValue(s[6..8]), NatValue(s[9..11]), NatValue(s[12..14]),
                     NatValue(s[15..17]), NatValue(s[18..20]), NatValue(s[21..27]));
      if t.Valid() then Some(t) else None
  }

  function ReadFields(f: seq<string>): Option<RunInput>
    requires |f| == 10
  {
    var sequence, matchId, eventId, start := ParseInt(f[0]), ParseInt(f[1]), ParseInt(f[2]), ReadStamp(f[3]);
    var phase, round, id1, id2 := ParseInt(f[4]), ParseInt(f[5]), ParseInt(f[6]), ParseInt(f[7]);
    if sequence.None? || sequence.value < 0 || matchId.None? || eventId.None? || start.None?
       || phase.None? || round.None? || id1.None? || id2.None? then None
    else Some(RunInput(sequence.value, matchId.value, eventId.value, start.value, phase.value, round.value,
                       id1.value, id2.value, ReadOption(f[8]), f[9] == "true"))
  }

  function ReadLine(s: string): Option<RunInput> {
    if |s| < 2 then None
    else
      var fields := Split(s[1..|s| - 1], ',');
      if |fields| != 10 then None else ReadFields(fields)
  }

  function Decode(stream: string): Option<seq<RunInput>> { Unframe(stream, ReadLine) }

  // ---------------------------------------------------------------- proofs

  lemma IntTextPlain(n: int)
    ensures Free(IntText(n), ',') && Free(IntText(n), '\n') && IntText(n) != "null"
    ensures ParseInt(IntText(n)) == Some(n)
  {
    IntRoundTrip(n);
    assert IntText(n)[0] == '-' || IsDigit(IntText(n)[0]);
  }

  lemma DigitsPlain(s: string)
    requires AllDigits(s)
    ensures Free(s, ',') && Free(s, '\n')
  {
  }

  lemma FreeConcat(a: string, b: string, sep: char)
    requires Free(a, sep) && Free(b, sep)
    ensures Free(a + b, sep)
  {
  }

  lemma DateTextReads(t: Timestamp)
    ensures var s := DateText(t); |s| == 10 && s[0..4] == Padded(t.year, 4) && s[5..7] == Padded(t.month, 2)
                                  && s[8..10] == Padded(t.day, 2) && Free(s, ',') && Free(s, '\n')
  {
    DigitsPlain(Padded(t.year, 4));
    DigitsPlain(Padded(t.month, 2));
    DigitsPlain(Padded(t.day, 2));
  }

  lemma TimeTextReads(t: Timestamp)
    ensures var s := TimeText(t); |s| == 15 && s[0..2] == Padded(t.hour, 2) && s[3..5] == Padded(t.minute, 2)
                                  && s[6..8] == Padded(t.second, 2) && s[9..15] == Padded(t.micro, 6)
                                  && Free(s, ',') && Free(s, '\n')
  {
    DigitsPlain(Padded(t.hour, 2));
    DigitsPlain(Padded(t.minute, 2));
    DigitsPlain(Padded(t.second, 2));
    DigitsPlain(Padded(t.micro, 6));
  }

  lemma Middle(a: string, b: string, c: string)
    ensures (a + b + c)[|a|..|a| + |b|] == b
  {
  }

  lemma QuotedSlices(date: string, time: string)
    requires |date| == 10 && |time| == 15
    ensures var s := Quoted(date, time); |s| == 34 && s[1..11] == date && s[12..27] == time
  {
    var zone := "+00:00\"";
    assert Quoted(date, time) == "\"" + date + ("T" + time + zone);
    Middle("\"", date, "T" + time + zone);
    assert Quoted(date, time) == ("\"" + date + "T") + time + zone;
    Middle("\"" + date + "T", time, zone);
  }

  lemma StampTextSlices(t: Timestamp)
    ensures var s := StampText(t); |s| == 34 && s[1..11] == DateText(t) && s[12..27] == TimeText(t)
  {
    DateTextReads(t);
    TimeTextReads(t);
    QuotedSlices(DateText(t), TimeText(t));
  }

  lemma StampTextPlain(t: Timestamp, sep: char)
    requires sep == ',' || sep == '\n'
    ensures Free(StampText(t), sep)
  {
    DateTextReads(t);
    TimeTextReads(t);
    FreeConcat("\"", DateText(t), sep);
    FreeConcat("\"" + DateText(t), "T", sep);
    FreeConcat("\"" + DateText(t) + "T", TimeText(t), sep);
    FreeConcat("\"" + DateText(t) + "T" + TimeText(t), "+00:00\"", sep);
  }

  lemma SubSlice(s: string, lo: nat, hi: nat, a: nat, b: nat)
    requires lo <= hi <= |s| && a <= b <= hi - lo
    ensures s[lo..hi][a..b] == s[lo + a..lo + b]
  {
    assert forall i :: 0 <= i < b - a ==> s[lo..hi][a..b][i] == s[lo + a + i];
  }

  /** Where the seven numerals stand. */
  lemma StampPieces(t: Timestamp)
    ensures var s := StampText(t);
            && |s| == 34
            && s[1..5] == Padded(t.year, 4) && s[6..8] == Padded(t.month, 2) && s[9..11] == Padded(t.day, 2)
            && s[12..14] == Padded(t.hour, 2) && s[15..17] == Padded(t.minute, 2) && s[18..20] == Padded(t.second, 2)
            && s[21..27] == Padded(t.micro, 6)
  {
    var s := StampText(t);
    StampTextSlices(t);
    DateTextReads(t);
    TimeTextReads(t);
    SubSlice(s, 1, 11, 0, 4);
    SubSlice(s, 1, 11, 5, 7);
    SubSlice(s, 1, 11, 8, 10);
    SubSlice(s, 12, 27, 0, 2);
    SubSlice(s, 12, 27, 3, 5);
    SubSlice(s, 12, 27, 6, 8);
    SubSlice(s, 12, 27, 9, 15);
  }

  lemma StampRoundTrip(t: Timestamp)
    ensures ReadStamp(StampText(t)) == Some(t)
  {
    StampPieces(t);
    PowersOfTen();
    PaddedRoundTrip(t.year, 4);
    PaddedRoundTrip(t.month, 2);
    PaddedRoundTrip(t.day, 2);
    PaddedRoundTrip(t.hour, 2);
    PaddedRoundTrip(t.minute, 2);
    PaddedRoundTrip(t.second, 2);
    PaddedRoundTrip(t.micro, 6);
  }

  lemma PowersOfTen()
    ensures Power10(2) == 100 && Power10(4) == 10_000 && Power10(6) == 1_000_000
  {
    assert Power10(3) == 1000;
    assert Power10(5) == 100_000;
  }

  ghost predicate Plain(s: string) { Free(s, ',') && Free(s, '\n') }

  lemma IntPlain(n: int)
    ensures Plain(IntText(n))
  {
    IntTextPlain(n);
  }

  lemma FieldsPlain(row: RunInput)
    ensures forall i :: 0 <= i < 10 ==> Plain(Fields(row)[i])
  {
    var f := Fields(row);
    assert Plain(f[0]) by { IntPlain(row.sequence); }
    assert Plain(f[1]) by { IntPlain(row.matchId); }
    assert Plain(f[2]) by { IntPlain(row.eventId); }
    assert Plain(f[3]) by { StampTextPlain(row.start, ','); StampTextPlain(row.start, '\n'); }
    assert Plain(f[4]) by { IntPlain(row.phaseOrder); }
    assert Plain(f[5]) by { IntPlain(row.roundNumber); }
    assert Plain(f[6]) by { IntPlain(row.player1); }
    assert Plain(f[7]) by { IntPlain(row.player2); }
    assert Plain(f[8]) by { if row.winner.Some? { IntPlain(row.winner.value); } }
    assert Plain(f[9]);
  }

  lemma IntReads(n: int)
    ensures ParseInt(IntText(n)) == Some(n)
  {
    IntTextPlain(n);
  }

  lemma OptionReads(n: Option<int>)
    ensures ReadOption(OptionText(n)) == n
  {
    if n.Some? {
      IntTextPlain(n.value);
    }
  }

  lemma FieldsRoundTrip(row: RunInput)
    ensures ReadFields(Fields(row)) == Some(row)
  {
    IntReads(row.sequence);
    IntReads(row.matchId);
    IntReads(row.eventId);
    StampRoundTrip(row.start);
    IntReads(row.phaseOrder);
    IntReads(row.roundNumber);
    IntReads(row.player1);
    IntReads(row.player2);
    OptionReads(row.winner);
    assert BoolText(row.isDraw) == "true" <==> row.isDraw;
  }

  lemma {:induction false} JoinFree(parts: seq<string>, sep: char, other: char)
    requires |parts| >= 1 && sep != other && forall i :: 0 <= i < |parts| ==> Free(parts[i], other)
    ensures Free(Join(parts, sep), other)
  {
    if |parts| <= 1 {
    } else {
      JoinFree(parts[1..], sep, other);
    }
  }

  lemma LineFields(row: RunInput)
    ensures |Line(row)| >= 2 && Split(Line(row)[1..|Line(row)| - 1], ',') == Fields(row)
  {
    FieldsPlain(row);
    assert forall i :: 0 <= i < 10 ==> Plain(Fields(row)[i]) ==> Free(Fields(row)[i], ',');
    SplitUndoesJoin(Fields(row), ',');
    assert Line(row)[1..|Line(row)| - 1] == Join(Fields(row), ',');
  }

  lemma LinePlain(row: RunInput)
    ensures Free(Line(row), '\n')
  {
    FieldsPlain(row);
    assert forall i :: 0 <= i < 10 ==> Plain(Fields(row)[i]) ==> Free(Fields(row)[i], '\n');
    JoinFree(Fields(row), ',', '\n');
  }

  /** A line reads back as its row. */
  lemma LineRoundTrip(row: RunInput)
    ensures ReadLine(Line(row)) == Some(row)
  {
    LineFields(row);
    FieldsRoundTrip(row);
    var fields := Split(Line(row)[1..|Line(row)| - 1], ',');
    assert fields == Fields(row);
    assert ReadLine(Line(row)) == ReadFields(fields);
  }

  /** The decoder recovers every input sequence from its byte stream. */
  lemma StreamRoundTrip(rows: seq<RunInput>)
    ensures Decode(Stream(rows)) == Some(rows)
  {
    forall i | 0 <= i < |rows|
      ensures Free(Line(rows[i]), '\n') && ReadLine(Line(rows[i])) == Some(rows[i])
    {
      LineRoundTrip(rows[i]);
      LinePlain(rows[i]);
    }
    UnframeUndoesFramed(rows, Line, ReadLine);
  }

  /** The characters of a timestamp that are not digits. */
  lemma StampMarks(t: Timestamp)
    ensures var s := StampText(t);
            && |s| == 34 && s[0] == '"' && s[5] == s[8] == '-' && s[11] == 'T' && s[14] == s[17] == ':' && s[20] == '.'
            && s[27..] == "+00:00\""
  {
    DateTextReads(t);
    TimeTextReads(t);
    StampTextSlices(t);
    var s, date, time := StampText(t), DateText(t), TimeText(t);
    assert s == "\"" + date + "T" + time + "+00:00\"";
    assert s[1..11][4] == date[4] && s[1..11][7] == date[7];
    assert s[12..27][2] == time[2] && s[12..27][5] == time[5] && s[12..27][8] == time[8];
    assert ("\"" + date + "T" + time)[..27] == "\"" + date + "T" + time;
  }

  /**
   The line as JSON without blanks: ten values between brackets, split by commas; integers as
   `LineRoundTrip` reads them, a missing winner as null, and the draw as a truth value.
   */
  lemma LineShape(row: RunInput)
    ensures var s := Line(row);
            && |s| >= 2 && s[0] == '[' && s[|s| - 1] == ']'
            && var fields := Split(s[1..|s| - 1], ',');
               && |fields| == 10
               && fields[0] == IntText(row.sequence) && fields[1] == IntText(row.matchId) && fields[2] == IntText(row.eventId)
               && fields[3] == StampText(row.start) && fields[4] == IntText(row.phaseOrder)
               && fields[5] == IntText(row.roundNumber) && fields[6] == IntText(row.player1)
               && fields[7] == IntText(row.player2)
               && fields[8] == (if row.winner.None? then "null" else IntText(row.winner.value))
               && fields[9] == (if row.isDraw then "true" else "false")
  {
    LineFields(row);
    assert Line(row) == "[" + Join(Fields(row), ',') + "]";
  }

  ghost predicate Injective(digest: string -> string) {
    forall a, b :: digest(a) == digest(b) ==> a == b
  }

  /** With an injective digest, equal digests mean equal inputs in the same order. */
  lemma DigestDetermines(digest: string -> string, a: seq<RunInput>, b: seq<RunInput>)
    requires Injective(digest) && digest(Stream(a)) == digest(Stream(b))
    ensures a == b
  {
    StreamRoundTrip(a);
    StreamRoundTrip(b);
  }
}
