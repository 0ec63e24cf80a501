/** Splitting, joining and decimal numerals: the string operations the program leans on. */
module Texts {
  import opened Wrappers

  // ---------------------------------------------------------------- split and join

  predicate Free(s: string, sep: char) { forall i :: 0 <= i < |s| ==> s[i] != sep }

  /** `s.split(sep)`: always at least one part, and no part contains the separator. */
  function Split(s: string, sep: char): (parts: seq<string>)
    ensures |parts| >= 1
    ensures forall i :: 0 <= i < |parts| ==> Free(parts[i], sep)
  {
    if s == "" then [""]
    else
      var rest := Split(s[1..], sep);
      if s[0] == sep then [""] + rest else [[s[0]] + rest[0]] + rest[1..]
  }

  /** `sep.join(parts)`. */
  function Join(parts: seq<string>, sep: char): string
    requires |parts| >= 1
  {
    if |parts| == 1 then parts[0] else parts[0] + [sep] + Join(parts[1..], sep)
  }

  lemma {:induction false} SplitFree(part: string, sep: char, rest: string)
    requires Free(part, sep)
    ensures Split(part + [sep] + rest, sep) == [part] + Split(rest, sep)
  {
    var whole := part + [sep] + rest;
    if part == "" {
      assert whole[1..] == rest;
    } else {
      assert whole[1..] == part[1..] + [sep] + rest;
      SplitFree(part[1..], sep, rest);
      assert [part[0]] + part[1..] == part;
    }
  }

  lemma {:induction false} SplitWhole(part: string, sep: char)
    requires Free(part, sep)
    ensures Split(part, sep) == [part]
  {
    if part == "" {
    } else {
      SplitWhole(part[1..], sep);
      assert [part[0]] + part[1..] == part;
    }
  }

  /** Splitting undoes joining when no part contains the separator. */
  lemma {:induction false} SplitUndoesJoin(parts: seq<string>, sep: char)
    requires |parts| >= 1 && forall i :: 0 <= i < |parts| ==> Free(parts[i], sep)
    ensures Split(Join(parts, sep), sep) == parts
  {
    if |parts| == 1 {
      SplitWhole(parts[0], sep);
    } else {
      SplitUndoesJoin(parts[1..], sep);
      SplitFree(parts[0], sep, Join(parts[1..], sep));
    }
  }

  // ---------------------------------------------------------------- numerals

  predicate IsDigit(c: char) { '0' <= c <= '9' }

  function DigitOf(n: nat): (c: char)
    requires n < 10
    ensures IsDigit(c) && DigitValue(c) == n
  {
    (n as char + '0')
  }

  function DigitValue(c: char): nat
    requires IsDigit(c)
  {
    c as int - '0' as int
  }

  predicate AllDigits(s: string) { forall i :: 0 <= i < |s| ==> IsDigit(s[i]) }

  function NatText(n: nat): (s: string)
    ensures |s| >= 1 && AllDigits(s)
    ensures s[0] == '0' ==> s == "0"
  {
    if n < 10 then [DigitOf(n)] else NatText(n / 10) + [DigitOf(n % 10)]
  }

  function NatValue(s: string): nat
    requires AllDigits(s)
  {
    if s == "" then 0 else NatValue(s[..|s| - 1]) * 10 + DigitValue(s[|s| - 1])
  }

  lemma {:induction false} NatRoundTrip(n: nat)
    ensures NatValue(NatText(n)) == n
  {
    if n >= 10 {
      NatRoundTrip(n / 10);
      assert NatText(n)[..|NatText(n)| - 1] == NatText(n / 10);
    } else {
      assert NatText(n)[..0] == "";
    }
  }

  function IntText(n: int): string { if n < 0 then "-" + NatText(-n) else NatText(n) }

  /** `int(text)` for an optional sign and decimal digits; anything else raises. */
  function ParseInt(s: string): Option<int> {
    if s == "" then None
    else
      var digits := if s[0] == '-' || s[0] == '+' then s[1..] else s;
      if digits == "" || !AllDigits(digits) then None
      else
        var magnitude: int := NatValue(digits);
        Some(if s[0] == '-' then -magnitude else magnitude)
  }

  function Power10(w: nat): nat { if w == 0 then 1 else 10 * Power10(w - 1) }

  lemma {:induction false} NatValueJoined(a: string, b: string)
    requires AllDigits(a) && AllDigits(b)
    ensures NatValue(a + b) == NatValue(a) * Power10(|b|) + NatValue(b)
    decreases |b|
  {
    if b == "" {
      assert a + b == a;
    } else {
      var front := b[..|b| - 1];
      NatValueJoined(a, front);
      JoinedLast(a, b);
      OneMoreDigit(NatValue(a), Power10(|front|), NatValue(front), DigitValue(b[|b| - 1]));
    }
  }

  lemma JoinedLast(a: string, b: string)
    requires AllDigits(a) && AllDigits(b) && b != ""
    ensures NatValue(a + b) == NatValue(a + b[..|b| - 1]) * 10 + DigitValue(b[|b| - 1])
  {
    assert (a + b)[..|a + b| - 1] == a + b[..|b| - 1];
  }

  lemma OneMoreDigit(a: nat, power: nat, rest: nat, digit: nat)
    ensures (a * power + rest) * 10 + digit == a * (10 * power) + (rest * 10 + digit)
  {
  }

  /** `int` reads digits after at most one sign, in the decimal system (`NatValueJoined`, `OneDigit`). */
  lemma ParseIntReads(digits: string)
    requires digits != "" && AllDigits(digits)
    ensures var n: int := NatValue(digits);
            ParseInt(digits) == Some(n) && ParseInt("+" + digits) == Some(n) && ParseInt("-" + digits) == Some(-n)
  {
    assert ("+" + digits)[1..] == digits && ("-" + digits)[1..] == digits;
  }

  lemma OneDigit(digit: char)
    requires '0' <= digit <= '9'
    ensures NatValue([digit]) == digit as int - '0' as int && Power10(1) == 10 && Power10(0) == 1
  {
    assert [digit][..0] == "";
  }

  /** And it reads nothing else. */
  lemma ParseIntRefuses(s: string)
    ensures ParseInt(s).Some? ==>
              exists n: nat :: n <= 1 && n < |s| && AllDigits(s[n..]) && (n == 1 ==> s[0] == '+' || s[0] == '-')
  {
    if ParseInt(s).Some? {
      var n: nat := if s[0] == '-' || s[0] == '+' then 1 else 0;
      assert n < |s| && AllDigits(s[n..]);
    }
  }

  lemma IntRoundTrip(n: int)
    ensures ParseInt(IntText(n)) == Some(n)
    ensures forall i :: 0 <= i < |IntText(n)| ==> IntText(n)[i] == '-' || IsDigit(IntText(n)[i])
  {
    if n < 0 {
      NatRoundTrip(-n);
      assert IntText(n)[1..] == NatText(-n);
    } else {
      NatRoundTrip(n);
      assert IsDigit(IntText(n)[0]);
    }
  }

  /** Zero-padded to exactly `w` digits. */
  function Padded(n: nat, w: nat): (s: string)
    ensures |s| == w && AllDigits(s)
  {
    if w == 0 then "" else Padded(n / 10, w - 1) + [DigitOf(n % 10)]
  }

  lemma {:induction false} PaddedRoundTrip(n: nat, w: nat)
    requires n < Power10(w)
    ensures NatValue(Padded(n, w)) == n
  {
    if w == 0 {
    } else {
      PaddedRoundTrip(n / 10, w - 1);
      assert Padded(n, w)[..w - 1] == Padded(n / 10, w - 1);
    }
  }

  // ---------------------------------------------------------------- newline framing

  /** One printed line for each item, each followed by a newline. */
  function Framed<T>(items: seq<T>, print1: T -> string): string {
    if items == [] then "" else Framed(items[..|items| - 1], print1) + (print1(items[|items| - 1]) + "\n")
  }

  function ReadAll<T>(lines: seq<string>, read1: string -> Option<T>): Option<seq<T>> {
    if lines == [] then Some([])
    else
      var before, last := ReadAll(lines[..|lines| - 1], read1), read1(lines[|lines| - 1]);
      if before.None? || last.None? then None else Some(before.value + [last.value])
  }

  /** Every line ends in a newline, so the last part of the split is empty and is dropped. */
  function Unframe<T>(text: string, read1: string -> Option<T>): Option<seq<T>> {
    var lines := Split(text, '\n');
    ReadAll(lines[..|lines| - 1], read1)
  }

  lemma {:induction false} SplitAppend(s: string, part: string, sep: char)
    requires Free(part, sep) && Split(s, sep)[|Split(s, sep)| - 1] == ""
    ensures Split(s + part + [sep], sep) == Split(s, sep)[..|Split(s, sep)| - 1] + [part, ""]
  {
    if s == "" {
      assert s + part + [sep] == part + [sep] + "";
      SplitFree(part, sep, "");
    } else {
      var rest := Split(s[1..], sep);
      assert s[0] != sep ==> |rest| > 1;
      assert rest[|rest| - 1] == "";
      SplitAppend(s[1..], part, sep);
      assert (s + part + [sep])[1..] == s[1..] + part + [sep];
    }
  }

  /** One more line at the end of a text of lines. */
  lemma SplitOneMore(text: string, line: string)
    requires Free(line, '\n') && Split(text, '\n')[|Split(text, '\n')| - 1] == ""
    ensures var parts := Split(text, '\n'); Split(text + (line + "\n"), '\n') == parts[..|parts| - 1] + [line, ""]
  {
    SplitAppend(text, line, '\n');
    assert text + (line + "\n") == text + line + ['\n'];
  }

  lemma ReadOneMore<T>(lines: seq<string>, line: string, items: seq<T>, item: T, read1: string -> Option<T>)
    requires ReadAll(lines, read1) == Some(items) && read1(line) == Some(item)
    ensures ReadAll(lines + [line], read1) == Some(items + [item])
  {
    assert (lines + [line])[..|lines|] == lines;
  }

  /** Reading undoes framing for any printer that never prints a newline and any reader that undoes it. */
  lemma {:induction false} UnframeUndoesFramed<T>(items: seq<T>, print1: T -> string, read1: string -> Option<T>)
    requires forall i :: 0 <= i < |items| ==> Free(print1(items[i]), '\n') && read1(print1(items[i])) == Some(items[i])
    ensures var parts := Split(Framed(items, print1), '\n');
            |parts| == |items| + 1 && parts[|items|] == "" && ReadAll(parts[..|items|], read1) == Some(items)
    ensures Unframe(Framed(items, print1), read1) == Some(items)
  {
    if items == [] {
      assert Split(Framed(items, print1), '\n')[..0] == [];
      assert ReadAll([], read1) == Some(items);
    } else {
      var front, last := items[..|items| - 1], items[|items| - 1];
      UnframeUndoesFramed(front, print1, read1);
      var before := Split(Framed(front, print1), '\n');
      SplitOneMore(Framed(front, print1), print1(last));
      ReadOneMore(before[..|front|], print1(last), front, last, read1);
      var parts := Split(Framed(items, print1), '\n');
      assert parts == before[..|front|] + [print1(last), ""];
      assert parts[..|items|] == before[..|front|] + [print1(last)];
      assert front + [last] == items;
    }
  }
}
