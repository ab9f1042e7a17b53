/** Decimal text for whole numbers, as JavaScript's `String(n)` and
    `padStart(2, "0")` produce it, and the "MM:SS" clock that both the
    hydration panel and the page overlay display. */
module Decimal {

  predicate IsDigit(c: char) { '0' <= c <= '9' }

  predicate IsDigits(s: string) { forall i :: 0 <= i < |s| ==> IsDigit(s[i]) }

  function DigitChar(d: nat): (c: char)
    requires d < 10
    ensures IsDigit(c) && c as int - '0' as int == d
  {
    ('0' as int + d) as char
  }

  /** The number a string of decimal digits denotes, most significant digit first. */
  function Value(s: string): int
  {
    if s == [] then 0 else Value(s[..|s| - 1]) * 10 + (s[|s| - 1] as int - '0' as int)
  }

  /** `String(n)` for a non-negative integer: digits only, and a leading
      zero only for zero itself. */
  function Show(n: nat): (r: string)
    ensures |r| >= 1 && IsDigits(r)
    ensures (r[0] == '0') <==> n == 0
    ensures |r| == 1 <==> n < 10
    ensures n < 100 ==> |r| <= 2
    decreases n
  {
    if n < 10 then [DigitChar(n)] else Show(n / 10) + [DigitChar(n % 10)]
  }

  /** `s.padStart(2, "0")`: zeros are put in front until the text is two
      characters long; a longer text is left alone. */
  function PadTwo(s: string): (r: string)
    ensures |r| == if |s| < 2 then 2 else |s|
    ensures r[|r| - |s|..] == s
    ensures forall i :: 0 <= i < |r| - |s| ==> r[i] == '0'
  {
    if |s| >= 2 then s else if |s| == 1 then "0" + s else "00"
  }

  lemma {:induction false} ValueOfShow(n: nat)
    ensures Value(Show(n)) == n
    decreases n
  {
    if n >= 10 {
      var front := Show(n / 10);
      var whole := front + [DigitChar(n % 10)];
      assert Show(n) == whole;
      assert whole[..|whole| - 1] == front;
      ValueOfShow(n / 10);
    }
  }

  lemma {:induction false} ValueIgnoresLeadingZero(s: string)
    ensures Value("0" + s) == Value(s)
    decreases |s|
  {
    if s != [] {
      var t := "0" + s;
      assert t[..|t| - 1] == "0" + s[..|s| - 1];
      assert t[|t| - 1] == s[|s| - 1];
      ValueIgnoresLeadingZero(s[..|s| - 1]);
    }
  }

  /** Padding `String(n)` to two digits keeps its value. */
  lemma ValueOfPadded(n: nat)
    ensures IsDigits(PadTwo(Show(n))) && |PadTwo(Show(n))| >= 2
    ensures n < 100 ==> |PadTwo(Show(n))| == 2
    ensures Value(PadTwo(Show(n))) == n
  {
    ValueOfShow(n);
    if n < 10 {
      ValueIgnoresLeadingZero(Show(n));
    }
  }

  /** The part of an "M...M:SS" text before the colon. */
  function MinutesField(r: string): string
    requires |r| >= 3
  {
    r[..|r| - 3]
  }

  /** The two characters after the colon. */
  function SecondsField(r: string): string
    requires |r| >= 3
  {
    r[|r| - 2..]
  }

  /** Reads an "MM:SS" text back as a number of seconds. */
  function ClockTotal(r: string): int
    requires |r| >= 3
  {
    Value(MinutesField(r)) * 60 + Value(SecondsField(r))
  }

  lemma FieldsOfClockText(m: string, s: string)
    requires |s| == 2
    ensures |m + ":" + s| >= 3
    ensures MinutesField(m + ":" + s) == m && SecondsField(m + ":" + s) == s
    ensures (m + ":" + s)[|m + ":" + s| - 3] == ':'
  {
    var r := m + ":" + s;
    assert r[..|r| - 3] == m;
    assert r[|r| - 2..] == s;
  }

  /** "MM:SS" for a non-negative number of seconds: whole minutes and the
      seconds left over, each written as `String(n).padStart(2, "0")`.
      What the text looks like is stated by `ClockShape`, what it reads
      back as by `ClockFields`. */
  function Clock(total: nat): string
  {
    PadTwo(Show(total / 60)) + ":" + PadTwo(Show(total % 60))
  }

  /** The clock text is the padded minutes, a colon and the padded
      seconds: the minutes field is exactly as wide as `String(minutes)`
      but never narrower than two, so below 100 minutes the text is five
      characters long. */
  lemma ClockShape(total: nat)
    ensures |Clock(total)| >= 5 && Clock(total)[|Clock(total)| - 3] == ':'
    ensures MinutesField(Clock(total)) == PadTwo(Show(total / 60))
    ensures SecondsField(Clock(total)) == PadTwo(Show(total % 60))
    ensures |MinutesField(Clock(total))| == if |Show(total / 60)| < 2 then 2 else |Show(total / 60)|
    ensures |SecondsField(Clock(total))| == 2
    ensures total < 6000 ==> |Clock(total)| == 5
  {
    var m, s := PadTwo(Show(total / 60)), PadTwo(Show(total % 60));
    assert Clock(total) == m + ":" + s;
    FieldsOfClockText(m, s);
  }

  /** Both fields are digits, the minutes field reads back as the quotient
      of the total by 60 and the seconds field as the remainder, which is
      below 60; the whole text reads back as the total. */
  lemma ClockFields(total: nat)
    ensures |Clock(total)| >= 5
    ensures IsDigits(MinutesField(Clock(total))) && IsDigits(SecondsField(Clock(total)))
    ensures Value(MinutesField(Clock(total))) == total / 60
    ensures Value(SecondsField(Clock(total))) == total % 60 < 60
    ensures ClockTotal(Clock(total)) == total
  {
    var q, r := total / 60, total % 60;
    assert q * 60 + r == total && r < 60;
    ClockShape(total);
    ValueOfPadded(q);
    ValueOfPadded(r);
    var text := Clock(total);
    assert MinutesField(text) == PadTwo(Show(q)) && SecondsField(text) == PadTwo(Show(r));
    assert ClockTotal(text) == Value(PadTwo(Show(q))) * 60 + Value(PadTwo(Show(r)));
  }

  lemma ClockOfZero()
    ensures Clock(0) == "00:00"
  {
    assert Show(0) == "0";
  }
}
