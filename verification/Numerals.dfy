/** Counters formatted as decimal digits padded to four places. */
module Numerals {

  function Digit(n: nat): char
    requires n < 10
  {
    "0123456789"[n]
  }

  function Digits(n: nat): string {
    if n < 10 then [Digit(n)] else Digits(n / 10) + [Digit(n % 10)]
  }

  function Pad4(n: nat): string {
    if n < 10 then "000" + Digits(n)
    else if n < 100 then "00" + Digits(n)
    else if n < 1000 then "0" + Digits(n)
    else Digits(n)
  }

  function ValueOf(s: string): nat {
    if s == "" then 0 else
    10 * ValueOf(s[..|s| - 1]) + (if '0' <= s[|s| - 1] <= '9' then (s[|s| - 1] - '0') as nat else 0)
  }

  lemma {:induction false} DigitsHaveTheirValue(n: nat)
    ensures ValueOf(Digits(n)) == n && Digits(n) != ""
  {
    if n >= 10 {
      DigitsHaveTheirValue(n / 10);
      assert Digits(n)[..|Digits(n)| - 1] == Digits(n / 10);
    } else {
      assert [Digit(n)][..0] == "";
    }
  }

  lemma {:induction false} LeadingZero(s: string)
    ensures ValueOf("0" + s) == ValueOf(s)
    decreases |s|
  {
    var t := "0" + s;
    if s == "" {
      assert t[..0] == "";
    } else {
      assert t[..|t| - 1] == "0" + s[..|s| - 1];
      LeadingZero(s[..|s| - 1]);
    }
  }

  lemma {:induction false} DigitsAreDigits(n: nat)
    ensures forall k | 0 <= k < |Digits(n)| :: '0' <= Digits(n)[k] <= '9'
  {
    if n >= 10 {
      DigitsAreDigits(n / 10);
    }
  }

  lemma DigitCount(n: nat)
    ensures |Digits(n)| >= 1
    ensures n < 10 ==> |Digits(n)| == 1
    ensures 10 <= n < 100 ==> |Digits(n)| == 2
    ensures 100 <= n < 1000 ==> |Digits(n)| == 3
    ensures 1000 <= n < 10000 ==> |Digits(n)| == 4
    ensures n >= 1000 ==> |Digits(n)| >= 4
  {
    if n >= 10 {
      DigitCount(n / 10);
    }
  }

  /** A padded counter is its decimal value in digits, in four places as long as four are enough. */
  lemma PadHasFourPlaces(n: nat)
    ensures ValueOf(Pad4(n)) == n && |Pad4(n)| >= 4 && (n < 10000 ==> |Pad4(n)| == 4)
    ensures forall k | 0 <= k < |Pad4(n)| :: '0' <= Pad4(n)[k] <= '9'
  {
    PadHasItsValue(n);
    DigitCount(n);
    DigitsAreDigits(n);
  }

  /** Different counters have different texts. */
  lemma PadIsInjective(m: nat, n: nat)
    requires Pad4(m) == Pad4(n)
    ensures m == n
  {
    PadHasItsValue(m);
    PadHasItsValue(n);
  }

  lemma PadHasItsValue(n: nat)
    ensures ValueOf(Pad4(n)) == n
  {
    DigitsHaveTheirValue(n);
    var d := Digits(n);
    LeadingZero(d);
    LeadingZero("0" + d);
    LeadingZero("00" + d);
    assert "0" + ("0" + d) == "00" + d && "0" + ("00" + d) == "000" + d;
  }
}
