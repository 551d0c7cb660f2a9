/** Decimal numerals: `to_string` on an unsigned number. */
module Numerals {

  function Decimal(n: nat): (s: string)
    ensures s != "" && forall c <- s :: '0' <= c <= '9'
  {
    var digit := '0' + (n % 10) as char;
    if n < 10 then [digit] else Decimal(n / 10) + [digit]
  }

  // ---- What a numeral says, independently ----

  predicate AllDigits(s: string) {
    forall i :: 0 <= i < |s| ==> '0' <= s[i] <= '9'
  }

  /** The number that a string of digits says, its last one being the units. */
  function Value(s: string): nat
    requires AllDigits(s)
  {
    if s == "" then 0
    else
      var units: nat := s[|s| - 1] as int - '0' as int;
      10 * Value(s[..|s| - 1]) + units
  }

  /** Digits without leading zeros, most significant first. */
  predicate Denotes(s: string, n: nat) {
    s != "" && AllDigits(s) && (|s| > 1 ==> s[0] != '0') && Value(s) == n
  }

  lemma ValueOfOne(s: string)
    requires |s| == 1 && AllDigits(s)
    ensures Value(s) == s[0] as int - '0' as int
  {
    assert s[..0] == "";
  }

  /** A numeral that starts with another digit than 0 says at least 1. */
  lemma {:induction false} LeadingDigitCounts(s: string)
    requires s != "" && AllDigits(s) && s[0] != '0'
    ensures Value(s) >= 1
  {
    if |s| == 1 {
      ValueOfOne(s);
    } else {
      LeadingDigitCounts(s[..|s| - 1]);
    }
  }

  lemma {:induction false} DecimalDenotes(n: nat)
    ensures Denotes(Decimal(n), n)
  {
    var s := Decimal(n);
    if n < 10 {
      ValueOfOne(s);
    } else {
      DecimalDenotes(n / 10);
      var init := Decimal(n / 10);
      assert s[..|s| - 1] == init && s[0] == init[0];
      if |init| == 1 { ValueOfOne(init); }
    }
  }

  /** The numeral of a number says that number, and no other string does. */
  lemma {:induction false} DecimalExactly(s: string, n: nat)
    ensures Denotes(s, n) <==> s == Decimal(n)
    decreases |s|
  {
    DecimalDenotes(n);
    if Denotes(s, n) {
      if |s| == 1 {
        ValueOfOne(s);
      } else {
        var init, last := s[..|s| - 1], s[|s| - 1];
        LeadingDigitCounts(init);
        DecimalExactly(init, n / 10);
        assert s == init + [last];
      }
    }
  }
}
