/** Decimal numbers, as the parser reads them and the path printer writes them. */
module Decimals {
  import opened JsonLexer
  import opened PathString

  const DIGITS := "0123456789"

  ghost predicate AllDigits(s: string) {
    forall k :: 0 <= k < |s| ==> exists d: nat :: d < 10 && s[k] == DIGITS[d]
  }

  /** Each digit weighs ten times what the next one does. */
  lemma {:induction false} DigitAppends(s: string, d: nat, acc: nat)
    requires AllDigits(s) && d < 10
    ensures DecimalValue(s + [DIGITS[d]], acc) == 10 * DecimalValue(s, acc) + d
    decreases |s|
  {
    var t := s + [DIGITS[d]];
    if s == "" {
      assert t[1..] == "";
    } else {
      var e: nat :| e < 10 && s[0] == DIGITS[e];
      assert t[1..] == s[1..] + [DIGITS[d]];
      DigitAppends(s[1..], d, 10 * acc + (s[0] as int - '0' as int));
    }
  }

  /** A printed number is read back, and begins with no zero but its only digit. */
  lemma {:induction false} DecimalReads(k: nat)
    ensures AllDigits(Decimal(k)) && DecimalValue(Decimal(k), 0) == k
    ensures |Decimal(k)| > 1 ==> Decimal(k)[0] != '0'
    decreases k
  {
    hide DecimalValue;
    if k < 10 {
      OneDigit(k);
    } else {
      DecimalReads(k / 10);
      DigitAppends(Decimal(k / 10), k % 10, 0);
      assert Decimal(k) == Decimal(k / 10) + [DIGITS[k % 10]];
    }
  }

  /** An index stands in brackets. */
  lemma IndexReads(k: nat)
    ensures var s := IndexText(k);
      |s| > 2 && s[0] == '[' && s[|s| - 1] == ']' && DecimalValue(s[1..|s| - 1], 0) == k
  {
    hide Decimal;
    DecimalReads(k);
    assert IndexText(k)[1..|IndexText(k)| - 1] == Decimal(k);
  }

  lemma OneDigit(k: nat)
    requires k < 10
    ensures AllDigits(Decimal(k)) && |Decimal(k)| == 1 && DecimalValue(Decimal(k), 0) == k
  {
    assert Decimal(k)[0] == DIGITS[k] && Decimal(k)[1..] == "";
  }

  lemma AtollReads(k: nat)
    ensures Atoll(Decimal(k)) == Atoll("+" + Decimal(k)) == k && Atoll("-" + Decimal(k)) == 0 - k
  {
    hide DecimalValue, Decimal;
    DecimalReads(k);
    assert ("+" + Decimal(k))[1..] == ("-" + Decimal(k))[1..] == Decimal(k);
    FirstDigit(Decimal(k));
  }

  lemma FirstDigit(s: string)
    requires AllDigits(s)
    ensures s != "" ==> s[0] != '-' && s[0] != '+'
  {
  }
}
