/**
 * The card checksum of helpers.py: the Luhn formula (ISO/IEC 7812-1,
 * Annex B). Digits are numbered from the rightmost one, starting at 0;
 * every digit at an odd position is doubled, and a doubled value of ten or
 * more contributes the sum of its two digits.
 */
module Luhn {
  import opened Chars

  /** What digit `d` at position `i` (counted from the right) adds to the sum. */
  function Contribution(d: nat, i: nat): (c: nat)
    requires d <= 9
    ensures c <= 9
    ensures i % 2 == 0 ==> c == d
    ensures i % 2 == 1 ==> c == if d < 5 then 2 * d else 2 * d - 9
  {
    var v := if (i + 1) % 2 == 0 then 2 * d else d;
    if v >= 10 then v % 10 + 1 else v
  }

  /** The sum of the decimal digits of a number below 100. */
  function DigitSum(v: nat): nat
    requires v < 100
  {
    v / 10 + v % 10
  }

  /**
   * The reference reading of the checksum, from the left: the first digit of
   * `card` stands at position |card| - 1 from the right.
   */
  function LuhnSum(card: string): nat
    requires AllDigits(card)
  {
    if card == [] then 0
    else Contribution(DigitValue(card[0]), |card| - 1) + LuhnSum(card[1..])
  }

  /** A card number passes when its checksum is a multiple of ten. */
  predicate LuhnValid(card: string)
    requires AllDigits(card)
  {
    LuhnSum(card) % 10 == 0
  }

  /** `checksum(card)`: the loop of the source, scanning from the rightmost digit. */
  method Checksum(card: string) returns (sum: nat)
    requires AllDigits(card)
    ensures sum == LuhnSum(card)
  {
    sum := 0;
    var n := |card|;
    for i := 0 to n
      invariant sum == LuhnSum(card[n - i..])
    {
      var digit := DigitValue(card[n - 1 - i]);
      assert card[n - 1 - i..] == [card[n - 1 - i]] + card[n - i..];
      if (i + 1) % 2 == 0 {
        digit := digit * 2;
      }
      if digit >= 10 {
        sum := sum + digit % 10 + 1;
      } else {
        sum := sum + digit;
      }
    }
    assert card[n - n..] == card;
  }

  /** Each position adds the digit sum of the digit, doubled at odd positions. */
  lemma ContributionIsDigitSum(d: nat, i: nat)
    requires d <= 9
    ensures Contribution(d, i) == DigitSum(if i % 2 == 1 then 2 * d else d)
  {
  }

  /** The checksum of the empty card is 0, and it never exceeds 9 per digit. */
  lemma {:induction false} LuhnSumBounds(card: string)
    requires AllDigits(card)
    ensures card == [] ==> LuhnSum(card) == 0
    ensures LuhnSum(card) <= 9 * |card|
  {
    if card != [] {
      LuhnSumBounds(card[1..]);
    }
  }

  /** Two leading digits stand at positions |rest| + 1 and |rest|. */
  lemma LuhnSumPrependPair(a: char, b: char, rest: string)
    requires IsDigit(a) && IsDigit(b) && AllDigits(rest)
    ensures AllDigits([a, b] + rest)
    ensures LuhnSum([a, b] + rest)
         == Contribution(DigitValue(a), |rest| + 1) + Contribution(DigitValue(b), |rest|) + LuhnSum(rest)
  {
    var s := [a, b] + rest;
    assert s[1..] == [b] + rest;
    assert s[1..][1..] == rest;
  }


  /** The string is "42" repeated some number of times. */
  predicate Repeats42(s: string)
  {
    if |s| < 2 then s == [] else s[0] == '4' && s[1] == '2' && Repeats42(s[2..])
  }

  /** Each "42" pair in front of an even-length tail adds 8 + 2. */
  lemma {:induction false} Repeats42Sum(s: string)
    requires Repeats42(s)
    ensures |s| % 2 == 0 && AllDigits(s) && LuhnSum(s) == 5 * |s|
  {
    if s != [] {
      var rest := s[2..];
      assert s == [s[0], s[1]] + rest;
      Repeats42Sum(rest);
      LuhnSumPrependPair(s[0], s[1], rest);
    }
  }

  /** The test card 4242 4242 4242 4242 sums to 80. */
  lemma TestCardSum(card: string)
    requires card == "4242424242424242"
    ensures AllDigits(card) && LuhnSum(card) == 80
  {
    assert Repeats42(card[16..]);
    assert Repeats42(card[14..]);
    assert Repeats42(card[12..]);
    assert Repeats42(card[10..]);
    assert Repeats42(card[8..]);
    assert Repeats42(card[6..]);
    assert Repeats42(card[4..]);
    assert Repeats42(card[2..]);
    assert Repeats42(card[0..]);
    assert card[0..] == card;
    Repeats42Sum(card);
  }

  /** Ending it in 1 instead gives 79. */
  lemma AlteredTestCardSum(card: string, altered: string)
    requires card == "4242424242424242" && altered == "4242424242424241"
    ensures AllDigits(altered) && LuhnSum(altered) == 79
  {
    TestCardSum(card);
    LuhnSumReplaceDigit(card, 15, '1');
    assert card[15 := '1'] == altered;
  }

  /** So the test card passes and its altered form fails. */
  lemma TestCardVerdicts(card: string, altered: string)
    requires card == "4242424242424242" && altered == "4242424242424241"
    ensures AllDigits(card) && LuhnValid(card)
    ensures AllDigits(altered) && !LuhnValid(altered)
  {
    TestCardSum(card);
    AlteredTestCardSum(card, altered);
  }

  /** At a fixed position, different digits contribute different amounts. */
  lemma ContributionInjective(d: nat, e: nat, i: nat)
    requires d <= 9 && e <= 9 && d != e
    ensures Contribution(d, i) != Contribution(e, i)
  {
  }

  /** Replacing the digit at index `k` changes the checksum by the change at its position alone. */
  lemma {:induction false} LuhnSumReplaceDigit(s: string, k: nat, c: char)
    requires AllDigits(s) && k < |s| && IsDigit(c)
    ensures AllDigits(s[k := c])
    ensures LuhnSum(s[k := c]) - LuhnSum(s)
         == Contribution(DigitValue(c), |s| - 1 - k) - Contribution(DigitValue(s[k]), |s| - 1 - k)
  {
    var t := s[k := c];
    if k == 0 {
      assert t[1..] == s[1..];
    } else {
      assert t[1..] == s[1..][k - 1 := c];
      LuhnSumReplaceDigit(s[1..], k - 1, c);
    }
  }

  /**
   * The Luhn formula detects every single-digit error: changing one digit
   * always changes the checksum modulo 10, so a passing number becomes a
   * failing one.
   */
  lemma SingleDigitErrorDetected(s: string, k: nat, c: char)
    requires AllDigits(s) && k < |s| && IsDigit(c) && c != s[k]
    ensures AllDigits(s[k := c])
    ensures LuhnSum(s[k := c]) % 10 != LuhnSum(s) % 10
    ensures LuhnValid(s) ==> !LuhnValid(s[k := c])
  {
    var p := |s| - 1 - k;
    LuhnSumReplaceDigit(s, k, c);
    ContributionInjective(DigitValue(c), DigitValue(s[k]), p);
    var x, y := LuhnSum(s[k := c]), LuhnSum(s);
    if x > y {
      DistinctModTen(x, y);
    } else {
      DistinctModTen(y, x);
    }
  }

  lemma DistinctModTen(x: int, y: int)
    requires 0 < x - y < 10
    ensures x % 10 != y % 10
  {
    assert x == 10 * (x / 10) + x % 10;
    assert y == 10 * (y / 10) + y % 10;
  }
}
