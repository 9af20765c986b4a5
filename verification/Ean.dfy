/** EAN-13 codes: the validation before a catalogue sync and the one on extracted GTINs. */
module Ean {
  import opened Text

  // ---------------------------------------------------------------- check digits

  predicate IsDigit(c: char) {
    '0' <= c <= '9'
  }

  predicate AllDigits(s: string) {
    forall i :: 0 <= i < |s| ==> IsDigit(s[i])
  }

  /** int(ch - '0'), which is not a digit value for other characters. */
  function Value(c: char): int {
    c as int - '0' as int
  }

  function Weight(i: nat): int {
    if i % 2 == 0 then 1 else 3
  }

  /** The weighted sum of section 7.9 of the GS1 General Specifications, over a prefix of the code. */
  function WeightedSum(s: string): int {
    if s == [] then 0
    else WeightedSum(s[..|s| - 1]) + Weight(|s| - 1) * Value(s[|s| - 1])
  }

  /** Thirteen digits whose weighted sum, check digit included, is a multiple of ten. */
  predicate IsEan13(s: string) {
    |s| == 13 && AllDigits(s) && WeightedSum(s) % 10 == 0
  }

  /** Go's remainder, which has the sign of the dividend. */
  function GoMod(a: int, b: int): int
    requires b > 0
  {
    if a >= 0 then a % b else -((-a) % b)
  }

  /** The check digit that the first twelve characters call for is the thirteenth. */
  predicate HasCheckDigit(s: string) {
    |s| == 13 && GoMod(10 - GoMod(WeightedSum(s[..12]), 10), 10) == Value(s[12])
  }

  /** IsValidEAN13: trims, then accepts exactly the codes of thirteen digits with a good checksum. */
  method IsValidEan13(s: string) returns (ok: bool)
    ensures ok <==> IsEan13(TrimSpace(s))
  {
    var t := TrimSpace(s);
    if |t| != 13 {
      return false;
    }
    var sum := 0;
    for i := 0 to |t|
      invariant AllDigits(t[..i]) && sum == WeightedSum(t[..i])
      invariant i <= 12
    {
      if t[i] < '0' || t[i] > '9' {
        return false;
      }
      var d := Value(t[i]);
      assert t[..i + 1][..i] == t[..i];
      if i == 12 {
        assert t[..13] == t;
        return (sum + d) % 10 == 0;
      }
      if i % 2 == 0 {
        sum := sum + d;
      } else {
        sum := sum + 3 * d;
      }
    }
    return false;
  }

  /** isValidGTIN13: recomputes the check digit; it does not look at whether characters are digits. */
  method IsValidGtin13(gtin: string) returns (ok: bool)
    ensures ok <==> HasCheckDigit(gtin)
  {
    if |gtin| != 13 {
      return false;
    }
    var sum := 0;
    for i := 0 to 12
      invariant sum == WeightedSum(gtin[..i])
    {
      var digit := Value(gtin[i]);
      assert gtin[..i + 1][..i] == gtin[..i];
      if i % 2 == 0 {
        sum := sum + digit;
      } else {
        sum := sum + digit * 3;
      }
    }
    var checkDigit := GoMod(10 - GoMod(sum, 10), 10);
    return checkDigit == Value(gtin[12]);
  }

  /** The first candidate with a good check digit, or the empty string when there is none. */
  method ExtractValidGtin(candidates: seq<string>) returns (gtin: string)
    ensures gtin != "" ==> gtin in candidates && HasCheckDigit(gtin)
    ensures gtin == "" <==> forall c :: c in candidates ==> !HasCheckDigit(c)
    ensures forall i :: 0 <= i < |candidates| && HasCheckDigit(candidates[i]) ==>
                          exists j :: 0 <= j <= i && candidates[j] == gtin
  {
    for i := 0 to |candidates|
      invariant forall j :: 0 <= j < i ==> !HasCheckDigit(candidates[j])
    {
      var ok := IsValidGtin13(candidates[i]);
      if ok {
        return candidates[i];
      }
    }
    return "";
  }

  /**
   The two validators agree: the first accepts a string exactly when its trimmed form is thirteen
   digits that the second accepts.
   */
  lemma ValidatorsAgree(s: string)
    ensures var t := TrimSpace(s);
            IsEan13(t) <==> |t| == 13 && AllDigits(t) && HasCheckDigit(t)
  {
    var t := TrimSpace(s);
    if |t| == 13 && AllDigits(t) {
      assert t[..12] == t[..|t| - 1];
      SumOfDigits(t[..12]);
      CheckDigitCompletes(WeightedSum(t[..12]), Value(t[12]));
    }
  }

  /** The digit that completes a sum to a multiple of ten is the computed check digit. */
  lemma CheckDigitCompletes(sum: int, digit: int)
    requires sum >= 0 && 0 <= digit <= 9
    ensures (sum + digit) % 10 == 0 <==> GoMod(10 - GoMod(sum, 10), 10) == digit
  {
    var rest := sum % 10;
    assert (sum + digit) % 10 == (rest + digit) % 10;
  }

  lemma {:induction false} SumOfDigits(s: string)
    requires AllDigits(s)
    ensures WeightedSum(s) >= 0
  {
    if s != [] {
      SumOfDigits(s[..|s| - 1]);
    }
  }

  /** The digits of a code. */
  function DigitsOf(s: string): (d: seq<int>)
    ensures |d| == |s| && forall i :: 0 <= i < |s| ==> s[i] as int == '0' as int + d[i]
  {
    seq(|s|, i requires 0 <= i < |s| => s[i] as int - '0' as int)
  }

  lemma SumOfPairs(s: string, n: nat)
    requires 2 * n + 2 <= |s|
    ensures WeightedSum(s[..2 * n + 2]) == WeightedSum(s[..2 * n]) + DigitsOf(s)[2 * n] + 3 * DigitsOf(s)[2 * n + 1]
  {
    var t, u := s[..2 * n + 2], s[..2 * n + 1];
    assert t[..2 * n + 1] == u && u[..2 * n] == s[..2 * n];
    assert WeightedSum(t) == WeightedSum(u) + 3 * Value(s[2 * n + 1]);
    assert WeightedSum(u) == WeightedSum(s[..2 * n]) + Value(s[2 * n]);
  }

  lemma SumOfThreePairs(s: string, n: nat)
    requires 2 * n + 6 <= |s|
    ensures var d := DigitsOf(s)[2 * n..];
            WeightedSum(s[..2 * n + 6]) == WeightedSum(s[..2 * n]) + d[0] + d[2] + d[4] + 3 * (d[1] + d[3] + d[5])
  {
    SumOfPairs(s, n);
    SumOfPairs(s, n + 1);
    SumOfPairs(s, n + 2);
  }

  lemma SumOfThirteen(s: string)
    requires |s| == 13
    ensures var d := DigitsOf(s);
            && WeightedSum(s[..12])
               == d[0] + d[2] + d[4] + d[6] + d[8] + d[10] + 3 * (d[1] + d[3] + d[5] + d[7] + d[9] + d[11])
            && WeightedSum(s) == WeightedSum(s[..12]) + d[12]
  {
    assert WeightedSum(s[..0]) == 0;
    SumOfThreePairs(s, 0);
    SumOfThreePairs(s, 3);
    assert s[..12] == s[..|s| - 1];
  }

  /** Thirteen digits with that weighted sum, for both validators. */
  lemma AcceptedIffMultipleOfTen(s: string)
    requires |s| == 13 && AllDigits(s)
    ensures IsEan13(TrimSpace(s)) <==> WeightedSum(s) % 10 == 0
    ensures HasCheckDigit(s) <==> WeightedSum(s) % 10 == 0
  {
    TrimmedStays(s);
    ValidatorsAgree(s);
  }

  /**
   The standard's checksum, written out: thirteen digits are accepted by the first validator, and by the
   second, exactly when those at even positions and three times those at odd positions add up to a
   multiple of ten. The first accepts nothing else, except that it trims.
   */
  lemma AcceptedIffDigitsAddUp(s: string)
    ensures IsEan13(TrimSpace(s)) ==> |TrimSpace(s)| == 13 && forall i :: 0 <= i < 13 ==> '0' <= TrimSpace(s)[i] <= '9'
    ensures |s| == 13 && (forall i :: 0 <= i < 13 ==> '0' <= s[i] <= '9') ==>
              var d := DigitsOf(s);
              var even := d[0] + d[2] + d[4] + d[6] + d[8] + d[10] + d[12];
              var odd := d[1] + d[3] + d[5] + d[7] + d[9] + d[11];
              var sum := even + 3 * odd;
              (IsEan13(TrimSpace(s)) <==> sum % 10 == 0) && (HasCheckDigit(s) <==> sum % 10 == 0)
  {
    if |s| == 13 && (forall i :: 0 <= i < 13 ==> '0' <= s[i] <= '9') {
      AcceptedIffMultipleOfTen(s);
      SumOfThirteen(s);
    }
  }

  /** Without the digit test they differ: the second one accepts a string that is not a number. */
  lemma CheckDigitAloneIsNotEnough()
    ensures HasCheckDigit(":000000000000") && !IsEan13(TrimSpace(":000000000000"))
  {
    var s := ":000000000000";
    TrimmedStays(s);
    assert !IsDigit(s[0]);
    Zeroes(s[..12]);
  }

  lemma {:induction false} Zeroes(s: string)
    requires |s| >= 1 && s[0] == ':' && forall i :: 1 <= i < |s| ==> s[i] == '0'
    ensures WeightedSum(s) == 10
  {
    if |s| > 1 {
      Zeroes(s[..|s| - 1]);
    } else {
      assert s[..0] == [];
    }
  }

  // ---------------------------------------------------------------- error detection

  /** Changing one character changes the weighted sum by its weight times the difference. */
  lemma {:induction false} SumAfterChange(s: string, i: nat, c: char)
    requires i < |s|
    ensures WeightedSum(s[i := c]) == WeightedSum(s) + Weight(i) * (Value(c) - Value(s[i]))
  {
    var n := |s| - 1;
    if i == n {
      assert s[i := c][..n] == s[..n];
    } else {
      assert s[i := c][..n] == s[..n][i := c];
      SumAfterChange(s[..n], i, c);
    }
  }

  lemma DifferenceShows(sum: int, weight: int, d: int)
    requires sum % 10 == 0 && (weight == 1 || weight == 3) && -9 <= d <= 9 && d != 0
    ensures (sum + weight * d) % 10 != 0
  {
    if weight == 1 {
      assert (sum + d) % 10 != 0;
    } else {
      assert (sum + 3 * d) % 10 != 0;
    }
  }

  /** A code of full length has no room for spaces to trim. */
  lemma FullLengthIsUntrimmed(s: string)
    requires |s| == 13 && IsEan13(TrimSpace(s))
    ensures TrimSpace(s) == s
  {
    var from, to := TrimSpaceIsMiddle(s);
  }

  /** Whatever character replaces one digit of a valid code, the result is rejected. */
  lemma SingleChangeIsDetected(code: string, i: nat, c: char)
    requires IsEan13(code) && i < 13 && c != code[i]
    ensures !IsEan13(TrimSpace(code[i := c]))
  {
    var changed := code[i := c];
    if IsEan13(TrimSpace(changed)) {
      FullLengthIsUntrimmed(changed);
      SumAfterChange(code, i, c);
      assert IsDigit(changed[i]) && IsDigit(code[i]);
      DifferenceShows(WeightedSum(code), Weight(i), Value(c) - Value(code[i]));
      assert false;
    }
  }

  /** Swapping two neighbouring digits is rejected, unless they are equal or differ by five. */
  lemma SwapIsDetectedUnlessFive(code: string, i: nat)
    requires IsEan13(code) && i < 12
    ensures var swapped := code[i := code[i + 1]][i + 1 := code[i]];
            IsEan13(TrimSpace(swapped)) <==> code[i] == code[i + 1] || Value(code[i]) - Value(code[i + 1]) in {5, -5}
  {
    var half := code[i := code[i + 1]];
    var swapped := half[i + 1 := code[i]];
    SumAfterChange(code, i, code[i + 1]);
    SumAfterChange(half, i + 1, code[i]);
    assert AllDigits(swapped);
    TrimmedStays(swapped);
    var a, b := Value(code[i]), Value(code[i + 1]);
    assert WeightedSum(swapped) == WeightedSum(code) + (Weight(i) - Weight(i + 1)) * (b - a);
    assert Weight(i) - Weight(i + 1) in {2, -2};
    TwiceDifference(WeightedSum(code), a, b);
  }

  lemma TwiceDifference(sum: int, a: int, b: int)
    requires sum % 10 == 0 && 0 <= a <= 9 && 0 <= b <= 9
    ensures (sum + 2 * (b - a)) % 10 == 0 <==> a == b || a - b in {5, -5}
    ensures (sum - 2 * (b - a)) % 10 == 0 <==> a == b || a - b in {5, -5}
  {
  }

  // ---------------------------------------------------------------- normalisation

  /** The EAN that is sent to the catalogue. */
  function NormalizeForSync(ean: string): string {
    if IsEan13(TrimSpace(ean)) then TrimSpace(ean) else ""
  }

  /** What is sent is empty or a valid trimmed code, and normalising again changes nothing. */
  lemma NormalizeIsIdempotent(ean: string)
    ensures NormalizeForSync(NormalizeForSync(ean)) == NormalizeForSync(ean)
    ensures NormalizeForSync(ean) == "" || (IsEan13(NormalizeForSync(ean)) && IsTrimmed(NormalizeForSync(ean)))
  {
    var from, to := TrimSpaceIsMiddle(ean);
    TrimmedStays(NormalizeForSync(ean));
  }
}
