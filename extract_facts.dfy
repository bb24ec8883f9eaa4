/**
 * What `extractNumberFromText` promises: the first maximal run of digits decides
 * the result, and the French parser is consulted only when there is no digit.
 */
module ExtractFacts {

  import opened Wrappers
  import opened Strings
  import opened FrenchNumberParser

  lemma NoDigitBefore(s: string, i: nat)
    requires i <= |s| && !HasDigit(s[..i])
    ensures forall k :: 0 <= k < i ==> !IsDigit(s[k])
  {
    forall k | 0 <= k < i
      ensures !IsDigit(s[k])
    {
      assert s[..i][k] == s[k];
    }
  }

  /** A digit with no digit before it is where the search for a match stops. */
  lemma FirstDigitIndexAt(s: string, i: nat)
    requires i < |s| && IsDigit(s[i]) && !HasDigit(s[..i])
    ensures FirstDigitIndex(s) == i
  {
    NoDigitBefore(s, i);
    var f := FirstDigitIndex(s);
    assert f <= i;
    assert IsDigit(s[f]);
  }

  /** A run of `n` digits that cannot be extended is what the match takes from the start of `t`. */
  lemma LeadingDigitsOfRun(t: string, n: nat)
    requires 0 < n <= |t| && AllDigits(t[..n]) && (n == |t| || !IsDigit(t[n]))
    ensures LeadingDigits(t) == t[..n]
  {
    var r := LeadingDigits(t);
    DigitsBefore(t, n);
    DigitsBefore(t, |r|);
  }

  lemma DigitsBefore(s: string, n: nat)
    requires n <= |s| && AllDigits(s[..n])
    ensures forall k :: 0 <= k < n ==> IsDigit(s[k])
  {
    forall k | 0 <= k < n
      ensures IsDigit(s[k])
    {
      assert s[..n][k] == s[k];
    }
  }

  /** `match(/\d+/)` finds the first maximal run of digits. */
  lemma FirstDigitRunIsFirstMaximalRun(text: string, i: nat, j: nat)
    requires i < j <= |text|
    requires !HasDigit(text[..i]) && AllDigits(text[i..j]) && (j == |text| || !IsDigit(text[j]))
    ensures FirstDigitRun(text) == Some(text[i..j])
  {
    assert text[i..j][0] == text[i];
    FirstDigitIndexAt(text, i);
    var t := text[i..];
    assert t[..j - i] == text[i..j];
    assert j < |text| ==> t[j - i] == text[j];
    LeadingDigitsOfRun(t, j - i);
  }

  /**
   * When `text[i..j]` is the first maximal run of digits, the result is its
   * decimal value, whatever French words the rest of the text holds.
   */
  lemma ExtractPrefersDigits(text: string, i: nat, j: nat)
    requires i < j <= |text|
    requires !HasDigit(text[..i]) && AllDigits(text[i..j]) && (j == |text| || !IsDigit(text[j]))
    ensures ExtractNumberFromText(text) == Some(DigitsValue(text[i..j]))
  {
    FirstDigitRunIsFirstMaximalRun(text, i, j);
  }

  /** Text without a digit is handed to the French parser unchanged. */
  lemma ExtractWithoutDigits(text: string)
    ensures !HasDigit(text) <==> ExtractNumberFromText(text) == FrenchNumber(text) && FirstDigitRun(text).None?
  {
  }

  /**
   * A number written in digits inside a sentence is found: the text before it
   * holds no digit, and it is followed by the end of the text or a non-digit.
   */
  lemma ExtractFindsWrittenNumber(before: string, n: nat, after: string)
    requires !HasDigit(before)
    requires after == [] || !IsDigit(after[0])
    ensures ExtractNumberFromText(before + NatToString(n) + after) == Some(n)
  {
    var d := NatToString(n);
    var text := before + d + after;
    var i, j := |before|, |before| + |d|;
    assert text[..i] == before;
    assert text[i..j] == d;
    assert j < |text| ==> text[j] == after[0];
    ExtractPrefersDigits(text, i, j);
  }

  /** Rendering a number in decimal and extracting it gives the number back. */
  lemma ExtractNatToString(n: nat)
    ensures ExtractNumberFromText(NatToString(n)) == Some(n)
  {
    assert [] + NatToString(n) + [] == NatToString(n);
    ExtractFindsWrittenNumber([], n, []);
  }
}
