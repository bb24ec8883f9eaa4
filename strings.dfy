/**
 * The JavaScript string primitives the numeral parser relies on, over `string`
 * (Dafny strings are sequences of Unicode scalar values, JavaScript strings
 * sequences of UTF-16 code units; no operation here depends on the difference):
 * `toLowerCase`, `trim`,
 * the two `replace` calls, `split(/[\s-]+/)`, `match(/\d+/)` and `parseInt`.
 */
module Strings {

  import opened Wrappers

  /** The characters matched by JavaScript's `\s`, which are also those `trim` removes. */
  predicate IsSpace(c: char) {
    c == ' ' || c == '\t' || c == '\n' || c == '\r' || c == '\U{000B}' || c == '\U{000C}'
    || c == '\U{00A0}' || c == '\U{1680}' || ('\U{2000}' <= c <= '\U{200A}')
    || c == '\U{2028}' || c == '\U{2029}' || c == '\U{202F}' || c == '\U{205F}'
    || c == '\U{3000}' || c == '\U{FEFF}'
  }

  /** The character class of the word split `/[\s-]+/`. */
  predicate IsSeparator(c: char) {
    IsSpace(c) || c == '-'
  }

  /** The character class `/[.,!?;]/` that cleaning deletes. */
  predicate IsPunctuation(c: char) {
    c == '.' || c == ',' || c == '!' || c == '?' || c == ';'
  }

  /** The ASCII digits matched by `\d`. */
  predicate IsDigit(c: char) {
    '0' <= c <= '9'
  }

  /** Upper-case letters of Basic Latin and Latin-1 (the multiplication sign excluded). */
  predicate IsUpper(c: char) {
    'A' <= c <= 'Z' || ('\U{00C0}' <= c <= '\U{00DE}' && c != '\U{00D7}')
  }

  /** A string containing no separator: one field of the word split. */
  predicate IsWord(w: string) {
    forall i :: 0 <= i < |w| ==> !IsSeparator(w[i])
  }

  predicate AllDigits(s: string) {
    forall i :: 0 <= i < |s| ==> IsDigit(s[i])
  }

  predicate HasDigit(s: string) {
    exists i :: 0 <= i < |s| && IsDigit(s[i])
  }

  function LowerChar(c: char): char {
    if IsUpper(c) then (c as int + 32) as char else c
  }

  /**
   * `toLowerCase`, restricted to the Basic Latin and Latin-1 letters: no capital
   * is left, and every other character stays where it is.
   */
  function Lower(s: string): (r: string)
    ensures |r| == |s|
    ensures forall i :: 0 <= i < |r| ==> !IsUpper(r[i])
    ensures forall i :: 0 <= i < |s| && !IsUpper(s[i]) ==> r[i] == s[i]
    ensures (forall i :: 0 <= i < |s| ==> !IsUpper(s[i])) ==> r == s
  {
    seq(|s|, i requires 0 <= i < |s| => LowerChar(s[i]))
  }

  /** Lower-case letters of Basic Latin and Latin-1 that have a capital there. */
  predicate IsLowerWithCapital(c: char) {
    'a' <= c <= 'z' || ('\U{00E0}' <= c <= '\U{00FE}' && c != '\U{00F7}')
  }

  /** `toUpperCase` on the same letters: an independent reference for `Lower`. */
  function Upper(s: string): string {
    seq(|s|, i requires 0 <= i < |s| =>
      if IsLowerWithCapital(s[i]) then (s[i] as int - 32) as char else s[i])
  }

  /** Lower-casing undoes upper-casing: each capital becomes its own lower-case letter. */
  lemma LowerUndoesUpper(s: string)
    ensures Lower(Upper(s)) == Lower(s)
  {
  }

  /** Drops the leading white space. */
  function TrimStart(s: string): (r: string)
    ensures |r| <= |s|
    ensures r == [] || !IsSpace(r[0])
    ensures forall i :: 0 <= i < |s| - |r| ==> IsSpace(s[i])
  {
    if s != [] && IsSpace(s[0]) then TrimStart(s[1..]) else s
  }

  /** What TrimStart keeps is a suffix of its input. */
  lemma {:induction false} TrimStartIsSuffix(s: string)
    ensures TrimStart(s) == s[|s| - |TrimStart(s)|..]
  {
    if s != [] && IsSpace(s[0]) {
      TrimStartIsSuffix(s[1..]);
    }
  }

  /** Drops the trailing white space. */
  function TrimEnd(s: string): (r: string)
    ensures |r| <= |s| && r == s[..|r|]
    ensures r == [] || !IsSpace(r[|r| - 1])
    ensures forall i :: |r| <= i < |s| ==> IsSpace(s[i])
  {
    if s != [] && IsSpace(s[|s| - 1]) then TrimEnd(s[..|s| - 1]) else s
  }

  /** `trim`. */
  function Trim(s: string): string {
    TrimEnd(TrimStart(s))
  }

  /** `replace(/[.,!?;]/g, '')`: keeps every other character, in order. */
  function StripPunctuation(s: string): (r: string)
    ensures |r| <= |s|
    ensures forall i :: 0 <= i < |r| ==> !IsPunctuation(r[i])
    ensures (forall i :: 0 <= i < |s| ==> !IsPunctuation(s[i])) ==> r == s
  {
    if s == [] then []
    else if IsPunctuation(s[0]) then StripPunctuation(s[1..])
    else [s[0]] + StripPunctuation(s[1..])
  }

  /** `replace(/\s+/g, ' ')`: every maximal run of white space becomes one space. */
  function CollapseSpaces(s: string): (r: string)
    ensures forall i :: 0 <= i < |r| ==> IsSpace(r[i]) ==> r[i] == ' '
    decreases |s|
  {
    if s == [] then []
    else if IsSpace(s[0]) then " " + CollapseSpaces(TrimStart(s))
    else [s[0]] + CollapseSpaces(s[1..])
  }

  /** One character: punctuation is deleted, anything else is kept. */
  lemma StripPunctuationOfChar(c: char)
    ensures StripPunctuation([c]) == if IsPunctuation(c) then [] else [c]
  {
  }

  /** No two white-space characters are adjacent. */
  predicate SpacesAreSingle(r: string) {
    forall i :: 0 <= i < |r| - 1 ==> !(IsSpace(r[i]) && IsSpace(r[i + 1]))
  }

  /** After the collapse, no two white-space characters are adjacent. */
  lemma {:induction false} CollapseSpacesSeparatesSpaces(s: string)
    ensures SpacesAreSingle(CollapseSpaces(s))
    decreases |s|
  {
    if s == [] {
    } else if IsSpace(s[0]) {
      var t := TrimStart(s);
      TrimStartIsSuffix(s);
      CollapseSpacesSeparatesSpaces(t);
      if t != [] {
        assert CollapseSpaces(t)[0] == t[0];
      }
    } else {
      var r, rest := CollapseSpaces(s), CollapseSpaces(s[1..]);
      CollapseSpacesSeparatesSpaces(s[1..]);
      assert r == [s[0]] + rest;
      forall i | 0 <= i < |r| - 1
        ensures !(IsSpace(r[i]) && IsSpace(r[i + 1]))
      {
        if i > 0 {
          var j := i - 1;
          assert r[i] == rest[j] && r[i + 1] == rest[j + 1];
          assert 0 <= j < |rest| - 1;
        }
      }
    }
  }

  /** A character that is not white space is kept in front of the collapsed rest. */
  lemma CollapseKeepsNonSpace(c: char, s: string)
    requires !IsSpace(c)
    ensures CollapseSpaces([c] + s) == [c] + CollapseSpaces(s)
  {
    assert ([c] + s)[1..] == s;
  }

  /** Leading white space in front of a text that starts otherwise is all trimmed. */
  lemma {:induction false} TrimStartOfRun(w: string, s: string)
    requires forall i :: 0 <= i < |w| ==> IsSpace(w[i])
    requires s == [] || !IsSpace(s[0])
    ensures TrimStart(w + s) == s
    decreases |w|
  {
    if w == [] {
      assert w + s == s;
    } else {
      assert (w + s)[1..] == w[1..] + s;
      TrimStartOfRun(w[1..], s);
    }
  }

  /** A non-empty run of white space becomes exactly one space. */
  lemma CollapseOfRun(w: string, s: string)
    requires w != [] && forall i :: 0 <= i < |w| ==> IsSpace(w[i])
    requires s == [] || !IsSpace(s[0])
    ensures CollapseSpaces(w + s) == " " + CollapseSpaces(s)
  {
    TrimStartOfRun(w, s);
    assert (w + s)[0] == w[0];
  }

  /** Drops the leading run of separators. */
  function SkipSeparators(s: string): (r: string)
    ensures |r| <= |s| && r == s[|s| - |r|..]
    ensures r == [] || !IsSeparator(r[0])
    ensures forall i :: 0 <= i < |s| - |r| ==> IsSeparator(s[i])
  {
    if s != [] && IsSeparator(s[0]) then SkipSeparators(s[1..]) else s
  }

  /**
   * `split(/[\s-]+/)`: the fields between maximal separator runs. A separator run
   * at either end gives an empty first or last field, and "" gives [""].
   */
  function Split(s: string): (r: seq<string>)
    ensures |r| >= 1
    ensures forall k :: 0 <= k < |r| ==> IsWord(r[k])
    decreases |s|
  {
    if s == [] then [[]]
    else if IsSeparator(s[0]) then [[]] + Split(SkipSeparators(s))
    else
      var rest := Split(s[1..]);
      [[s[0]] + rest[0]] + rest[1..]
  }

  /** The words joined by one separator character: the inverse that Split undoes. */
  function Join(ws: seq<string>, sep: char): string
    requires |ws| >= 1
  {
    if |ws| == 1 then ws[0] else ws[0] + [sep] + Join(ws[1..], sep)
  }

  /** The digits at the front of `s`. */
  function LeadingDigits(s: string): (r: string)
    ensures |r| <= |s| && r == s[..|r|] && AllDigits(r)
    ensures |r| == |s| || !IsDigit(s[|r|])
  {
    if s != [] && IsDigit(s[0]) then
      var r := [s[0]] + LeadingDigits(s[1..]);
      assert r == s[..|r|];
      r
    else []
  }

  /** The index of the first digit of `s`, or `|s|` when there is none. */
  function FirstDigitIndex(s: string): (i: nat)
    ensures i <= |s|
    ensures forall j :: 0 <= j < i ==> !IsDigit(s[j])
    ensures i < |s| ==> IsDigit(s[i])
  {
    if s == [] || IsDigit(s[0]) then 0 else 1 + FirstDigitIndex(s[1..])
  }

  /**
   * `match(/\d+/)`: the first maximal run of digits, if any. When present, it
   * starts at some index `i` with no digit before it, and it ends at the end of
   * `s` or at a non-digit.
   */
  function FirstDigitRun(s: string): (r: Option<string>)
    ensures r.Some? <==> HasDigit(s)
    ensures r.Some? ==> r.value != [] && AllDigits(r.value)
    ensures r.Some? ==>
              exists i :: 0 <= i && i + |r.value| <= |s|
                          && !HasDigit(s[..i]) && s[i..i + |r.value|] == r.value
                          && (i + |r.value| == |s| || !IsDigit(s[i + |r.value|]))
  {
    var i := FirstDigitIndex(s);
    if i == |s| then None
    else
      var d := LeadingDigits(s[i..]);
      assert s[i..i + |d|] == d;
      assert !HasDigit(s[..i]);
      Some(d)
  }

  function DigitValue(c: char): nat
    requires IsDigit(c)
  {
    c as int - '0' as int
  }

  function DigitChar(d: nat): (c: char)
    requires d < 10
    ensures IsDigit(c) && DigitValue(c) == d
  {
    ('0' as int + d) as char
  }

  /** `parseInt(d, 10)` on a run of digits, with unbounded precision. */
  function DigitsValue(d: string): nat
    requires AllDigits(d)
  {
    if d == [] then 0 else DigitsValue(d[..|d| - 1]) * 10 + DigitValue(d[|d| - 1])
  }

  /** The decimal rendering of a natural number, without leading zeros. */
  function NatToString(n: nat): (s: string)
    ensures s != [] && AllDigits(s)
    ensures DigitsValue(s) == n
  {
    if n < 10 then [DigitChar(n)]
    else
      var s := NatToString(n / 10) + [DigitChar(n % 10)];
      assert s[..|s| - 1] == NatToString(n / 10);
      s
  }
}
