/**
 * What `parseFrenchNumber` and `extractNumberFromText` promise, proved about the
 * functions of FrenchNumberParser.
 */
module FrenchNumberFacts {

  import opened Wrappers
  import opened Strings
  import opened FrenchNumberParser

  // ---------------------------------------------------------------------------
  // The scan as a fold over classified words
  // ---------------------------------------------------------------------------

  /** Conjunctions and unrecognized words: the words the scan should skip. */
  predicate Inert(w: string) {
    Classify(w).Conjunction? || Classify(w).Unrecognized?
  }

  /**
   * Reference semantics of the scan: each word, classified on its own, applied
   * left to right, with no look-back at the preceding words.
   */
  function Run(ws: seq<string>, a: Acc): Acc {
    if ws == [] then a else TokenStep(Classify(ws[|ws| - 1]), Run(ws[..|ws| - 1], a))
  }

  /**
   * The special cases for "soixante-dix" and "quatre-vingt-dix" never change the
   * accumulators: they are reached only for a word outside `units`, while "dix"
   * and every value they look up are in `units`.
   */
  lemma PositionalRulesNeverFire(words: seq<string>, i: nat, a: Acc)
    requires i < |words| && Classify(words[i]) == Unrecognized
    ensures Positional(words, i, a) == a
  {
    assert "dix" in Units;
    assert Lookup(Units, words[i]) == None;
  }

  /** Skipped words, "et" included, leave `total` and `current` as they were. */
  lemma InertWordChangesNothing(words: seq<string>, i: nat, a: Acc)
    requires i < |words| && Inert(words[i])
    ensures Step(words, i, a) == a
  {
    if Classify(words[i]) == Unrecognized {
      PositionalRulesNeverFire(words, i, a);
    }
  }

  /** Each step of the scan depends only on the current word. */
  lemma StepIsContextFree(words: seq<string>, i: nat, a: Acc)
    requires i < |words|
    ensures Step(words, i, a) == TokenStep(Classify(words[i]), a)
  {
    if Classify(words[i]) == Unrecognized {
      PositionalRulesNeverFire(words, i, a);
    }
  }

  /** The source's scan, look-back branches and all, is the reference fold. */
  lemma {:induction false} ScanIsRun(words: seq<string>, n: nat)
    requires n <= |words|
    ensures Scan(words, n) == Run(words[..n], Acc(0, 0))
  {
    if n > 0 {
      ScanIsRun(words, n - 1);
      StepIsContextFree(words, n - 1, Scan(words, n - 1));
      assert words[..n][..n - 1] == words[..n - 1];
    }
  }

  /** Folding a concatenation folds the two parts in turn. */
  lemma {:induction false} RunAppend(p: seq<string>, q: seq<string>, a: Acc)
    ensures Run(p + q, a) == Run(q, Run(p, a))
  {
    if q == [] {
      assert p + q == p;
    } else {
      RunAppend(p, q[..|q| - 1], a);
      assert (p + q)[..|p + q| - 1] == p + q[..|q| - 1];
    }
  }

  /** The words that carry a value or a hundred, in order. */
  function Significant(ws: seq<string>): (r: seq<string>)
    ensures |r| <= |ws|
    ensures forall k :: 0 <= k < |r| ==> !Inert(r[k])
  {
    if ws == [] then []
    else if Inert(ws[|ws| - 1]) then Significant(ws[..|ws| - 1])
    else Significant(ws[..|ws| - 1]) + [ws[|ws| - 1]]
  }

  /** Deleting every "et" and every unrecognized word does not change the result. */
  lemma {:induction false} RunIgnoresInertWords(ws: seq<string>, a: Acc)
    ensures Run(ws, a) == Run(Significant(ws), a)
  {
    if ws != [] {
      var init, last := ws[..|ws| - 1], ws[|ws| - 1];
      RunIgnoresInertWords(init, a);
      if !Inert(last) {
        var s := Significant(init) + [last];
        assert s[..|s| - 1] == Significant(init);
      }
    }
  }

  /** The value a unit or tens word contributes. */
  function WordValue(w: string): int {
    match Classify(w)
    case Unit(v) => v
    case Ten(v) => v
    case _ => 0
  }

  /** The sum of the values of the unit and tens words. */
  function WordSum(ws: seq<string>): int {
    if ws == [] then 0 else WordSum(ws[..|ws| - 1]) + WordValue(ws[|ws| - 1])
  }

  lemma WordSumOfOne(w: string)
    ensures WordSum([w]) == WordValue(w)
  {
    assert [w][..0] == [];
  }

  lemma WordSumOfTwo(a: string, b: string)
    ensures WordSum([a, b]) == WordValue(a) + WordValue(b)
  {
    assert [a, b][..1] == [a];
    WordSumOfOne(a);
  }

  lemma WordSumOfThree(a: string, b: string, c: string)
    ensures WordSum([a, b, c]) == WordValue(a) + WordValue(b) + WordValue(c)
  {
    assert [a, b, c][..2] == [a, b];
    WordSumOfTwo(a, b);
  }

  predicate NoHundred(ws: seq<string>) {
    forall k :: 0 <= k < |ws| ==> !Classify(ws[k]).Hundred?
  }

  /** Without "cent", unit and tens words only add to `current`: the result is their sum. */
  lemma {:induction false} RunWithoutHundred(ws: seq<string>, a: Acc)
    requires NoHundred(ws)
    ensures Run(ws, a) == Acc(a.total, a.current + WordSum(ws))
  {
    if ws != [] {
      RunWithoutHundred(ws[..|ws| - 1], a);
    }
  }

  /**
   * "X cent Y": the words before "cent" are summed into a multiplier (1 when they
   * sum to 0), and the words after it are added to the hundreds.
   */
  lemma HundredGroup(p: seq<string>, h: string, s: seq<string>)
    requires NoHundred(p) && NoHundred(s) && Classify(h) == Hundred
    ensures var r := Run(p + [h] + s, Acc(0, 0));
            r.total + r.current == (if WordSum(p) == 0 then 1 else WordSum(p)) * 100 + WordSum(s)
  {
    RunAppend(p + [h], s, Acc(0, 0));
    RunAppend(p, [h], Acc(0, 0));
    RunWithoutHundred(p, Acc(0, 0));
    assert Run([h], Run(p, Acc(0, 0))) == TokenStep(Hundred, Run(p, Acc(0, 0))) by {
      assert [h][..0] == [];
    }
    RunWithoutHundred(s, Run(p + [h], Acc(0, 0)));
  }

  // ---------------------------------------------------------------------------
  // Results: null for blank text, 0 only by name
  // ---------------------------------------------------------------------------

  /** Every key of the exact lookups starts with a letter. */
  lemma KeysStartWithLetter(k: string)
    requires k in Units || k in Tens || k == "cent"
    ensures k != [] && !IsSeparator(k[0])
  {
    if k in Units {
      UnitKeysStartWithLetter(k);
    } else if k in Tens {
      TensKeysStartWithLetter(k);
    }
  }

  lemma UnitKeysStartWithLetter(k: string)
    requires k in Units
    ensures k != [] && 'a' <= k[0] <= 'z'
  {
  }

  lemma TensKeysStartWithLetter(k: string)
    requires k in Tens
    ensures k != [] && 'a' <= k[0] <= 'z'
  {
  }

  /** Only the two spellings of zero map to 0 in `units`. */
  lemma UnitZeroByName(k: string)
    requires k in Units
    ensures Units[k] == 0 <==> k == "zéro" || k == "zero"
  {
  }

  lemma TensAtLeastTen(k: string)
    requires k in Tens
    ensures Tens[k] >= 10
  {
  }

  /** A string of separators splits into empty fields only. */
  lemma SplitOfSeparators(s: string)
    requires forall i :: 0 <= i < |s| ==> IsSeparator(s[i])
    ensures Split(s) == if s == [] then [[]] else [[], []]
  {
    if s != [] {
      var r := SkipSeparators(s);
      assert r == [];
      assert Split(s) == [[]] + Split(r);
    }
  }

  /** Empty fields, which a separator at either end produces, contribute nothing. */
  lemma RunOfEmptyWords(words: seq<string>)
    requires words == [[]] || words == [[], []]
    ensures Run(words, Acc(0, 0)) == Acc(0, 0)
  {
    assert Classify([]) == Unrecognized;
    if |words| == 2 {
      assert words[..1] == [[]];
    }
  }

  /** Cleaning text of white space and punctuation leaves white space only. */
  lemma CleanOfBlankText(text: string)
    requires IsBlank(text)
    ensures AllSpace(Clean(text))
  {
    LowerOfBlank(text);
    var lowered := Lower(text);
    TrimStartIsSuffix(lowered);
    SliceOfBlank(lowered, TrimStart(lowered));
    SliceOfBlank(TrimStart(lowered), Trim(lowered));
    var trimmed := Trim(lowered);
    StripOfBlank(trimmed);
    CollapseOfBlank(StripPunctuation(trimmed));
  }

  /** Text made only of white space and the punctuation that cleaning deletes. */
  predicate IsBlank(s: string) {
    forall i :: 0 <= i < |s| ==> IsSpace(s[i]) || IsPunctuation(s[i])
  }

  lemma LowerOfBlank(s: string)
    requires IsBlank(s)
    ensures IsBlank(Lower(s))
  {
  }

  lemma SliceOfBlank(s: string, t: string)
    requires IsBlank(s) && |t| <= |s| && (t == s[..|t|] || t == s[|s| - |t|..])
    ensures IsBlank(t)
  {
    if t == s[..|t|] {
      forall i | 0 <= i < |t|
        ensures IsSpace(t[i]) || IsPunctuation(t[i])
      {
        assert t[i] == s[i];
      }
    } else {
      forall i | 0 <= i < |t|
        ensures IsSpace(t[i]) || IsPunctuation(t[i])
      {
        assert t[i] == s[|s| - |t| + i];
      }
    }
  }

  predicate AllSpace(s: string) {
    forall i :: 0 <= i < |s| ==> IsSpace(s[i])
  }

  lemma {:induction false} StripOfBlank(s: string)
    requires IsBlank(s)
    ensures AllSpace(StripPunctuation(s))
  {
    if s != [] {
      StripOfBlank(s[1..]);
    }
  }

  lemma CollapseOfBlank(s: string)
    requires AllSpace(s)
    ensures AllSpace(CollapseSpaces(s))
  {
    if s != [] {
      TrimStartIsSuffix(s);
      assert TrimStart(s) == [];
    }
  }

  /** Cleaned text of white space only matches no key and holds no word. */
  lemma ParseCleanOfSpaces(clean: string)
    requires AllSpace(clean)
    ensures ParseClean(clean) == None
  {
    if clean in Units || clean in Tens || clean == "cent" {
      KeysStartWithLetter(clean);
      assert false;
    }
    assert ParseClean(clean) == Compose(Split(clean));
    SplitOfSeparators(clean);
    var words := Split(clean);
    ScanIsRun(words, |words|);
    assert words[..|words|] == words;
    RunOfEmptyWords(words);
  }

  /**
   * Text made only of white space and the stripped punctuation gives null: no word
   * survives cleaning, so the scan ends with a zero total.
   */
  lemma BlankTextIsNull(text: string)
    requires IsBlank(text)
    ensures FrenchNumber(text) == None
  {
    if text != [] {
      CleanOfBlankText(text);
      ParseCleanOfSpaces(Clean(text));
    }
  }

  /**
   * 0 is returned exactly for "zéro" and "zero" (after cleaning): only the exact
   * lookup in `units` can produce it, since the scan yields null for a zero total.
   */
  lemma ZeroOnlyByName(text: string)
    ensures FrenchNumber(text) == Some(0) <==> text != [] && (Clean(text) == "zéro" || Clean(text) == "zero")
  {
    if text != [] {
      var clean := Clean(text);
      if clean in Units {
        UnitZeroByName(clean);
      } else if clean in Tens {
        TensAtLeastTen(clean);
      }
    }
  }

  // ---------------------------------------------------------------------------
  // Splitting: hyphens and white space are the same separator
  // ---------------------------------------------------------------------------

  /** A word in front of a separator (or of nothing) is the first field. */
  lemma {:induction false} SplitWordPrefix(w: string, t: string)
    requires IsWord(w) && (t == [] || IsSeparator(t[0]))
    ensures Split(w + t) == [w + Split(t)[0]] + Split(t)[1..]
  {
    if w == [] {
      var st := Split(t);
      assert w + st[0] == st[0];
      assert [st[0]] + st[1..] == st;
      assert w + t == t;
    } else {
      assert IsWord(w[1..]);
      SplitWordPrefix(w[1..], t);
      SplitWordPrefixStep(w[0], w[1..], t);
      assert [w[0]] + w[1..] == w;
    }
  }

  /** The inductive step of SplitWordPrefix: one more word character in front. */
  lemma SplitWordPrefixStep(c: char, v: string, t: string)
    requires !IsSeparator(c)
    requires Split(v + t) == [v + Split(t)[0]] + Split(t)[1..]
    ensures Split(([c] + v) + t) == [([c] + v) + Split(t)[0]] + Split(t)[1..]
  {
    assert ([c] + v) + t == [c] + (v + t);
    SplitCons(c, v + t);
    FirstFieldGrows(c, v, Split(v + t), Split(t));
  }

  /** Prepending a character to the first field of `[v + y[0]] + y[1..]`. */
  lemma FirstFieldGrows(c: char, v: string, x: seq<string>, y: seq<string>)
    requires |y| >= 1 && x == [v + y[0]] + y[1..]
    ensures [[c] + x[0]] + x[1..] == [([c] + v) + y[0]] + y[1..]
  {
    assert x[0] == v + y[0] && x[1..] == y[1..];
    assert [c] + (v + y[0]) == ([c] + v) + y[0];
  }

  /** A non-separator in front of a text joins its first field. */
  lemma SplitCons(c: char, s: string)
    requires !IsSeparator(c)
    ensures Split([c] + s) == [[c] + Split(s)[0]] + Split(s)[1..]
  {
    assert ([c] + s)[1..] == s;
  }

  /** Split undoes joining non-empty words with one separator character. */
  lemma {:induction false} SplitJoin(ws: seq<string>, sep: char)
    requires |ws| >= 1 && IsSeparator(sep)
    requires forall k :: 0 <= k < |ws| ==> ws[k] != [] && IsWord(ws[k])
    ensures Split(Join(ws, sep)) == ws
  {
    if |ws| == 1 {
      SplitWordPrefix(ws[0], []);
      assert ws[0] + [] == ws[0];
    } else {
      var rest := Join(ws[1..], sep);
      SplitJoin(ws[1..], sep);
      JoinStartsWithFirstWord(ws[1..], sep);
      SplitAfterSeparator(sep, rest);
      SplitWordPrefix(ws[0], [sep] + rest);
      JoinUnfold(ws, sep);
      PrefixOfEmptyField(ws, Split([sep] + rest));
    }
  }

  lemma JoinUnfold(ws: seq<string>, sep: char)
    requires |ws| >= 2
    ensures Join(ws, sep) == ws[0] + ([sep] + Join(ws[1..], sep))
  {
  }

  lemma JoinStartsWithFirstWord(ws: seq<string>, sep: char)
    requires |ws| >= 1 && ws[0] != []
    ensures Join(ws, sep) != [] && Join(ws, sep)[0] == ws[0][0]
  {
  }

  /** The word list rebuilt from its first word and the fields after a separator. */
  lemma PrefixOfEmptyField(ws: seq<string>, fields: seq<string>)
    requires |ws| >= 1 && fields == [[]] + ws[1..]
    ensures [ws[0] + fields[0]] + fields[1..] == ws
  {
    assert ws[0] + fields[0] == ws[0];
    assert fields[1..] == ws[1..];
  }

  /** A separator in front of a field-initial character makes an empty first field. */
  lemma SplitAfterSeparator(sep: char, rest: string)
    requires IsSeparator(sep) && rest != [] && !IsSeparator(rest[0])
    ensures Split([sep] + rest) == [[]] + Split(rest)
  {
    var t := [sep] + rest;
    assert t[1..] == rest;
    assert SkipSeparators(t) == rest;
  }

  /** Capitals do not change the parse: a capitalised transcript reads like a lower-case one. */
  lemma ParseIgnoresCase(t: string)
    ensures FrenchNumber(Upper(t)) == FrenchNumber(t)
  {
    LowerUndoesUpper(t);
  }

  /** The text with every hyphen turned into a space. */
  function HyphensToSpaces(s: string): string
  {
    seq(|s|, i requires 0 <= i < |s| => if s[i] == '-' then ' ' else s[i])
  }

  lemma {:induction false} SkipSeparatorsCommutes(s: string)
    ensures SkipSeparators(HyphensToSpaces(s)) == HyphensToSpaces(SkipSeparators(s))
    decreases |s|
  {
    if s != [] && IsSeparator(s[0]) {
      assert HyphensToSpaces(s)[1..] == HyphensToSpaces(s[1..]);
      SkipSeparatorsCommutes(s[1..]);
    }
  }

  /** The word split does not distinguish a hyphen from a space. */
  lemma {:induction false} SplitIgnoresSeparatorKind(s: string)
    ensures Split(HyphensToSpaces(s)) == Split(s)
    decreases |s|
  {
    var h := HyphensToSpaces(s);
    if s == [] {
      assert h == [];
    } else if IsSeparator(s[0]) {
      assert IsSeparator(h[0]);
      SkipSeparatorsCommutes(s);
      SplitIgnoresSeparatorKind(SkipSeparators(s));
    } else {
      assert h[0] == s[0] && h[1..] == HyphensToSpaces(s[1..]);
      SplitIgnoresSeparatorKind(s[1..]);
      assert Split(h) == [[h[0]] + Split(h[1..])[0]] + Split(h[1..])[1..];
    }
  }

  /** Text without a hyphen is unchanged. */
  lemma NoHyphenUnchanged(s: string)
    requires forall i :: 0 <= i < |s| ==> s[i] != '-'
    ensures HyphensToSpaces(s) == s
  {
  }

  /** Text whose image has no space had neither hyphen nor change. */
  lemma NoSpaceImageUnchanged(s: string)
    requires forall i :: 0 <= i < |s| ==> HyphensToSpaces(s)[i] != ' '
    ensures HyphensToSpaces(s) == s
  {
  }

  /** No key of `units` holds a space or a hyphen. */
  lemma UnitKeyHasNoSeparator(k: string)
    requires k in Units
    ensures forall i :: 0 <= i < |k| ==> k[i] != ' ' && k[i] != '-'
  {
  }

  /** The keys of `tens` with a space or a hyphen are the four two-word spellings of eighty. */
  lemma TensKeyShape(k: string)
    requires k in Tens
    ensures (forall i :: 0 <= i < |k| ==> k[i] != ' ' && k[i] != '-')
            || k == "quatre-vingt" || k == "quatre-vingts" || k == "quatre vingt" || k == "quatre vingts"
  {
  }

  /** Only "quatre vingt(s)" and "quatre-vingt(s)" read as "quatre vingt(s)" once hyphens are spaces. */
  lemma SpacedEightyPreimage(c: string, k: string)
    requires HyphensToSpaces(c) == k && (k == "quatre vingt" || k == "quatre vingts")
    ensures c in Tens && Tens[c] == 80
  {
    assert |c| == |k|;
    assert forall i :: 0 <= i < |c| ==> k[i] == if c[i] == '-' then ' ' else c[i];
    assert forall i :: 0 <= i < |k| && i != 6 ==> k[i] != ' ';
    assert c == k[..6] + [c[6]] + k[7..];
    if c[6] == ' ' {
      assert c == k;
    } else if k == "quatre vingt" {
      assert c == "quatre-vingt";
    } else {
      assert c == "quatre-vingts";
    }
  }

  lemma SpacedImageHasNoHyphen(c: string)
    ensures HyphensToSpaces(c) != "quatre-vingt" && HyphensToSpaces(c) != "quatre-vingts"
  {
    var h := HyphensToSpaces(c);
    if |h| > 6 {
      assert h[6] != '-';
    }
  }

  /** The exact lookups agree on a cleaned text and on the same text with spaces for hyphens. */
  lemma LookupIgnoresSeparatorKind(c: string)
    ensures var h := HyphensToSpaces(c);
            (h in Units <==> c in Units) && (c in Units ==> Units[h] == Units[c])
            && (c !in Units ==> (h in Tens <==> c in Tens) && (c in Tens ==> Tens[h] == Tens[c]))
            && (h == "cent" <==> c == "cent")
  {
    var h := HyphensToSpaces(c);
    if c in Units {
      UnitKeyHasNoSeparator(c);
      NoHyphenUnchanged(c);
    } else if h in Units {
      UnitKeyHasNoSeparator(h);
      NoSpaceImageUnchanged(c);
    } else if c in Tens {
      TensKeyShape(c);
      if c == "quatre-vingt" {
        assert h == "quatre vingt";
      } else if c == "quatre-vingts" {
        assert h == "quatre vingts";
      } else {
        NoHyphenUnchanged(c);
      }
    } else if h in Tens {
      TensKeyShape(h);
      SpacedImageHasNoHyphen(c);
      if h == "quatre vingt" || h == "quatre vingts" {
        SpacedEightyPreimage(c, h);
      } else {
        NoSpaceImageUnchanged(c);
      }
    }
    if h == "cent" {
      NoSpaceImageUnchanged(c);
    } else if c == "cent" {
      NoHyphenUnchanged(c);
    }
  }

  /**
   * On cleaned text, a hyphen and a space are interchangeable: the exact lookups
   * list both spellings of every hyphenated key, and the scan splits on both.
   */
  lemma ParseCleanIgnoresSeparatorKind(c: string)
    ensures ParseClean(HyphensToSpaces(c)) == ParseClean(c)
  {
    LookupIgnoresSeparatorKind(c);
    SplitIgnoresSeparatorKind(c);
  }

  // ---------------------------------------------------------------------------
  // Cleaning, and worked examples
  // ---------------------------------------------------------------------------

  /** Text that cleaning leaves as it is: lower case, no stripped punctuation, single inner spaces. */
  predicate IsCleanText(t: string) {
    (forall i :: 0 <= i < |t| ==> !IsUpper(t[i]) && !IsPunctuation(t[i]) && (IsSpace(t[i]) ==> t[i] == ' '))
    && (t != [] ==> !IsSpace(t[0]) && !IsSpace(t[|t| - 1]))
    && (forall i :: 0 <= i < |t| - 1 ==> !(IsSpace(t[i]) && IsSpace(t[i + 1])))
  }

  lemma {:induction false} CollapseKeepsSingleSpaces(t: string)
    requires forall i :: 0 <= i < |t| ==> IsSpace(t[i]) ==> t[i] == ' '
    requires forall i :: 0 <= i < |t| - 1 ==> !(IsSpace(t[i]) && IsSpace(t[i + 1]))
    ensures CollapseSpaces(t) == t
    decreases |t|
  {
    if t != [] {
      CollapseKeepsSingleSpaces(t[1..]);
      if IsSpace(t[0]) {
        assert TrimStart(t) == t[1..] by {
          assert TrimStart(t) == TrimStart(t[1..]);
        }
      }
    }
  }

  /** Cleaning leaves clean text unchanged. */
  lemma CleanKeepsCleanText(t: string)
    requires IsCleanText(t)
    ensures Clean(t) == t
  {
    assert Lower(t) == t;
    assert Trim(t) == t;
    CollapseKeepsSingleSpaces(t);
  }

  predicate IsLetter(c: char) {
    'a' <= c <= 'z' || c == 'é'
  }

  /** Lower-case words joined by single occurrences of `sep`. */
  predicate IsPhrase(t: string, sep: char) {
    t != [] && IsLetter(t[|t| - 1])
    && forall i {:trigger t[i]} :: 0 <= i < |t| - 1 ==> IsLetter(t[i]) || (t[i] == sep && i > 0 && IsLetter(t[i + 1]))
  }

  lemma PhraseIsCleanText(t: string, sep: char)
    requires IsPhrase(t, sep) && (sep == ' ' || sep == '-')
    ensures IsCleanText(t)
  {
    forall i | 0 <= i < |t|
      ensures IsLetter(t[i]) || (t[i] == sep && 0 < i < |t| - 1 && IsLetter(t[i + 1]))
    {
      if i < |t| - 1 {
        assert IsLetter(t[i]) || (t[i] == sep && i > 0 && IsLetter(t[i + 1]));
      }
    }
    assert |t| > 1 ==> IsLetter(t[0]);
  }

  /** Clean text that is no key of the exact lookups is parsed by the scan of its words. */
  lemma ParseOfJoinedWords(ws: seq<string>, sep: char)
    requires |ws| >= 1 && (sep == ' ' || sep == '-')
    requires forall k :: 0 <= k < |ws| ==> ws[k] != [] && IsWord(ws[k])
    requires IsPhrase(Join(ws, sep), sep)
    requires Join(ws, sep) !in Units && Join(ws, sep) !in Tens && Join(ws, sep) != "cent"
    ensures FrenchNumber(Join(ws, sep)) == Compose(ws)
  {
    PhraseIsCleanText(Join(ws, sep), sep);
    CleanKeepsCleanText(Join(ws, sep));
    SplitJoin(ws, sep);
  }

  /** Without "cent", the compositional path returns the sum of the word values, when positive. */
  lemma ComposeWithoutHundred(ws: seq<string>)
    requires NoHundred(ws)
    ensures Compose(ws) == if WordSum(ws) > 0 then Some(WordSum(ws)) else None
  {
    ScanIsRun(ws, |ws|);
    assert ws[..|ws|] == ws;
    RunWithoutHundred(ws, Acc(0, 0));
  }

  /**
   * For every one-word key other than zero, the exact lookup and the scan agree:
   * the lookup is a shortcut, except that only it can answer 0.
   */
  lemma DirectLookupAgreesWithScan(k: string)
    requires (k in Units || k in Tens) && IsWord(k) && k != "zéro" && k != "zero"
    ensures ParseClean(k) == Compose(Split(k))
  {
    SplitWordPrefix(k, []);
    assert k + [] == k;
    assert Split(k) == [k];
    if k in Units {
      UnitZeroByName(k);
    } else {
      TensAtLeastTen(k);
    }
    assert WordSum([k]) == WordValue(k);
    ComposeWithoutHundred([k]);
  }

  lemma {:induction false} StripPunctuationAppend(a: string, b: string)
    ensures StripPunctuation(a + b) == StripPunctuation(a) + StripPunctuation(b)
  {
    if a != [] {
      assert (a + b)[1..] == a[1..] + b;
      StripPunctuationAppend(a[1..], b);
    } else {
      assert a + b == b;
    }
  }
}
