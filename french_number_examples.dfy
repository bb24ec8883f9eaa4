/**
 * Worked examples of `parseFrenchNumber`, each proved from the general facts:
 * the word values, the word split of the text, and the fact that the text is
 * no key of the exact lookups.
 */
module FrenchNumberExamples {

  import opened Wrappers
  import opened Strings
  import opened FrenchNumberParser
  import opened FrenchNumberFacts

  // ---------------------------------------------------------------------------
  // How single words are classified
  // ---------------------------------------------------------------------------

  lemma ClassifyZero() ensures Classify("zéro") == Unit(0) {}
  lemma ClassifyUn() ensures Classify("un") == Unit(1) {}
  lemma ClassifyDeux() ensures Classify("deux") == Unit(2) {}
  lemma ClassifyTrois() ensures Classify("trois") == Unit(3) {}
  lemma ClassifyQuatre() ensures Classify("quatre") == Unit(4) {}
  lemma ClassifyDix() ensures Classify("dix") == Unit(10) {}
  lemma ClassifyVingt() ensures Classify("vingt") == Ten(20) {}
  lemma ClassifySoixante() ensures Classify("soixante") == Ten(60) {}
  lemma ClassifyCent() ensures Classify("cent") == Hundred {}
  lemma ClassifyEt() ensures Classify("et") == Conjunction {}
  lemma ClassifyVingts() ensures Classify("vingts") == Unrecognized {}
  lemma ClassifyEmpty() ensures Classify("") == Unrecognized {}

  /**
   * A text with a space or a hyphen is no key of the exact lookups, unless it
   * has the length and first letter of a spelling of eighty.
   */
  lemma SeparatedTextIsNoKey(t: string, p: nat)
    requires p < |t| && (t[p] == ' ' || t[p] == '-')
    requires |t| < 12 || |t| > 13 || t[0] != 'q'
    ensures t !in Units && t !in Tens && t != "cent"
  {
    if t in Units {
      UnitKeyHasNoSeparator(t);
      assert false;
    }
    if t in Tens {
      TensKeyShape(t);
      assert false;
    }
  }

  // ---------------------------------------------------------------------------
  // The scan over word lists
  // ---------------------------------------------------------------------------

  lemma VingtEtUnWords()
    ensures Compose(["vingt", "et", "un"]) == Some(21)
  {
    var ws := ["vingt", "et", "un"];
    ClassifyVingt();
    ClassifyEt();
    ClassifyUn();
    WordSumOfThree("vingt", "et", "un");
    ComposeWithoutHundred(ws);
  }

  lemma QuatreVingtDixWords()
    ensures Compose(["quatre", "vingt", "dix"]) == Some(34)
  {
    var ws := ["quatre", "vingt", "dix"];
    ClassifyQuatre();
    ClassifyVingt();
    ClassifyDix();
    WordSumOfThree("quatre", "vingt", "dix");
    ComposeWithoutHundred(ws);
  }

  lemma SoixanteDixWords()
    ensures Compose(["soixante", "dix"]) == Some(70)
  {
    var ws := ["soixante", "dix"];
    ClassifySoixante();
    ClassifyDix();
    WordSumOfTwo("soixante", "dix");
    ComposeWithoutHundred(ws);
  }

  lemma QuatreVingtsWords()
    ensures Compose(["quatre", "vingts"]) == Some(4)
  {
    var ws := ["quatre", "vingts"];
    ClassifyQuatre();
    ClassifyVingts();
    WordSumOfTwo("quatre", "vingts");
    ComposeWithoutHundred(ws);
  }

  lemma ZeroAndEmptyWords()
    ensures Compose(["zéro", ""]) == None
  {
    var ws := ["zéro", ""];
    ClassifyZero();
    ClassifyEmpty();
    assert ws[0] == "zéro" && ws[1] == "";
    assert NoHundred(ws);
    assert WordValue("zéro") == 0 && WordValue("") == 0;
    WordSumOfTwo("zéro", "");
    assert WordSum(ws) == 0;
    ComposeWithoutHundred(ws);
  }

  lemma DeuxCentTroisWords()
    ensures Compose(["deux", "cent", "trois"]) == Some(203)
  {
    var ws := ["deux", "cent", "trois"];
    ClassifyDeux();
    ClassifyCent();
    ClassifyTrois();
    WordSumOfOne("deux");
    WordSumOfOne("trois");
    HundredGroup(["deux"], "cent", ["trois"]);
    ScanIsRun(ws, 3);
    assert ws[..3] == ["deux"] + ["cent"] + ["trois"];
  }

  // ---------------------------------------------------------------------------
  // Texts of several words
  // ---------------------------------------------------------------------------

  // Each text below is its words joined by one separator, and it is clean; every
  // fact about a literal gets a lemma of its own, which keeps each proof small.

  lemma VingtEtUnWordsAreWords()
    ensures forall k :: 0 <= k < 3 ==> ["vingt", "et", "un"][k] != [] && IsWord(["vingt", "et", "un"][k])
  {
  }

  lemma VingtEtUnHyphenJoin() ensures Join(["vingt", "et", "un"], '-') == "vingt-et-un" {}
  lemma VingtEtUnHyphenPhrase() ensures IsPhrase("vingt-et-un", '-') {}
  lemma VingtEtUnSpaceJoin() ensures Join(["vingt", "et", "un"], ' ') == "vingt et un" {}
  lemma VingtEtUnSpacePhrase() ensures IsPhrase("vingt et un", ' ') {}

  lemma QuatreVingtDixWordsAreWords()
    ensures forall k :: 0 <= k < 3 ==> ["quatre", "vingt", "dix"][k] != [] && IsWord(["quatre", "vingt", "dix"][k])
  {
  }

  lemma QuatreVingtDixJoin() ensures Join(["quatre", "vingt", "dix"], '-') == "quatre-vingt-dix" {}
  lemma QuatreVingtDixPhrase() ensures IsPhrase("quatre-vingt-dix", '-') {}

  lemma SoixanteDixWordsAreWords()
    ensures forall k :: 0 <= k < 2 ==> ["soixante", "dix"][k] != [] && IsWord(["soixante", "dix"][k])
  {
  }

  lemma SoixanteDixJoin() ensures Join(["soixante", "dix"], '-') == "soixante-dix" {}
  lemma SoixanteDixPhrase() ensures IsPhrase("soixante-dix", '-') {}

  lemma DeuxCentTroisWordsAreWords()
    ensures forall k :: 0 <= k < 3 ==> ["deux", "cent", "trois"][k] != [] && IsWord(["deux", "cent", "trois"][k])
  {
  }

  lemma DeuxCentTroisJoin() ensures Join(["deux", "cent", "trois"], ' ') == "deux cent trois" {}
  lemma DeuxCentTroisPhrase() ensures IsPhrase("deux cent trois", ' ') {}

  /** "vingt-et-un" is 21: "et" is skipped. */
  lemma VingtEtUnHyphenated()
    ensures FrenchNumber("vingt-et-un") == Some(21)
  {
    VingtEtUnWordsAreWords();
    VingtEtUnHyphenJoin();
    VingtEtUnHyphenPhrase();
    SeparatedTextIsNoKey("vingt-et-un", 5);
    ParseOfJoinedWords(["vingt", "et", "un"], '-');
    VingtEtUnWords();
  }

  /** "vingt et un" is 21 too: a space splits like a hyphen. */
  lemma VingtEtUnSpaced()
    ensures FrenchNumber("vingt et un") == Some(21)
  {
    VingtEtUnWordsAreWords();
    VingtEtUnSpaceJoin();
    VingtEtUnSpacePhrase();
    SeparatedTextIsNoKey("vingt et un", 5);
    ParseOfJoinedWords(["vingt", "et", "un"], ' ');
    VingtEtUnWords();
  }

  /** The same words in capitals. */
  lemma VingtEtUnCapitals()
    ensures FrenchNumber("VINGT ET UN") == Some(21)
  {
    assert Upper("vingt et un") == "VINGT ET UN";
    ParseIgnoresCase("vingt et un");
    VingtEtUnSpaced();
  }

  /**
   * "quatre-vingt-dix" is 34, not 90: none of its words' look-back rules fire,
   * because "dix" is in `units`, so the scan adds 4 + 20 + 10.
   */
  lemma QuatreVingtDixIsThirtyFour()
    ensures FrenchNumber("quatre-vingt-dix") == Some(34)
  {
    QuatreVingtDixWordsAreWords();
    QuatreVingtDixJoin();
    QuatreVingtDixPhrase();
    SeparatedTextIsNoKey("quatre-vingt-dix", 6);
    ParseOfJoinedWords(["quatre", "vingt", "dix"], '-');
    QuatreVingtDixWords();
  }

  /** "soixante-dix" is 70, reached by adding 60 and 10, not by its look-back rule. */
  lemma SoixanteDixIsSeventy()
    ensures FrenchNumber("soixante-dix") == Some(70)
  {
    SoixanteDixWordsAreWords();
    SoixanteDixJoin();
    SoixanteDixPhrase();
    SeparatedTextIsNoKey("soixante-dix", 8);
    ParseOfJoinedWords(["soixante", "dix"], '-');
    SoixanteDixWords();
  }

  /** "deux cent trois" is 203: the multiplier before "cent", then the units after it. */
  lemma DeuxCentTrois()
    ensures FrenchNumber("deux cent trois") == Some(203)
  {
    DeuxCentTroisWordsAreWords();
    DeuxCentTroisJoin();
    DeuxCentTroisPhrase();
    SeparatedTextIsNoKey("deux cent trois", 4);
    ParseOfJoinedWords(["deux", "cent", "trois"], ' ');
    DeuxCentTroisWords();
  }

  // ---------------------------------------------------------------------------
  // Texts that are keys
  // ---------------------------------------------------------------------------

  lemma QuatreVingtsIsClean()
    ensures Clean("quatre-vingts") == "quatre-vingts"
  {
    assert IsPhrase("quatre-vingts", '-');
    PhraseIsCleanText("quatre-vingts", '-');
    CleanKeepsCleanText("quatre-vingts");
  }

  lemma HyphenatedEightyKey()
    ensures "quatre-vingts" !in Units && "quatre-vingts" in Tens && Tens["quatre-vingts"] == 80
  {
  }

  /** "quatre-vingts" is 80 by the exact lookup in `tens`. */
  lemma QuatreVingtsIsEighty()
    ensures FrenchNumber("quatre-vingts") == Some(80)
  {
    QuatreVingtsIsClean();
    HyphenatedEightyKey();
  }

  lemma SpacedEightySplit()
    ensures Split("quatre vingts") == ["quatre", "vingts"]
  {
    assert IsWord("quatre") && IsWord("vingts");
    SplitJoin(["quatre", "vingts"], ' ');
    assert Join(["quatre", "vingts"], ' ') == "quatre vingts";
  }

  lemma SpacedEightyKey()
    ensures "quatre vingts" !in Units && "quatre vingts" in Tens && Tens["quatre vingts"] == 80
  {
  }

  /**
   * The spaced spellings of eighty are two-word keys: the exact lookup answers
   * 80 while the scan alone would read "quatre" and skip "vingts".
   */
  lemma SpacedEightyNeedsLookup()
    ensures ParseClean("quatre vingts") == Some(80)
    ensures Compose(Split("quatre vingts")) == Some(4)
  {
    SpacedEightyKey();
    SpacedEightySplit();
    QuatreVingtsWords();
  }

  lemma DixIsClean()
    ensures Clean("dix") == "dix"
  {
    assert IsPhrase("dix", '-');
    PhraseIsCleanText("dix", '-');
    CleanKeepsCleanText("dix");
  }

  lemma DixKeys()
    ensures "dix" in Units && "dix" in Tens && Units["dix"] == 10 && Tens["dix"] == 10
  {
  }

  /** "dix" is in both tables; the `units` entry is the one read. */
  lemma DixIsTen()
    ensures "dix" in Units && "dix" in Tens
    ensures FrenchNumber("dix") == Some(Units["dix"]) == Some(10)
  {
    DixIsClean();
    DixKeys();
  }

  // ---------------------------------------------------------------------------
  // Zero, with and without trailing punctuation
  // ---------------------------------------------------------------------------

  lemma LowerZeroBang()
    ensures Lower("zéro !") == "zéro !"
  {
    var t := "zéro !";
    assert forall i :: 0 <= i < |t| ==> !IsUpper(t[i]);
  }

  lemma TrimZeroBang()
    ensures Trim("zéro !") == "zéro !"
  {
    var t := "zéro !";
    assert !IsSpace(t[0]) && !IsSpace(t[5]);
  }

  lemma StripZeroBang()
    ensures StripPunctuation("zéro !") == "zéro "
  {
    assert "zéro !" == "zéro " + "!";
    StripPunctuationAppend("zéro ", "!");
    assert StripPunctuation("!") == [];
  }

  lemma CollapseZeroSpace()
    ensures CollapseSpaces("zéro ") == "zéro "
  {
    var t := "zéro ";
    assert forall i :: 0 <= i < 4 ==> !IsSpace(t[i]);
    CollapseKeepsSingleSpaces(t);
  }

  /** Trimming comes before the punctuation is deleted, so the space before "!" stays. */
  lemma CleanZeroBang()
    ensures Clean("zéro !") == "zéro "
  {
    LowerZeroBang();
    TrimZeroBang();
    StripZeroBang();
    CollapseZeroSpace();
  }

  lemma SplitZeroSpace()
    ensures Split("zéro ") == ["zéro", ""]
  {
    assert "zéro " == "zéro" + " ";
    assert IsWord("zéro");
    SplitWordPrefix("zéro", " ");
    SplitOfSeparators(" ");
    assert "zéro" + [] == "zéro";
  }

  lemma ZeroKeys()
    ensures "zéro" in Units && Units["zéro"] == 0
    ensures "zéro " !in Units && "zéro " !in Tens && "zéro " != "cent"
  {
  }

  lemma ZeroIsClean()
    ensures Clean("zéro") == "zéro"
  {
    assert IsPhrase("zéro", '-');
    PhraseIsCleanText("zéro", '-');
    CleanKeepsCleanText("zéro");
  }

  lemma ZeroIsZero()
    ensures FrenchNumber("zéro") == Some(0)
  {
    ZeroIsClean();
    ZeroKeys();
  }

  lemma ZeroBangIsNull()
    ensures FrenchNumber("zéro !") == None
  {
    CleanZeroBang();
    ZeroKeys();
    SplitZeroSpace();
    ZeroAndEmptyWords();
  }

  /**
   * Trimming happens before punctuation is deleted, so "zéro !" cleans to "zéro "
   * with a trailing space: the exact lookup misses and the scan's zero total gives
   * null, while "zéro" gives 0.
   */
  lemma ZeroBeforePunctuationIsNull()
    ensures FrenchNumber("zéro") == Some(0)
    ensures FrenchNumber("zéro !") == None
  {
    ZeroIsZero();
    ZeroBangIsNull();
  }
}
