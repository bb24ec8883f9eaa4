/**
 * The French numeral parser of src/utils/frenchNumberParser.ts: `parseFrenchNumber`
 * turns a spoken French numeral into a number or null, and `extractNumberFromText`
 * prefers the first run of digits in the text and falls back to it.
 */
module FrenchNumberParser {

  import opened Wrappers
  import opened Strings

  /** The `units` table: 0 to 16, with two spellings of zero and of one. */
  const Units: map<string, nat> := map[
    "zéro" := 0, "zero" := 0,
    "un" := 1, "une" := 1,
    "deux" := 2, "trois" := 3, "quatre" := 4, "cinq" := 5, "six" := 6,
    "sept" := 7, "huit" := 8, "neuf" := 9, "dix" := 10,
    "onze" := 11, "douze" := 12, "treize" := 13, "quatorze" := 14,
    "quinze" := 15, "seize" := 16
  ]

  /** The `tens` table, with the Belgian and Swiss forms and six spellings of eighty. */
  const Tens: map<string, nat> := map[
    "dix" := 10, "vingt" := 20, "trente" := 30, "quarante" := 40,
    "cinquante" := 50, "soixante" := 60, "septante" := 70,
    "quatre-vingt" := 80, "quatre-vingts" := 80, "quatre vingt" := 80,
    "quatre vingts" := 80, "quatrevingt" := 80, "quatrevingts" := 80,
    "huitante" := 80, "nonante" := 90
  ]

  /** Lower-case, trim, delete `. , ! ? ;`, then collapse white space, in that order. */
  function Clean(text: string): string {
    CollapseSpaces(StripPunctuation(Trim(Lower(text))))
  }

  /** How the scan treats one word, tried in the order of the source's branches. */
  datatype Token = Unit(value: int) | Ten(value: int) | Hundred | Conjunction | Unrecognized

  function Classify(w: string): Token {
    if w in Units then Unit(Units[w])
    else if w in Tens then Ten(Tens[w])
    else if w == "cent" || w == "cents" then Hundred
    else if w == "et" then Conjunction
    else Unrecognized
  }

  /** The scan's two accumulators. */
  datatype Acc = Acc(total: int, current: int)

  /** The effect of a classified word on the accumulators. */
  function TokenStep(t: Token, a: Acc): Acc {
    match t
    case Unit(v) => Acc(a.total, a.current + v)
    case Ten(v) => Acc(a.total, a.current + v)
    case Hundred => Acc(a.total + (if a.current == 0 then 1 else a.current) * 100, 0)
    case Conjunction => a
    case Unrecognized => a
  }

  /**
   * The branch the scan takes for an unrecognized word: the special cases for
   * "soixante-dix" and "quatre-vingt-dix", which look at the preceding words.
   */
  function Positional(words: seq<string>, i: nat, a: Acc): Acc
    requires i < |words|
  {
    var w := words[i];
    if i > 0 && words[i - 1] == "soixante" then
      if w == "dix" then Acc(a.total, 70)
      else
        match Lookup(Units, w)
        case Some(v) => if v > 10 then Acc(a.total, 60 + v) else a
        case None => a
    else if i > 0 && (words[i - 1] == "quatre" || (i > 1 && words[i - 2] == "quatre" && words[i - 1] == "vingt")) then
      if w == "dix" then Acc(a.total, 90)
      else
        match Lookup(Units, w)
        case Some(v) => if v > 10 then Acc(a.total, 80 + v) else a
        case None => a
    else a
  }

  /** One iteration of the scan, at index `i` of `words`. */
  function Step(words: seq<string>, i: nat, a: Acc): Acc
    requires i < |words|
  {
    var t := Classify(words[i]);
    if t.Unrecognized? then Positional(words, i, a) else TokenStep(t, a)
  }

  /** The accumulators after the scan has processed the first `n` words. */
  function Scan(words: seq<string>, n: nat): (a: Acc)
    requires n <= |words|
    ensures a.total >= 0 && a.current >= 0
  {
    if n == 0 then Acc(0, 0) else Step(words, n - 1, Scan(words, n - 1))
  }

  /** The compositional path: the folded total when it is positive, otherwise null. */
  function Compose(words: seq<string>): (r: Option<int>)
    ensures r.Some? ==> r.value >= 1
  {
    var a := Scan(words, |words|);
    if a.total + a.current > 0 then Some(a.total + a.current) else None
  }

  /** Exact lookup of the whole cleaned text, then the compositional path. */
  function ParseClean(clean: string): Option<int> {
    if clean in Units then Some(Units[clean])
    else if clean in Tens then Some(Tens[clean])
    else if clean == "cent" then Some(100)
    else Compose(Split(clean))
  }

  /** `parseFrenchNumber` as a function of its input. */
  function FrenchNumber(text: string): (r: Option<int>)
    ensures r.Some? ==> r.value >= 0
  {
    if text == [] then None else ParseClean(Clean(text))
  }

  /** The compositional scan of `parseFrenchNumber`: one pass over the words. */
  method ScanWords(words: seq<string>) returns (total: int, current: int)
    ensures Acc(total, current) == Scan(words, |words|)
  {
    total, current := 0, 0;
    for i := 0 to |words|
      invariant Acc(total, current) == Scan(words, i)
    {
      var word := words[i];
      if word in Units {
        current := current + Units[word];
      } else if word in Tens {
        current := current + Tens[word];
      } else if word == "cent" || word == "cents" {
        if current == 0 {
          current := 1;
        }
        current := current * 100;
        total := total + current;
        current := 0;
      } else if word == "et" {
        // "et" in "vingt et un" contributes nothing
      } else if i > 0 && words[i - 1] == "soixante" {
        if word == "dix" {
          current := 70;
        } else {
          match Lookup(Units, word)
          case Some(v) => if v > 10 { current := 60 + v; }
          case None =>
        }
      } else if i > 0 && (words[i - 1] == "quatre" || (i > 1 && words[i - 2] == "quatre" && words[i - 1] == "vingt")) {
        if word == "dix" {
          current := 90;
        } else {
          match Lookup(Units, word)
          case Some(v) => if v > 10 { current := 80 + v; }
          case None =>
        }
      }
    }
  }

  /** `parseFrenchNumber`: the empty check, the exact lookups, then the scan. */
  method ParseFrenchNumber(text: string) returns (r: Option<int>)
    ensures r == FrenchNumber(text)
  {
    if text == [] {
      return None;
    }
    var clean := Clean(text);
    if clean in Units {
      return Some(Units[clean]);
    }
    if clean in Tens {
      return Some(Tens[clean]);
    }
    if clean == "cent" {
      return Some(100);
    }
    var total, current := ScanWords(Split(clean));
    total := total + current;
    r := if total > 0 then Some(total) else None;
  }

  /** `extractNumberFromText`: the first run of digits wins over any French words. */
  function ExtractNumberFromText(text: string): (r: Option<int>)
    ensures r.Some? ==> r.value >= 0
  {
    match FirstDigitRun(text)
    case Some(d) => Some(DigitsValue(d))
    case None => FrenchNumber(text)
  }
}
