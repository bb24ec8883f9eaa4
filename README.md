# Spoken multiplication answers: the French numeral parser and the dictation session

This project models the voice-input core of a multiplication-table trainer in Dafny,
and proves properties of that model. The core has two parts.

- **The French numeral parser** (`src/utils/frenchNumberParser.ts`):
  - `parseFrenchNumber` cleans a transcript. It lower-cases, trims, deletes `. , ! ? ;`, and collapses white space.
  - It then answers from the `units` table (0 to 16), the `tens` table (10 to 90, with Belgian and Swiss forms), or the word `cent`.
  - Otherwise it scans the words split on white space and hyphens. `current` accumulates units and tens. `cent`/`cents` moves `max(current, 1) * 100` into `total`.
  - The result is `total + current` when positive, and null otherwise.
  - `extractNumberFromText` returns the value of the first run of digits, if there is one, and otherwise defers to the French parser.
- **The dictation session** (`src/hooks/useVoiceRecognition.ts`):
  - The hook keeps `shouldListen`, `isListening`, the current recognition, the screen wake lock and the recognized text.
  - It reacts to these events: start, stop, a result, an error, the end of an utterance, a 100 ms restart timer, the page becoming visible again, and unmounting.
  - Recoverable errors (`no-speech`, `aborted`) and every `onend` while listening schedule a restart.
  - Any other error stops the session.

Files:

- `wrappers.dfy`: `Option` and a map lookup.
- `strings.dfy`: the JavaScript string operations the parser uses, over `string`:
  - `toLowerCase` and `trim`
  - the two `replace` calls
  - `split(/[\s-]+/)`
  - `match(/\d+/)` and `parseInt`
- `french_number_parser.dfy`:
  - the two tables and the cleaning step
  - the scan, as a function `Scan` and as the loop method `ScanWords`
  - `FrenchNumber`, which specifies the method `ParseFrenchNumber`
  - `ExtractNumberFromText`
- `french_number_facts.dfy`: what the parser does, proved about `Scan`/`FrenchNumber`:
  - a word-by-word fold as a reference semantics for the scan
  - blank input and zero
  - hyphens versus spaces
  - the `cent` rule
- `french_number_examples.dfy`: worked examples of `parseFrenchNumber` on particular phrases, proved from those facts.
- `extract_facts.dfy`: the first maximal digit run decides `extractNumberFromText`.
- `dictation.dfy`: the session state (`Session`) and one function per handler, plus the invariant `Inv`.
- `voice_recognition.dfy`: the hook as a class `DictationSession` with one method per event. Each method's new state is given by the corresponding handler function, and each method keeps `Inv`.
- `dictation_facts.dfy`: the rules for errors, restarts, stopping and the wake lock. It includes `Inv` over every event sequence and some event orders the handlers allow.

Behaviour a reader might expect that the code does not have:

- There is no table of two-digit compounds. "soixante-dix" is 70 only because `units` gives 10 to "dix", and "quatre-vingt-dix" is 4 + 20 + 10 = 34.
- `:` is not stripped.
- A digit anywhere in the transcript wins over any French words.
- Unit and tens words are 0 to 16 and 10 to 90; no unit compound such as "dix-sept" is a key. The only keys with a hyphen or a space are the four spellings of eighty.
- The unmount cleanup stops the recognition and releases the lock, but leaves `shouldListen` set, so it is not the same as `stopListening`.
- Nothing guards a second `startListening`, and a second wake lock can be acquired.
- Pending restart timers are not cancelled: the timer checks `shouldListen` when it fires.
- A `start()` that throws in an `onend` restart timer stops the session without releasing the wake lock, so not every stop path releases it.

## Model

| member | source | states |
|---|---|---|
| FrenchNumberParser.Scan | src/utils/frenchNumberParser.ts:57-96 | after any prefix of the words, `total` and `current` are both non-negative; each word goes through `Step`, which applies the look-back rules `Positional` (lines 79-94) to unrecognized words |
| FrenchNumberParser.Compose | src/utils/frenchNumberParser.ts:98-101 | the compositional path returns null or a number at least 1 |
| FrenchNumberParser.FrenchNumber | src/utils/frenchNumberParser.ts:2-102 | `parseFrenchNumber` returns null or a non-negative number; the cleaning of lines 6-8 is `Clean` (with `Strings.Trim` for `trim()`), and lines 44-101 are `ParseClean` |
| FrenchNumberParser.ScanWords | src/utils/frenchNumberParser.ts:57-96 | the `for` loop over the words, with all its branches, leaves exactly the accumulators of `Scan` |
| FrenchNumberParser.ParseFrenchNumber | src/utils/frenchNumberParser.ts:2-102 | the early returns and the scan compute `FrenchNumber(text)` |
| FrenchNumberParser.ExtractNumberFromText | src/utils/frenchNumberParser.ts:105-114 | `extractNumberFromText` returns null or a non-negative number; `parseInt` of line 109 is `DigitsValue` |
| Strings.Lower | src/utils/frenchNumberParser.ts:6 | no capital is left, the length is kept, every non-capital stays in place, so already lower-case text (every table key) is unchanged; with `LowerUndoesUpper`, each capital becomes its own lower-case letter |
| Strings.LowerUndoesUpper | src/utils/frenchNumberParser.ts:6 | lower-casing the independent upper-casing `Upper` of a text gives the lower-casing of the text: each capital becomes its own lower-case letter |
| Strings.TrimStart | src/utils/frenchNumberParser.ts:6 | the result is no longer than the input, it starts with a non-space, and everything dropped is white space |
| Strings.TrimStartIsSuffix | src/utils/frenchNumberParser.ts:6 | what the leading trim keeps is a suffix of its input |
| Strings.TrimEnd | src/utils/frenchNumberParser.ts:6 | the result is a prefix, it ends with a non-space, and everything dropped is white space |
| Strings.StripPunctuation | src/utils/frenchNumberParser.ts:7 | no character of `. , ! ? ;` remains, the result is no longer than the input, and text without them is unchanged |
| Strings.StripPunctuationOfChar | src/utils/frenchNumberParser.ts:7 | a punctuation character is deleted and any other is kept; with `StripPunctuationAppend` this fixes the result as the input's other characters, in order |
| Strings.CollapseSpaces | src/utils/frenchNumberParser.ts:8 | every white-space character left in the result is a plain space; `CollapseKeepsNonSpace` and `CollapseOfRun` fix the result |
| Strings.CollapseSpacesSeparatesSpaces | src/utils/frenchNumberParser.ts:8 | no two white-space characters are adjacent after the collapse |
| Strings.CollapseKeepsNonSpace | src/utils/frenchNumberParser.ts:8 | a character that is not white space is kept, in front of the collapse of the rest |
| Strings.CollapseOfRun | src/utils/frenchNumberParser.ts:8 | a maximal non-empty run of white space becomes exactly one plain space, in front of the collapse of the rest |
| Strings.Split | src/utils/frenchNumberParser.ts:61 | the split gives at least one field, and no field contains a space or a hyphen |
| Strings.FirstDigitRun | src/utils/frenchNumberParser.ts:107 | a match exists iff the text has a digit; the match is a non-empty run of digits, with no digit before it, that cannot be extended |
| FrenchNumberFacts.PositionalRulesNeverFire | src/utils/frenchNumberParser.ts:79-94 | the "soixante"/"quatre" rules never change `total` or `current`: every word they test is already caught by `units` |
| FrenchNumberFacts.InertWordChangesNothing | src/utils/frenchNumberParser.ts:75-95 | `et` and a word in neither table leave both accumulators unchanged |
| FrenchNumberFacts.StepIsContextFree | src/utils/frenchNumberParser.ts:63-96 | one iteration of the scan depends only on the current word, never on the preceding ones |
| FrenchNumberFacts.ScanIsRun | src/utils/frenchNumberParser.ts:57-96 | the scan equals a left-to-right fold of independently classified words |
| FrenchNumberFacts.RunAppend | src/utils/frenchNumberParser.ts:63-96 | scanning `p + q` is scanning `q` from where `p` left off |
| FrenchNumberFacts.RunIgnoresInertWords | src/utils/frenchNumberParser.ts:75-95 | deleting every `et` and every unknown word does not change the result |
| FrenchNumberFacts.RunWithoutHundred | src/utils/frenchNumberParser.ts:66-69 | without `cent`, unit and tens words only add their values to `current` |
| FrenchNumberFacts.HundredGroup | src/utils/frenchNumberParser.ts:70-74 | `p cent s` yields `max(sum(p), 1) * 100 + sum(s)`: "cent" alone is 100 |
| FrenchNumberFacts.KeysStartWithLetter | src/utils/frenchNumberParser.ts:11-54 | no table key and not "cent" is empty or starts with a separator |
| FrenchNumberFacts.UnitZeroByName | src/utils/frenchNumberParser.ts:11-29 | the only `units` keys worth 0 are "zéro" and "zero" |
| FrenchNumberFacts.TensAtLeastTen | src/utils/frenchNumberParser.ts:31-42 | every `tens` value is at least 10 |
| FrenchNumberFacts.SplitOfSeparators | src/utils/frenchNumberParser.ts:61 | a string of separators splits into one or two empty fields |
| FrenchNumberFacts.RunOfEmptyWords | src/utils/frenchNumberParser.ts:57-98 | empty fields leave the total at 0 |
| FrenchNumberFacts.CleanOfBlankText | src/utils/frenchNumberParser.ts:6-8 | text of white space and punctuation cleans to white space only |
| FrenchNumberFacts.ParseCleanOfSpaces | src/utils/frenchNumberParser.ts:44-101 | cleaned white space matches no key and the scan finds nothing: null |
| FrenchNumberFacts.BlankTextIsNull | src/utils/frenchNumberParser.ts:3-101 | empty, blank or punctuation-only input gives null |
| FrenchNumberFacts.ParseIgnoresCase | src/utils/frenchNumberParser.ts:6-101 | upper-casing the input does not change the parse |
| FrenchNumberFacts.ZeroOnlyByName | src/utils/frenchNumberParser.ts:44-101 | the result is 0 iff the cleaned text is exactly "zéro" or "zero" |
| FrenchNumberFacts.SplitWordPrefix | src/utils/frenchNumberParser.ts:61 | a word followed by a separator or the end starts the first field |
| FrenchNumberFacts.SplitCons | src/utils/frenchNumberParser.ts:61 | a non-separator in front of a text becomes the first character of its first field |
| FrenchNumberFacts.SplitAfterSeparator | src/utils/frenchNumberParser.ts:61 | a separator in front of a word-initial character yields an empty first field and then the text's own fields |
| FrenchNumberFacts.SplitJoin | src/utils/frenchNumberParser.ts:61 | non-empty words joined by one separator split back into the same words |
| FrenchNumberFacts.SkipSeparatorsCommutes | src/utils/frenchNumberParser.ts:61 | skipping separators commutes with turning hyphens into spaces |
| FrenchNumberFacts.SplitIgnoresSeparatorKind | src/utils/frenchNumberParser.ts:61 | turning hyphens into spaces does not change the word split |
| FrenchNumberFacts.UnitKeyHasNoSeparator | src/utils/frenchNumberParser.ts:11-29 | no `units` key contains a space or a hyphen |
| FrenchNumberFacts.TensKeyShape | src/utils/frenchNumberParser.ts:31-42 | only the four spaced or hyphenated spellings of eighty contain a separator |
| FrenchNumberFacts.SpacedEightyPreimage | src/utils/frenchNumberParser.ts:39 | every hyphen/space variant of "quatre vingt(s)" is itself a key worth 80 |
| FrenchNumberFacts.LookupIgnoresSeparatorKind | src/utils/frenchNumberParser.ts:44-54 | the three exact lookups give the same answers after hyphens become spaces |
| FrenchNumberFacts.ParseCleanIgnoresSeparatorKind | src/utils/frenchNumberParser.ts:44-101 | on cleaned text, hyphens and spaces are interchangeable: the parse is the same |
| FrenchNumberFacts.CollapseKeepsSingleSpaces | src/utils/frenchNumberParser.ts:8 | text whose white space is single spaces is unchanged by the collapse |
| FrenchNumberFacts.CleanKeepsCleanText | src/utils/frenchNumberParser.ts:6-8 | cleaning is the identity on already clean text |
| FrenchNumberFacts.PhraseIsCleanText | src/utils/frenchNumberParser.ts:6-8 | lower-case words joined by single spaces or hyphens are clean |
| FrenchNumberFacts.ParseOfJoinedWords | src/utils/frenchNumberParser.ts:44-101 | a phrase that is not a key is parsed by scanning exactly its words |
| FrenchNumberFacts.ComposeWithoutHundred | src/utils/frenchNumberParser.ts:63-101 | without `cent`, the compositional result is the sum of the word values, or null when it is 0 |
| FrenchNumberFacts.DirectLookupAgreesWithScan | src/utils/frenchNumberParser.ts:44-101 | for every one-word key except zero, the exact lookup and the scan give the same answer |
| FrenchNumberExamples.SpacedEightyNeedsLookup | src/utils/frenchNumberParser.ts:39-101 | "quatre vingts" is 80 only through the lookup: the scan alone gives 4 |
| FrenchNumberExamples.VingtEtUnHyphenated | src/utils/frenchNumberParser.ts:61-77 | "vingt-et-un" is 21 |
| FrenchNumberExamples.VingtEtUnSpaced | src/utils/frenchNumberParser.ts:61-77 | "vingt et un" is 21 |
| FrenchNumberExamples.VingtEtUnCapitals | src/utils/frenchNumberParser.ts:6-77 | "VINGT ET UN" is 21, like its lower-case form |
| FrenchNumberExamples.QuatreVingtDixIsThirtyFour | src/utils/frenchNumberParser.ts:66-94 | "quatre-vingt-dix" is 34, not 90: the quatre-vingt rule is unreachable |
| FrenchNumberExamples.SoixanteDixIsSeventy | src/utils/frenchNumberParser.ts:66-86 | "soixante-dix" is 70, by addition rather than by the soixante rule |
| FrenchNumberExamples.QuatreVingtsIsEighty | src/utils/frenchNumberParser.ts:39-50 | "quatre-vingts" is 80 by exact lookup |
| FrenchNumberExamples.DixIsTen | src/utils/frenchNumberParser.ts:22-47 | "dix" is in both tables and `units` answers first: 10 |
| FrenchNumberExamples.DeuxCentTrois | src/utils/frenchNumberParser.ts:66-101 | "deux cent trois" is 203 |
| FrenchNumberFacts.StripPunctuationAppend | src/utils/frenchNumberParser.ts:7 | deleting punctuation distributes over concatenation |
| FrenchNumberExamples.ZeroBeforePunctuationIsNull | src/utils/frenchNumberParser.ts:6-101 | "zéro" is 0 but "zéro !" is null: trimming happens before the punctuation is deleted |
| ExtractFacts.FirstDigitRunIsFirstMaximalRun | src/utils/frenchNumberParser.ts:107 | a run of digits with no digit before it and a non-digit or the end after it is exactly the match |
| ExtractFacts.ExtractPrefersDigits | src/utils/frenchNumberParser.ts:107-110 | when the text has a digit, the result is the value of its first maximal digit run, whatever the words |
| ExtractFacts.ExtractWithoutDigits | src/utils/frenchNumberParser.ts:107-113 | text has no digit iff there is no match and the French parser decides |
| ExtractFacts.ExtractFindsWrittenNumber | src/utils/frenchNumberParser.ts:107-110 | a decimal number after digit-free text, followed by a non-digit or the end, is returned |
| ExtractFacts.ExtractNatToString | src/utils/frenchNumberParser.ts:107-110 | extracting the decimal rendering of `n` gives `n` back |
| VoiceRecognition.DictationSession.constructor | src/hooks/useVoiceRecognition.ts:21-25 | a mounted session is idle: not listening, no recognition, no lock, empty text |
| VoiceRecognition.DictationSession.RequestWakeLock | src/hooks/useVoiceRecognition.ts:34-50 | a granted request takes a new lock and the session refers to it; otherwise nothing changes |
| VoiceRecognition.DictationSession.ReleaseWakeLock | src/hooks/useVoiceRecognition.ts:52-62 | the referenced lock, if any, is released and the reference cleared |
| VoiceRecognition.DictationSession.StartListening | src/hooks/useVoiceRecognition.ts:64-146 | without a speech API nothing changes; otherwise both flags are set, a new recognition is stored and started, and the lock is requested |
| VoiceRecognition.DictationSession.OnResult | src/hooks/useVoiceRecognition.ts:85-100 | the transcript is shown and delivered with `extractNumberFromText` of it |
| VoiceRecognition.DictationSession.OnError | src/hooks/useVoiceRecognition.ts:102-123 | a recoverable error rearms while listening; any other clears both flags and releases the lock |
| VoiceRecognition.DictationSession.OnEnd | src/hooks/useVoiceRecognition.ts:125-142 | rearms while listening, otherwise clears `isListening` |
| VoiceRecognition.DictationSession.FireRestart | src/hooks/useVoiceRecognition.ts:107-138 | the oldest timer fires; it starts the current recognition only while listening; a throw stops the session only on the `onend` path |
| VoiceRecognition.DictationSession.StopListening | src/hooks/useVoiceRecognition.ts:148-158 | stops and drops the recognition, clears both flags, releases the lock |
| VoiceRecognition.DictationSession.OnVisibilityChange | src/hooks/useVoiceRecognition.ts:170-184 | the lock is re-requested when the page shows while listening |
| VoiceRecognition.DictationSession.Unmount | src/hooks/useVoiceRecognition.ts:160-168 | stops the recognition and releases the lock, leaving the flags and the reference |
| VoiceRecognition.DictationSession.ClearRecognizedText | src/hooks/useVoiceRecognition.ts:186-188 | the recognized text becomes empty |
| DictationFacts.InitialIsValid | src/hooks/useVoiceRecognition.ts:21-25 | the mounted state satisfies the invariant and holds no lock |
| DictationFacts.EveryEventKeepsInv | src/hooks/useVoiceRecognition.ts:64-188 | every handler preserves `isListening == shouldListen`, `shouldListen` implies a recognition, and the identity bounds |
| DictationFacts.ReachableStatesKeepInv | src/hooks/useVoiceRecognition.ts:64-188 | every state reached from mounting by any sequence of events satisfies the invariant |
| DictationFacts.ListeningMeansShouldListen | src/hooks/useVoiceRecognition.ts:70-154 | in every reachable state, `isListening` equals `shouldListen`, and listening implies a recognition |
| DictationFacts.StartWithoutSpeechApi | src/hooks/useVoiceRecognition.ts:65-68 | without a speech API, `startListening` changes nothing |
| DictationFacts.StartStartsFreshRecognition | src/hooks/useVoiceRecognition.ts:64-146 | starting sets both flags and starts a recognition never called before; the lock set grows by one new lock exactly when it is granted |
| DictationFacts.ResultIsDelivered | src/hooks/useVoiceRecognition.ts:85-100 | each result sets the text and calls `onResult` exactly once with the extracted number, changing nothing else |
| DictationFacts.DigitsAreDelivered | src/hooks/useVoiceRecognition.ts:85-100 | a transcript that is the number `n` in digits delivers `n` |
| DictationFacts.RecoverableErrorKeepsListening | src/hooks/useVoiceRecognition.ts:104-118 | `no-speech`/`aborted` change neither flag nor the lock, and schedule a restart iff `shouldListen` |
| DictationFacts.OtherErrorStops | src/hooks/useVoiceRecognition.ts:119-122 | any other error clears both flags and releases the referenced lock |
| DictationFacts.EndRearmsOnlyWhileListening | src/hooks/useVoiceRecognition.ts:125-142 | `onend` schedules a restart iff `shouldListen`, and otherwise changes nothing |
| DictationFacts.RestartOnlyWhileListening | src/hooks/useVoiceRecognition.ts:107-138 | a timer calls `start()` iff the session should listen, has a recognition and `start()` does not throw, and the call goes to the current recognition |
| DictationFacts.ThrowingRestartByOrigin | src/hooks/useVoiceRecognition.ts:107-138 | a throwing `start()` stops the session on the `onend` path and changes nothing on the `onerror` path |
| DictationFacts.FailedEndRestartKeepsLock | src/hooks/useVoiceRecognition.ts:128-138 | whatever timers are pending behind it, a throwing restart on the `onend` path clears both flags and consumes only that timer, keeping the wake lock referenced and every held lock held |
| DictationFacts.TimersAfterStopAreInert | src/hooks/useVoiceRecognition.ts:107-138 | once `shouldListen` is false, any number of firing timers call no engine and change nothing but the pending list |
| DictationFacts.NoRestartAfterStop | src/hooks/useVoiceRecognition.ts:107-158 | after `stopListening`, no pending timer restarts the engine |
| DictationFacts.StopReleasesEverything | src/hooks/useVoiceRecognition.ts:148-158 | after a stop: both flags false, no recognition, no referenced lock, the old lock released, and a stop call for the old recognition |
| DictationFacts.StopIsIdempotent | src/hooks/useVoiceRecognition.ts:148-158 | a second stop changes nothing |
| DictationFacts.ReleaseIsIdempotent | src/hooks/useVoiceRecognition.ts:52-62 | releasing without a lock is a no-op; releasing twice is releasing once |
| DictationFacts.VisibilityRequestsLockOnlyWhileListening | src/hooks/useVoiceRecognition.ts:170-184 | the visibility handler changes the state iff the page shows while listening and a lock is granted |
| DictationFacts.HiddenThenVisibleHoldsOneLock | src/hooks/useVoiceRecognition.ts:170-184 | after the page is hidden and shown while listening, exactly the new lock is held |
| DictationFacts.DoubleStartLeaksLock | src/hooks/useVoiceRecognition.ts:64-158 | two starts and a stop leave the first lock held with no reference to it |
| DictationFacts.StaleTimerStopsNewSession | src/hooks/useVoiceRecognition.ts:125-158 | a timer from before a stop fires after a restart and, when `start()` throws, stops the new session |
| DictationFacts.UnmountDoesNotEndSession | src/hooks/useVoiceRecognition.ts:125-168 | after unmounting while listening, `onend` still rearms and the timer starts the same recognition again |

## Left out

- `Strings.Lower` lower-cases only Basic Latin and Latin-1 capitals. Full Unicode case mapping is not modelled, and no table key needs it.
- JavaScript object lookup in the two tables: `units[word]` also finds inherited properties such as `constructor`. The model uses plain maps, so those words are unrecognized.
- `ParseCleanIgnoresSeparatorKind` states the equivalence of hyphens and spaces on cleaned text only. On raw text they differ. Trim drops leading and trailing white space but not hyphens. The collapse merges a run of white space into one space but leaves a run of hyphens as it is. So "quatre  vingts" is 80, while "quatre--vingts" is 4.
- `parseInt` loses precision above 2^53. `DigitsValue` is exact.
- The hook's `await` on the wake-lock request and release is treated as atomic. A request resolving after the session stopped, and a release that rejects, are not modelled.
- `recognition.start()` in `startListening` can throw. That is not modelled; only the restart timers' `start()` may throw, as an input of `FireRestart`.
- The browser outcomes are inputs: whether a lock is granted, whether `start()` throws, and whether the page is visible. `PageHidden` stands for the browser releasing screen locks of a hidden page; the hook has no handler for it.
- Timer delays are not modelled. Pending restarts fire in the order they were scheduled.
- The recognition's settings (`lang`, `continuous`, `interimResults`, `maxAlternatives`) are not modelled.
- `addDebugLog`, `console` and `alert` are not modelled.
- React re-renders are not modelled. The `onResultRef` update is taken to mean that the latest callback receives each result; `delivered` records those calls.
- `src/App.tsx`, `src/components/InstallButton.tsx` and `src/main.tsx` are not part of this model. They hold UI, install-prompt and bootstrap code.
