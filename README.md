# Push/fold range engine in Dafny

This project models the range engine of a push/fold poker trainer:

- **Hand grid.** The 13x13 grid of starting hands: pairs on the diagonal, suited hands above it, offsuit hands below it, in row-major order. It also covers the fixed tables of ranks, positions, stack depths and table sizes, and the legal first-in positions for each size.
- **Range parser.** It turns strings such as `22+, AJ+, KQ, 98s+` into a 169-cell push/fold grid.
- **Storage.** Ranges are kept under `players-position-stack` keys; quiz results go into a log that holds at most 500 entries.
- **Training view.** It deals two cards, maps them onto a grid cell, draws a scenario from the player's filters in a retry loop of at most 50 attempts, and judges a Push/Fold answer across the setup, quiz and feedback phases.
- **Range editor.** Its handlers toggle a cell, save, clear, reset, import text and correct the position, together with the effects that reload the grid.

Modules follow the source files:

| module | source file |
|---|---|
| `Types` | `types.ts` |
| `Constants` | `constants.ts` |
| `HandParser` | `utils/handParser.ts` |
| `Storage` | `utils/storage.ts` |
| `TrainingMode` | `views/TrainingMode.tsx` |
| `RangeEditor` | `views/RangeEditor.tsx` |

`Js` holds the JavaScript built-ins these use: `split`, `trim`, `filter` and `indexOf`. It also defines `join`, which no source file calls; it is there only so that `JoinSplit` can pin down what `split` returns.

How the source's imperative code is modelled:

- **Parser.** It writes into a 169-element `array<bool>` through `SetHand`, with the source's `for` and `while` loops. Each loop is proved against `TokenSelects`, a cell-by-cell description of what a token selects.
- **Store, trainer and editor.** Each is a class whose handlers are methods over the view's state.
- **Randomness.** `Math.random` is modelled as nondeterministic choice: a method's contract holds for every choice.

**Kicker ranges.** The kicker loop of `utils/handParser.ts:81` runs from the kicker up to one rank below the high card. So `AJ+` selects AJ, AQ **and AK**, suited and offsuit (`HandParser.AceJackPlusExample`).

## Model

| member | source | states |
|---|---|---|
| `Js.IndexOf` | constants.ts:86-87 | `indexOf` gives -1 exactly when the element is absent; otherwise it gives the first position holding it |
| `Js.IndexOfDistinct` | constants.ts:86-87 | in a list without repetitions, `indexOf` finds each element at its own position |
| `Js.FilterIncludes` | views/TrainingMode.tsx:123 | the filtered list holds exactly the elements of the first list that are also in the second |
| `Js.FilterSelected` | views/TrainingMode.tsx:107-109 | filtering by a `Record<K, boolean>` keeps exactly the elements whose entry is present and true |
| `Js.TextStart` | utils/handParser.ts:12 | the index found is the first one at or after the start index that does not hold white space, or the length when there is none |
| `Js.TextStartUnique` | utils/handParser.ts:12 | only one index has the properties `TextStart` promises |
| `Js.TextEnd` | utils/handParser.ts:12 | the index found is just past the last character before the end index that is not white space, or 0 when there is none |
| `Js.TextEndUnique` | utils/handParser.ts:12 | only one index has the properties `TextEnd` promises |
| `Js.TrimStart` | utils/handParser.ts:12 | the result is a suffix of the input; everything removed is white space; the result does not start with white space |
| `Js.TrimEnd` | utils/handParser.ts:12 | the result is a prefix of the input; everything removed is white space; the result does not end with white space |
| `Js.Trim` | utils/handParser.ts:12 | the result starts and ends with non-white space, and is empty exactly when the input is all white space |
| `Js.TrimInfix` | utils/handParser.ts:12 | `trim` returns the infix of the input that is left once the white space at its start and at its end is removed |
| `Js.Split` | utils/handParser.ts:12 | the result has at least one part, and no part contains the separator |
| `Js.JoinSplit` | utils/handParser.ts:12 | joining the parts of a split with the separator gives the input back |
| `Js.SplitConcat` | utils/handParser.ts:12 | splitting `a,b` gives the parts of `a` followed by the parts of `b` |
| `Js.SplitNoSeparator` | utils/handParser.ts:12 | text without the separator splits into itself alone |
| `Types.PositionNames` | types.ts:2-12 | position strings are pairwise distinct and contain no '-' |
| `Types.StackNames` | types.ts:14-19 | stack strings are pairwise distinct and contain no '-' |
| `Constants.RanksDistinct` | constants.ts:4 | there are 13 distinct rank symbols, 'A' first and '2' last |
| `Constants.RankSymbols` | constants.ts:4 | two ranks have the same symbol exactly when they have the same index |
| `Constants.RankIndexOf` | constants.ts:4 | looking up a rank's symbol gives back its index |
| `Constants.CellCoordinates` | constants.ts:56-79 | `row * 13 + col` lies in 0..168, and its row and column are `row` and `col` again |
| `Constants.HandAt` | constants.ts:56-79 | entry i sits at row i div 13 and column i mod 13; it is a pair iff row = col, suited iff row < col, offsuit iff row > col; its label has 2 or 3 characters |
| `Constants.LabelRanks` | constants.ts:65-74 | a label's first symbol is the higher rank and its second the lower |
| `Constants.CellBuilt` | constants.ts:60-75 | the cell the loop body builds at (row, col) is entry `row * 13 + col` |
| `Constants.BuildGridHands` | constants.ts:56-79 | the nested loops build exactly the 169 entries, in row-major order |
| `Constants.GridGrows` | constants.ts:56-79 | appending the cell for the next index keeps the built list equal to the grid entries so far |
| `Constants.LabelsDistinct` | constants.ts:65-74 | two cells with the same label are the same cell |
| `Constants.EmptyRange` | constants.ts:82 | 169 cells, every one a fold |
| `Constants.DefaultPreset` | constants.ts:85-95 | the preset has 169 cells |
| `Constants.DefaultPresetCells` | constants.ts:85-95 | the preset pushes exactly the pairs, every hand with an ace, every suited king, and every hand of two ranks from A to T |
| `Constants.PresetRule` | constants.ts:85-95 | the preset pushes a cell exactly when it is a pair, its higher rank is an ace, it is suited with a king high, or both ranks are ten or better |
| `Constants.LabelHoldsRank` | constants.ts:91-92 | a label contains a rank symbol exactly when that rank is one of the cell's two ranks |
| `Constants.PositionTables` | constants.ts:7-41 | each table size on offer has a list that keeps the order of `ALL_POSITIONS`, holds no BB and ends with SB; heads-up allows only SB, nine-handed all eight positions |
| `Constants.PositionTableKeys` | constants.ts:25-41 | a table size has legal positions exactly when it is one of 2, 4, 6, 9 |
| `HandParser.RankOf` | utils/handParser.ts:38-44 | a character maps to an index in 0..12 whose symbol is its upper case, or to none |
| `HandParser.RankSymbol` | utils/handParser.ts:5-6 | `RANK_MAP` sends every rank symbol to its index in `RANKS` |
| `HandParser.RankMapFromRanks` | utils/handParser.ts:5-6 | the lookup agrees with `RANKS.indexOf` of the upper-cased character, including for non-ranks |
| `HandParser.Classify` | utils/handParser.ts:16-46 | a token matching the pair pattern is the pair token of its rank, with `+` when it has three characters, even when the two-rank pattern matches too; otherwise a token matching the two-rank pattern is the hand token of its two ranks, with `+` exactly when it ends in '+'; rank indices are in range; a token is unmatched exactly when neither pattern matches |
| `HandParser.CleanTokens` | utils/handParser.ts:12 | the tokens are exactly the non-empty trimmed parts; all are non-empty, and there are no more of them than there were parts |
| `HandParser.CleanStep` | utils/handParser.ts:12 | the tokens of a list of parts are the non-empty trim of its first part followed by the tokens of the rest, so they are exactly the non-empty trimmed parts |
| `HandParser.AnySelectsAppend` | utils/handParser.ts:14-98 | one more token selects what the earlier tokens selected, plus what the new token selects |
| `HandParser.SetHand` | utils/handParser.ts:55-66 | the helper sets the suited cell (r1, r2) and/or the offsuit cell (r2, r1) as the qualifier allows, does nothing out of bounds, and clears nothing |
| `HandParser.ApplyToken` | utils/handParser.ts:16-97 | after one token, a cell is set exactly when it was set before or the token selects it (pair, pair-plus, exact, kicker and structure expansions) |
| `HandParser.ParseRangeString` | utils/handParser.ts:8-101 | the result has 169 cells, and cell i is a push exactly when some token of the input selects it |
| `HandParser.CleanTokensConcat` | utils/handParser.ts:12 | the tokens of two lists of parts are the tokens of each, concatenated |
| `HandParser.AnySelectsConcat` | utils/handParser.ts:14-98 | two lists of tokens together select the union of what each selects |
| `HandParser.ParseUnion` | utils/handParser.ts:12-98 | parsing `a,b` gives the cell-wise OR of parsing `a` and parsing `b` |
| `HandParser.SingleToken` | utils/handParser.ts:12 | a trimmed, non-empty text without a comma is its own single token |
| `HandParser.SingleTokenSelects` | utils/handParser.ts:12-14 | such a text selects what its one token selects |
| `HandParser.BlankInputHasNoTokens` | utils/handParser.ts:12 | input made only of commas and white space has no tokens |
| `HandParser.BlankParts` | utils/handParser.ts:12 | every part split from such input is white space |
| `HandParser.BlankPartsClean` | utils/handParser.ts:12 | white-space parts leave no tokens |
| `HandParser.UpperAll` | utils/handParser.ts:38-39 | upper-casing keeps the length and upper-cases each character |
| `HandParser.UpperEach` | utils/handParser.ts:38-39 | upper-casing a list of parts keeps its length |
| `HandParser.UpperKeepsPunctuation` | utils/handParser.ts:12 | upper-casing changes no comma, '+' or white space |
| `HandParser.UpperKeepsRank` | utils/handParser.ts:16-18 | upper-casing is idempotent and changes neither the rank class nor the rank index |
| `HandParser.UpperKeepsQualifier` | utils/handParser.ts:36-40 | upper-casing changes neither the qualifier class nor the qualifier read |
| `HandParser.SplitUpper` | utils/handParser.ts:12 | splitting commutes with upper-casing |
| `HandParser.TrimStartUpper` | utils/handParser.ts:12 | trimming the start commutes with upper-casing |
| `HandParser.TrimEndUpper` | utils/handParser.ts:12 | trimming the end commutes with upper-casing |
| `HandParser.CleanUpper` | utils/handParser.ts:12 | cleaning the tokens commutes with upper-casing |
| `HandParser.MatchesUpper` | utils/handParser.ts:16-36 | both patterns match a token exactly when they match its upper-cased form |
| `HandParser.ClassifyUpper` | utils/handParser.ts:16-44 | a token and its upper-cased form read as the same token |
| `HandParser.AnySelectsUpper` | utils/handParser.ts:14-98 | upper-casing every token changes no selected cell |
| `HandParser.UpperEachAt` | utils/handParser.ts:38-39 | part k of the upper-cased list is part k upper-cased |
| `HandParser.ParseIgnoresCase` | utils/handParser.ts:16-39 | parsing the upper-cased input selects the same cells as parsing the input |
| `HandParser.TrimStartPadded` | utils/handParser.ts:12 | leading white space is removed without trace |
| `HandParser.TrimEndPadded` | utils/handParser.ts:12 | trailing white space is removed without trace |
| `HandParser.TrimStartAppend` | utils/handParser.ts:12 | trimming the start of `x + w` trims `x` first, and then `w` too if `x` was all white space |
| `HandParser.TrimPadded` | utils/handParser.ts:12 | white space around a token does not change the trimmed token |
| `HandParser.ParseIgnoresPadding` | utils/handParser.ts:12 | a token padded with white space selects what the bare token selects |
| `HandParser.TokenOrderIrrelevant` | utils/handParser.ts:49-51 | exchanging a token's two rank characters ("KA" for "AK") selects the same cells |
| `HandParser.SwapMatches` | utils/handParser.ts:49-51 | exchanging the rank characters changes neither pattern's match; a pair token has one rank |
| `HandParser.DistinctRanks` | utils/handParser.ts:43-52 | distinct rank symbols have distinct indices |
| `HandParser.QualifierSplit` | utils/handParser.ts:55-66 | without a qualifier a token selects the union of its "s" and "o" forms; "s" sets only cells above the diagonal and "o" only cells below it |
| `HandParser.LiteralToken` | utils/handParser.ts:12-14 | an input that is one bare token selects what that token selects |
| `HandParser.RankPlain` | utils/handParser.ts:12 | no rank symbol is a comma or white space |
| `HandParser.RankCharPlain` | utils/handParser.ts:12 | no character of the rank class is a comma, '+' or white space |
| `HandParser.ClassifyPlusToken` | utils/handParser.ts:36-46 | two distinct rank characters, an optional "s" or "o" and "+" read as a two-rank plus token with that qualifier |
| `HandParser.KickerSelects` | utils/handParser.ts:77-83 | a kicker-mode token without a qualifier selects the hands of its high card with a kicker from its low card up to one below the high card |
| `HandParser.StructureSelects` | utils/handParser.ts:85-95 | a suited structure-mode token selects the suited cells with its gap whose high card is at or above its own |
| `HandParser.PairTokenCells` | utils/handParser.ts:16-31 | "RR" sets exactly the pair of rank R; "RR+" sets exactly the pairs from R up to aces |
| `HandParser.KickerTokenCells` | utils/handParser.ts:77-83 | with A, K or Q high, "XY+" sets exactly the hands of that high card whose kicker lies from Y up to one below the high card, suited and offsuit |
| `HandParser.StructureTokenCells` | utils/handParser.ts:85-95 | with J or lower high, "XYs+" sets exactly the suited cells with the same gap whose high card is at or above X, and no offsuit cell |
| `HandParser.PairPlusExample` | utils/handParser.ts:23-27 | "22+" is exactly the 13 pairs |
| `HandParser.AceJackPlusExample` | utils/handParser.ts:77-83 | "AJ+" is exactly AJ, AQ and AK, suited and offsuit |
| `HandParser.SuitedConnectorsExample` | utils/handParser.ts:85-95 | "98s+" is exactly 98s, T9s, JTs, QJs, KQs and AKs |
| `HandParser.KingQueenExample` | utils/handParser.ts:59-70 | "KQ" is exactly KQs and KQo |
| `HandParser.QualifiedPairExample` | utils/handParser.ts:36-52 | "AAs" passes the two-rank pattern but selects nothing |
| `HandParser.ClassifyPairLabel` | constants.ts:65-67 | a pair label reads as the plain pair token of its rank |
| `HandParser.ClassifyQualifiedLabel` | constants.ts:68-73 | a suited or offsuit label reads as the qualified two-rank token of its ranks |
| `HandParser.ClassifyLabel` | constants.ts:65-74 | a cell's label reads as the pair or qualified two-rank token of that cell |
| `HandParser.LabelIsBare` | constants.ts:65-74 | a label has no comma and no white space at either end |
| `HandParser.LabelTokenSelects` | utils/handParser.ts:29-70 | the token read from a label selects that cell and no other |
| `HandParser.ParseLabel` | utils/handParser.ts:8-101 | parsing the label of a cell selects that cell and no other |
| `Storage.NatToString` | utils/storage.ts:8 | a number prints as one or more digits, with no leading zero |
| `Storage.DecimalOfNatToString` | utils/storage.ts:8 | reading a printed number back gives the number |
| `Storage.NatToStringInjective` | utils/storage.ts:8 | different numbers print differently |
| `Storage.FirstDashAt` | utils/storage.ts:8 | in `a-b` with no dash in `a`, the first dash is the one after `a` |
| `Storage.SplitAtDash` | utils/storage.ts:8 | `a-b` determines `a` and `b` when `a` has no dash |
| `Storage.NoDashInNumber` | utils/storage.ts:8 | a printed number contains no dash |
| `Storage.KeyShape` | utils/storage.ts:7-9 | a key is the printed player count, a dash, then the position and stack |
| `Storage.StorageKeyInjective` | utils/storage.ts:7-9 | two contexts with the same key have the same players, position and stack |
| `Storage.DefaultKeyText` | utils/storage.ts:22 | the default context's key is "6-BTN-10bb" |
| `Storage.DefaultRanges` | utils/storage.ts:21-25 | the fallback ranges have exactly one key, "6-BTN-10bb", holding the preset |
| `Storage.StoredGrid` | views/TrainingMode.tsx:130-132 | the grid stored under a key, or the all-fold grid when the key is missing |
| `Storage.LoadedRanges` | utils/storage.ts:11-26 | parsable stored ranges are returned as they are; nothing stored or unparsable text gives the fallback |
| `Storage.LastN` | utils/storage.ts:44-45 | the last n elements, or all of them when there are fewer |
| `Storage.AppendCapped` | utils/storage.ts:43-45 | the new result always comes last; a log under 500 just grows by it; a log of at most 500 stays at most 500 |
| `Storage.SaveAllKeepsLatest` | utils/storage.ts:40-50 | after any sequence of saves into a log of at most 500, the log is exactly the latest 500 results (or all of them, if fewer) |
| `Storage.LastNAppend` | utils/storage.ts:44-45 | trimming to the last n before appending more makes no difference once trimmed again |
| `Storage.LoadedResults` | utils/storage.ts:52-58 | the stored log when parsable, otherwise empty |
| `Storage.Store.constructor` | utils/storage.ts:4-5 | a store with the given contents for its two keys |
| `Storage.Store.LoadRanges` | utils/storage.ts:11-26 | the stored ranges, or the one-entry default when nothing parsable is stored |
| `Storage.Store.SaveRange` | utils/storage.ts:28-33 | the loaded map with `key` holding `grid` is written and returned; every other key keeps its grid; the results log does not change |
| `Storage.Store.ResetRanges` | utils/storage.ts:35-38 | the ranges key is removed and the fallback ranges are returned |
| `Storage.Store.SaveResult` | utils/storage.ts:40-50 | the log becomes the capped append of the loaded log; an unparsable log leaves the store unchanged; ranges do not change |
| `Storage.Store.GetResults` | utils/storage.ts:52-58 | the stored log, or empty when nothing parsable is stored |
| `TrainingMode.CardFromInt` | views/TrainingMode.tsx:54-64 | card v has rank index v div 4 and suit index v mod 4, with the matching symbols |
| `TrainingMode.CardFromIntBijective` | views/TrainingMode.tsx:54-64 | every rank and suit comes from exactly one card number in 0..51 |
| `TrainingMode.DistinctCards` | views/TrainingMode.tsx:67-73 | two different card numbers give cards differing in rank or suit |
| `TrainingMode.CellOfCards` | views/TrainingMode.tsx:79-97 | the cell is in 0..168; a pair iff the ranks agree; suited iff they differ and the suits agree; offsuit iff both differ; its coordinates are the two ranks |
| `TrainingMode.DrawnHandIndex` | views/TrainingMode.tsx:66-103 | two distinct card numbers land on a cell in 0..168 |
| `TrainingMode.DrawSymmetric` | views/TrainingMode.tsx:81-97 | the dealt cell does not depend on the order of the cards |
| `TrainingMode.DealtLabel` | views/TrainingMode.tsx:81-97 | the dealt cell's label is the higher rank, then the lower, then "s" for one suit or "o" for two |
| `TrainingMode.DealtHandParses` | views/TrainingMode.tsx:136 | parsing the dealt hand's label selects the dealt cell and no other |
| `TrainingMode.PairDealt` | views/TrainingMode.tsx:81-84 | two cards of one rank deal that pair |
| `TrainingMode.SuitedDealt` | views/TrainingMode.tsx:85-89 | two spades deal the suited cell of their ranks |
| `TrainingMode.OffsuitDealt` | views/TrainingMode.tsx:90-95 | a spade and a heart of different ranks deal the offsuit cell |
| `TrainingMode.EveryCellDealt` | views/TrainingMode.tsx:66-103 | every one of the 169 cells can be dealt |
| `TrainingMode.MissingRangeFolds` | views/TrainingMode.tsx:131-137 | a scenario whose range was never saved expects a fold |
| `TrainingMode.Judge` | views/TrainingMode.tsx:161-171 | correct iff the answer is the expected action; Push is expected iff the hand should be pushed; label and key come from the scenario |
| `TrainingMode.ResultKeyIdentifiesScenario` | views/TrainingMode.tsx:169 | two results with one key come from the same players, position and stack |
| `TrainingMode.PickTable` | views/TrainingMode.tsx:117-153 | at most 50 attempts; a pick is an active table size with an active position legal for it; no pick means all 50 attempts failed |
| `TrainingMode.DrawnScenarioFits` | views/TrainingMode.tsx:126-147 | a scenario built from a legal pick and two distinct cards is legal, fits the filters and is judged against the stored range or all-fold |
| `TrainingMode.DrawScenarioFrom` | views/TrainingMode.tsx:117-153 | a drawn scenario fits the filters; when no active size has an active legal position, nothing is drawn |
| `TrainingMode.Trainer.constructor` | views/TrainingMode.tsx:18-46 | setup phase, only 6-max selected, every position and stack selected, stats from the stored log, no scenario or result |
| `TrainingMode.Trainer.LoadStoredRanges` | views/TrainingMode.tsx:48-50 | the mount effect replaces the empty ranges with the loaded ones and changes nothing else |
| `TrainingMode.Trainer.StartNextHand` | views/TrainingMode.tsx:105-156 | an empty filter alerts and changes nothing, and an alert happens for no other reason; a start shows a quiz whose scenario fits the filters; a failed search changes nothing |
| `TrainingMode.Trainer.Show` | views/TrainingMode.tsx:139-149 | the scenario is shown and the phase is quiz |
| `TrainingMode.Trainer.HandleAnswer` | views/TrainingMode.tsx:158-177 | without a scenario nothing changes; otherwise the judged result is saved to the capped log, appended to the stats, shown, and the phase is feedback |
| `TrainingMode.Trainer.BackToSetup` | views/TrainingMode.tsx:383 | the phase returns to setup and nothing else changes |
| `TrainingMode.Trainer.TogglePlayerCount` | views/TrainingMode.tsx:213 | only that table size's flag flips, a missing flag reading as off |
| `TrainingMode.Trainer.TogglePosition` | views/TrainingMode.tsx:231 | only that position's flag flips |
| `TrainingMode.Trainer.ToggleStack` | views/TrainingMode.tsx:249 | only that stack's flag flips |
| `RangeEditor.Toggled` | views/RangeEditor.tsx:52-55 | the copy has the same length, cell `index` flipped and every other cell kept |
| `RangeEditor.ToggleTwice` | views/RangeEditor.tsx:52-57 | toggling a cell twice gives the grid back |
| `RangeEditor.TogglesCommute` | views/RangeEditor.tsx:52-57 | toggling two cells gives the same grid in either order |
| `RangeEditor.CorrectedPosition` | views/RangeEditor.tsx:26-42 | a legal position is kept; an illegal one becomes the last legal position; with no legal positions nothing changes |
| `RangeEditor.CorrectionGoesToSmallBlind` | views/RangeEditor.tsx:35-42 | at each table size on offer an illegal position is corrected to SB, and correcting again keeps SB |
| `RangeEditor.ReadImport` | views/RangeEditor.tsx:81-90 | blank text is ignored; otherwise text whose parse pushes no cell cannot be parsed; otherwise the 169-cell parse is imported |
| `RangeEditor.FreshStoreShowsPreset` | utils/storage.ts:21-25 | with nothing parsable stored, the editor's opening context holds the preset |
| `RangeEditor.Editor.constructor` | views/RangeEditor.tsx:11-23 | the initial state: no ranges, 6 players, BTN, 10bb, an empty grid, not dirty, no import text |
| `RangeEditor.Editor.LoadGrid` | views/RangeEditor.tsx:44-50 | the grid-load effect shows the stored grid for the context or the all-fold grid and clears dirty |
| `RangeEditor.Editor.CorrectPosition` | views/RangeEditor.tsx:35-42 | the correction effect changes only the position, as `CorrectedPosition` says |
| `RangeEditor.Editor.Mount` | views/RangeEditor.tsx:28-50 | the stored ranges are loaded, the position corrected and the grid for the context shown |
| `RangeEditor.Editor.HandleToggle` | views/RangeEditor.tsx:52-57 | the grid becomes the toggled copy and is dirty; nothing else changes |
| `RangeEditor.Editor.HandleSave` | views/RangeEditor.tsx:59-64 | the grid is stored under the context's key, the editor takes the stored ranges, and the reloaded grid is the one saved, not dirty |
| `RangeEditor.Editor.HandleClear` | views/RangeEditor.tsx:66-71 | confirmed: all-fold and dirty; refused: nothing changes |
| `RangeEditor.Editor.HandleResetAll` | views/RangeEditor.tsx:73-78 | confirmed: the stored ranges are removed and the defaults shown; refused: nothing changes |
| `RangeEditor.Editor.HandleImport` | views/RangeEditor.tsx:80-95 | blank text changes nothing; text that parses to no push changes nothing; otherwise the grid is replaced by the parse, dirty, and the import box emptied |
| `RangeEditor.Editor.ShowImported` | views/RangeEditor.tsx:92-94 | an accepted parse replaces the grid, marks it edited and empties the import box; the context is kept |
| `RangeEditor.Editor.SetImportText` | views/RangeEditor.tsx:181 | only the import text changes |
| `RangeEditor.Editor.SelectPlayers` | views/RangeEditor.tsx:116 | the table size is set, the position corrected to a legal one, and the grid for the new context shown |
| `RangeEditor.Editor.SelectPosition` | views/RangeEditor.tsx:128 | the position is set and corrected, and the grid for the new context shown |
| `RangeEditor.Editor.SelectStack` | views/RangeEditor.tsx:138 | the stack is set and the grid for the new context shown |

## Left out

- **Rendering.** The JSX markup of both views, `components/HandGrid.tsx`, `components/Card.tsx` and `App.tsx` navigation are presentation only and are not modelled. `HandGrid.tsx` is read only to bound the index `onToggle` receives.
- **Browser storage encoding.** `localStorage` and JSON are not modelled. Each key is a `Slot`:
  - absent;
  - a value `JSON.parse` would return;
  - text it rejects.

  JSON that parses to a value of the wrong shape, and `setItem` failures such as an exceeded quota, are not modelled.
- **Randomness.** `Math.random` is nondeterministic choice.
  - The unbounded `while (c1 === c2)` redraw is replaced by choosing two different card numbers. Which distinct pair comes out is not modelled.
  - All random picks happen after the retry loop in the model. The order of picks is not observable.
- **Dialogs, alerts and the clock.** `alert` and `confirm` are outcome values and boolean inputs. `Date.now` is a timestamp parameter.
- **Statistics display.** The accuracy percentage and the recharts graph are floating-point arithmetic and rendering, so they are not modelled.
- **Unused types.** `TrainingSettings`, `PLAYER_COUNT_LABELS`, `POSITIONS` and `SUIT_ICONS` are not part of this model.
- **Table sizes.** `POSITIONS_BY_PLAYER_COUNT` is a function that gives the empty list for sizes it has no entry for. That is what `|| []` gives in the editor; the training view only looks up sizes that have entries. Table sizes are natural numbers.
- **Strings.** They are sequences of Unicode scalar values rather than UTF-16 code units.
- **Case folding.** Only a to z are folded, which is all the two patterns can meet.
- **Copies.** The array copies `[...existing]` and `[...EMPTY_RANGE]` are implicit: every grid is a value.
- **Aliasing.** `saveRange` stores the editor's own `currentGrid` array as the map entry it returns (`current[key] = grid`, `utils/storage.ts:30`), so that entry and the editor's grid are the same array. The map itself is a fresh parse of the stored string. The model holds grids as values, so this sharing is not observable in it.
- **React effects.** Intermediate renders between a state change and its effects are condensed: each handler ends in the state after its effects have run.
- RangeEditor.Editor.HandleToggle: requires the index to lie inside the current grid. The grid is empty only before the first load effect, and the grid view passes only indices 0..168. Writing past the end of an empty JavaScript array is not modelled.
- TrainingMode.PickTable: the returned attempt count includes the successful attempt. The source's counter does not, which only changes the count, not the 50-iteration bound.
- TrainingMode.Trainer.StartNextHand: does not promise a scenario whenever some legal pick exists. The source's retry loop may pick 50 unsuitable table sizes in a row, so no such promise holds.
