# Product Insight ingredient pipeline, modelled in Dafny

This project models the ingredient-scoring core of the Product Insight mobile app. The app photographs a food package, reads its ingredient list by text recognition and scores it. The model covers five steps:

- **Text parsing** (`Parse`, from `parseIngredients.ts`). Keep what follows an `ingredients` marker. Split on commas. Trim and lower-case each piece. Drop the empty pieces.
- **Row lookup** (`Lookup`, from `ingredientLookup.ts`). Build a dictionary keyed by the lower-cased `shrt_desc`; the last duplicate wins. `findIngredientRowCombined` tries that dictionary first. If that misses, it takes the first row whose lower-cased description contains the lower-cased query.
- **Lookup table and classification** (`Features`, from `feature_extraction.ts`). The row-to-table loop of `loadNutrientLookup`, and `analyzeIngredients`, which splits names into recognized and unrecognized and marks carcinogens and harmful preservatives.
- **Feature scaling** (`Scaler`, from `scaler.ts`). Check the length, then standardise against the fixed `MEANS` and `SCALES` tables.
- **Scoring** (`Scoring`, from `scoringService.ts`). `computeProductHealthScore`: classify the names, sum the matched feature vectors, run the model per row and on the sum, apply the hazard penalties and clamp to [0, 1].

Helper modules: `Wrappers` (Option, Result), `Seqs` (order-preserving `Filter`, `Map`, the subsequence relation), `Text` (the JavaScript string operations used: `toLowerCase`, `trim`, `split`, `includes`), and `Nutrients` (the 21 nutrient columns).

Modelling decisions:

- `scoringService.ts:1` imports `findIngredientRow`, but `ingredientLookup.ts` exports only `findIngredientRowCombined`. The pipeline therefore takes the lookup as a parameter `find`. `Scoring.CombinedFinder` instantiates it with the combined lookup, and `Scoring.CombinedLookupClassification` states what the pipeline does under that instance.
- `ingredientLookup.ts:29-30` types the hazard flags as the strings `'TRUE'`/`'FALSE'`. `scoringService.ts:67-73` tests them for truthiness, and its comment calls them booleans. The JSON row's flags are modelled as booleans. In the summed and per-row feature vectors they count as 1 and 0, which is how `+=` and `-` coerce them (`scoringService.ts:89`, `scaler.ts:60`). In the CSV table (`feature_extraction.ts:92-94`) the flag columns stay text and are compared case-insensitively with `"true"`.
- The `loadNutrientLookup` that `analyzeIngredients` calls is replaced by a table parameter. Its empty-table check (`feature_extraction.ts:122-124`) is kept as an error result.
- `runInference` is a parameter `seq<real> -> Result<real, string>`, so it may fail. The `Promise.all` over the per-row calls is modelled in index order. The first failure by index is the outcome, and the overall call comes after all of them.
- Modelling choices that follow the code as written:
  - The code's matcher only lower-cases. It strips no punctuation, collapses no whitespace and has no token-overlap stage. Its containment test runs in one direction only: row name contains query.
  - The feature vector has 23 entries: 21 nutrients, then the two flags.
  - The hazard lists hold the matched row's `shrt_desc`, not the input spelling.
  - The marker pattern `ingredients[:\s]*` also matches when no colon or whitespace follows `ingredients`.
  - `scaleInput` checks the input's length against `MEANS` only.

## Model

| member | source | states |
|---|---|---|
| `Parse.FindMarker` | ProductInsightApp/src/services/parseIngredients.ts:10 | the leftmost position where the marker, in any ASCII case, is followed by at least one character; none exactly when there is no such position |
| `Parse.SelectText` | ProductInsightApp/src/services/parseIngredients.ts:9-11 | with no match the whole text is used; otherwise the text after the leftmost marker and its greedy run of `:`/whitespace, and when that run reaches the end, its last character (the regex backtracks) |
| `Parse.SelectBacktracks` | ProductInsightApp/src/services/parseIngredients.ts:10-11 | if only separators follow the leftmost marker, the selected text is the single last separator |
| `Parse.Normalize` | ProductInsightApp/src/services/parseIngredients.ts:17-19 | a cleaned piece is the lower case of a slice of the piece that leaves only whitespace outside it, and is no longer than the piece |
| `Parse.NormalizeProperties` | ProductInsightApp/src/services/parseIngredients.ts:17-19 | a trimmed, lower-cased piece is lower-case, has no whitespace at either end, and has a comma only if the piece had one |
| `Parse.ParseIngredients` | ProductInsightApp/src/services/parseIngredients.ts:6-23 | empty text gives an empty list; every entry is non-empty, lower-case, trimmed and comma-free; there are at most (commas in the selected text + 1) entries |
| `Parse.ParseKeepsOrderAndDuplicates` | ProductInsightApp/src/services/parseIngredients.ts:14-22 | for every text: joining the comma-split pieces with commas restores the selected text, and the output is a subsequence of the cleaned pieces in their order, keeps every occurrence of each non-empty piece, and contains no empty piece |
| `Text.Trim` | ProductInsightApp/src/services/parseIngredients.ts:18 | the result is a slice of the input with only whitespace outside it, and neither end of the result is whitespace |
| `Text.Split` | ProductInsightApp/src/services/parseIngredients.ts:14 | one more piece than there are separators, and no piece contains the separator |
| `Text.JoinSplit` | ProductInsightApp/src/services/parseIngredients.ts:14 | joining the pieces of a split gives the input back |
| `Text.SplitJoin` | ProductInsightApp/src/services/parseIngredients.ts:14 | splitting a join of separator-free pieces gives the pieces back |
| `Text.LowerIsLower` | ProductInsightApp/src/services/parseIngredients.ts:18 | lower-casing leaves no upper-case letter and is idempotent |
| `Text.Contains` | ProductInsightApp/src/services/ingredientLookup.ts:62 | true exactly when the query occurs at some offset of the string |
| `Lookup.DictOf` | ProductInsightApp/src/services/ingredientLookup.ts:39-43 | the dictionary after the `forEach`: empty exactly for an empty dataset, at most one entry per row, and the last row is always stored under its key |
| `Lookup.BuildDataDict` | ProductInsightApp/src/services/ingredientLookup.ts:39-43 | the `forEach` loop yields the dictionary in which each row is stored under its lower-cased description, processed in dataset order |
| `Lookup.DictKeys` | ProductInsightApp/src/services/ingredientLookup.ts:39-43 | a key is in the dictionary exactly when some row's lower-cased description equals it |
| `Lookup.DictLastWins` | ProductInsightApp/src/services/ingredientLookup.ts:39-43 | among rows sharing a lower-cased key the dictionary holds the last one in dataset order |
| `Lookup.DictEntriesAreRows` | ProductInsightApp/src/services/ingredientLookup.ts:39-43 | each entry is a dataset row stored under its own key |
| `Lookup.FirstContaining` | ProductInsightApp/src/services/ingredientLookup.ts:60-65 | the first index whose lower-cased description contains the query, with no earlier one; none exactly when no row contains it |
| `Lookup.CombinedLookup` | ProductInsightApp/src/services/ingredientLookup.ts:50-69 | the exact-then-substring lookup; any row it returns is a dataset row whose lower-cased description contains the lower-cased query |
| `Lookup.FindIngredientRowCombined` | ProductInsightApp/src/services/ingredientLookup.ts:50-69 | the exact-then-substring lookup loop with early return computes the combined lookup over the dataset |
| `Lookup.ExactHitWins` | ProductInsightApp/src/services/ingredientLookup.ts:53-58 | a query whose lower case is some row's key gets the dictionary's row for it, which has that key, whatever other rows contain the query |
| `Lookup.SubstringFallback` | ProductInsightApp/src/services/ingredientLookup.ts:60-65 | without an exact hit, a found row is the first in dataset order that contains the lower-cased query |
| `Lookup.LookupSound` | ProductInsightApp/src/services/ingredientLookup.ts:53-68 | a found row is a dataset row containing the lower-cased query; null exactly when no row contains it |
| `Features.TableOf` | ProductInsightApp/src/services/feature_extraction.ts:66-97 | the table after the `forEach`: empty exactly when no row has a description, at most one entry per row |
| `Features.TableKeys` | ProductInsightApp/src/services/feature_extraction.ts:66-70 | the table's keys are exactly the lower-cased non-empty descriptions |
| `Features.TableLastWins` | ProductInsightApp/src/services/feature_extraction.ts:66-95 | a key holds the last row with that key: its nutrients, each flag true exactly when its column lower-cases to "true" |
| `Features.BuildLookupTable` | ProductInsightApp/src/services/feature_extraction.ts:66-104 | the loop builds that table; the result is the "empty" error exactly when no row has a description |
| `Features.AnalyzeIngredients` | ProductInsightApp/src/services/feature_extraction.ts:119-160 | an empty table is an error; otherwise the four lists are the input names, in order and as spelled, filtered by: recognized, unrecognized, recognized and carcinogenic, recognized and harmful |
| `Features.AnalysisPartition` | ProductInsightApp/src/services/feature_extraction.ts:131-148 | empty names are in neither list; the list lengths add up to the number of non-empty names; a name is recognized exactly when its lower case is a key |
| `Features.HazardsWithinRecognized` | ProductInsightApp/src/services/feature_extraction.ts:134-145 | the carcinogenic and harmful lists are subsequences of the recognized list and are exactly its flagged entries |
| `Scaler.TablesWellFormed` | ProductInsightApp/src/services/scaler.ts:1-51 | both tables have 23 entries and every scale is positive |
| `Scaler.ScaleInput` | ProductInsightApp/src/services/scaler.ts:53-63 | a dimension error, carrying both lengths, exactly when the length differs from `MEANS`; otherwise same length and `(raw[i] - MEANS[i]) / SCALES[i]` at each index |
| `Scaler.ScaleRoundTrip` | ProductInsightApp/src/services/scaler.ts:60 | standardising is invertible: unscaling the output gives the input back |
| `Scoring.FeatureListMatchesScaler` | ProductInsightApp/src/services/scoringService.ts:14-38 | the 23 required features are the nutrient columns and the two flags, as many as the scaler's tables, so scaling a row never fails |
| `Scoring.RawFeatures` | ProductInsightApp/src/services/scoringService.ts:96-98 | a row's 23 features: its 21 nutrients, then the carcinogen and preservative flags, each 1 when set and 0 when not |
| `Scoring.MatchedRows` | ProductInsightApp/src/services/scoringService.ts:54-65 | the rows the lookup found, in input order, at most one per name |
| `Scoring.ClassifyNames` | ProductInsightApp/src/services/scoringService.ts:54-74 | the loop collects the matched rows in input order, the unmatched names, the matched rows' descriptions and their hazard sub-lists |
| `Scoring.MatchedRowsFound` | ProductInsightApp/src/services/scoringService.ts:56-65 | every matched row is what the lookup returned for some input name |
| `Scoring.MatchedRowsAppend` | ProductInsightApp/src/services/scoringService.ts:54-65 | matching a concatenation of name lists gives the concatenation of their matched rows, so input order is kept |
| `Scoring.MatchedRowsComplete` | ProductInsightApp/src/services/scoringService.ts:54-65 | every row the lookup returns for some input name is among the matched rows |
| `Scoring.Totals` | ProductInsightApp/src/services/scoringService.ts:87-91 | `totalNutrients`: one column total per required feature, as many entries as the scaler's tables |
| `Scoring.SumFeatures` | ProductInsightApp/src/services/scoringService.ts:87-91 | the nested loop computes the element-wise sum of the matched rows' feature vectors |
| `Scoring.TotalsAdditive` | ProductInsightApp/src/services/scoringService.ts:87-91 | each column total of a concatenation is the sum of the parts' totals |
| `Scoring.ColumnTotalPermutation` | ProductInsightApp/src/services/scoringService.ts:87-91 | two row lists with the same multiset of rows have the same column totals |
| `Scoring.TotalsOrderIndependent` | ProductInsightApp/src/services/scoringService.ts:87-91 | any reordering of the matched rows (same multiset) leaves the totals unchanged |
| `Scoring.TotalsOfOne` | ProductInsightApp/src/services/scoringService.ts:87-98 | the total of one row is that row's own feature vector |
| `Scoring.InferAll` | ProductInsightApp/src/services/scoringService.ts:99-102 | succeeds exactly when every model call does, with one result per input in order; otherwise fails with the error of the first failing input |
| `Scoring.PairScores` | ProductInsightApp/src/services/scoringService.ts:104-109 | one score per matched row, in row order, named by the row's description |
| `Scoring.ApplyPenalties` | ProductInsightApp/src/services/scoringService.ts:117-122 | the score is unchanged with no hazard, times 0.1 with only a carcinogen, times 0.5 with only a preservative, times 0.05 with both; a penalised score keeps its sign and never moves away from 0 |
| `Scoring.Clamp01` | ProductInsightApp/src/services/scoringService.ts:124 | the result lies in [0, 1], equals the input inside it, is 0 below and 1 above |
| `Scoring.HazardNamesPresent` | ProductInsightApp/src/services/scoringService.ts:117-122 | a hazard list is non-empty exactly when some matched row carries that flag |
| `Scoring.ComputeProductHealthScore` | ProductInsightApp/src/services/scoringService.ts:5-133 | recognized = matched rows' descriptions; unrecognized = unmatched names in order; hazard lists = flagged rows' descriptions; no match gives score 0 and no scores; otherwise a failed model call is the result; on success one score per matched row and overall = clamp01(model(scale(sum)) × 0.1 if carcinogen × 0.5 if preservative), in [0, 1] |
| `Scoring.EveryNameClassified` | ProductInsightApp/src/services/scoringService.ts:54-74 | recognized and unrecognized lengths add up to the number of input names |
| `Scoring.UnrecognizedKeepsOrderAndDuplicates` | ProductInsightApp/src/services/scoringService.ts:58-61 | the unrecognized list is a subsequence of the input holding every occurrence of each unmatched name |
| `Scoring.NothingMatched` | ProductInsightApp/src/services/scoringService.ts:76-85 | when no name matches, nothing is recognized and the unrecognized list is the whole input |
| `Scoring.HazardListsWithinRecognized` | ProductInsightApp/src/services/scoringService.ts:64-73 | both hazard lists are subsequences of the recognized list |
| `Scoring.PenaltyNeverRaises` | ProductInsightApp/src/services/scoringService.ts:117-124 | for any model score and any value of the other flag, neither the carcinogen penalty nor the preservative penalty raises the clamped score |
| `Scoring.CombinedLookupClassification` | ProductInsightApp/src/services/scoringService.ts:54-65 | with the combined lookup, a name is unrecognized exactly when no row's lower-cased description contains its lower case; every recognized row is a dataset row containing some input name's lower case |

## Left out

- Reading the dataset: the JSON import (`ingredientLookup.ts:2`), the RNFS file copy and read, Papa CSV parsing and its error callbacks, and `parseFloat`. Tables are built from rows that are already parsed.
- `Lookup.FindIngredientRowCombined`: `dataDict` is modelled as a map. Keys inherited from a plain JavaScript object, such as `constructor` and `__proto__`, are not modelled. Neither is assigning to `__proto__`.
- Strings are sequences of Unicode scalar values, while JavaScript strings are UTF-16 code units. On well-formed text, `length > 0`, `split`, `trim`, `includes` and the `[\s\S]+` capture group give the same result either way. Lone surrogates and code-unit lengths are not modelled.
- Lower-casing covers only the ASCII letters. Non-ASCII case mappings of `toLowerCase` are not modelled. The marker regex has no `u` flag, so its case-insensitive match is ASCII-only anyway.
- Numbers are reals. This leaves out `Float32Array` rounding in `scaleInput`, and IEEE behaviour such as NaN from missing fields and the `|| 0` that turns NaN into 0.
- `Features.BuildLookupTable`: the flag columns are assumed present. A missing `is_carcinogenic` or `is_harmful_preservative` column makes `toLowerCase` throw in the source.
- `Scoring.InferAll`: `Promise.all` runs the per-row calls concurrently and rejects with the first failure in time. The model fails with the first failure by index.
- Model loading and the model itself (`tfliteService.ts`, `inference.ts`) are a parameter, as are the lookup used by scoring and the table used by `analyzeIngredients`.
- Console logging, OCR (`mlkit.ts`), SQLite persistence (`database.ts`), screens, navigation, camera and permissions are not part of this model.
- The score-to-letter rank and token-overlap matching do not appear in the modelled code, so they are not modelled.
- Idempotence of scoring is not stated: Dafny functions and the pipeline's parameters are deterministic by construction.
