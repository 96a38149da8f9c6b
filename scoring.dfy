/**
 * The health-scoring pipeline (scoringService.ts): match each name, collect the
 * recognized, unrecognized and hazard lists, sum the matched rows' feature vectors,
 * score each row and the sum with the model, penalise hazards and clamp to [0, 1].
 */
module Scoring {
  import opened Wrappers
  import opened Seqs
  import opened Text
  import opened Nutrients
  import opened Lookup
  import opened Scaler

  datatype IngredientScore = IngredientScore(name: string, score: real)

  datatype HarmfulFlags = HarmfulFlags(carcinogenic: seq<string>, preservative: seq<string>)

  datatype ScoringResult = ScoringResult(
    overallHealthScore: real,
    ingredientScores: seq<IngredientScore>,
    harmfulFlags: HarmfulFlags,
    unrecognizedIngredients: seq<string>,
    recognizedIngredients: seq<string>)

  /** The row lookup the pipeline calls for each name (null when nothing matches). */
  type Finder = string -> Option<IngredientRow>

  /** The model call `runInference`, which may fail. */
  type Model = seq<real> -> Result<real, string>

  /** The columns of the feature vector, in the order the scaler expects. */
  const RequiredFeatures: seq<string> := [
    "water_g", "energ_kcal", "protein_g", "lipid_tot_g", "carbohydrt_g", "fiber_td_g",
    "sugar_tot_g", "calcium_mg", "iron_mg", "magnesium_mg", "potassium_mg", "sodium_mg",
    "zinc_mg", "copper_mg", "vit_c_mg", "vit_b6_mg", "vit_b12_ug", "vit_a_iu", "vit_e_mg",
    "vit_d_ug", "cholestrl_mg", "is_carcinogenic", "is_harmful_preservative"
  ]

  /** A boolean column used as a number: true is 1, false is 0. */
  function FlagAsNumber(b: bool): real {
    if b then 1.0 else 0.0
  }

  /** A row's values for `RequiredFeatures`, in that order. */
  function RawFeatures(row: IngredientRow): (r: seq<real>)
    ensures |r| == |RequiredFeatures| && r[..NutrientCount] == row.nutrients
    ensures (r[NutrientCount] == 1.0 <==> row.isCarcinogenic) && (r[NutrientCount] == 0.0 <==> !row.isCarcinogenic)
    ensures (r[NutrientCount + 1] == 1.0 <==> row.isHarmfulPreservative) && (r[NutrientCount + 1] == 0.0 <==> !row.isHarmfulPreservative)
  {
    row.nutrients + [FlagAsNumber(row.isCarcinogenic), FlagAsNumber(row.isHarmfulPreservative)]
  }

  /** The feature list names the nutrient columns and then the two flags, one per scaler entry. */
  lemma FeatureListMatchesScaler(row: IngredientRow)
    ensures RequiredFeatures == NutrientColumns + ["is_carcinogenic", "is_harmful_preservative"]
    ensures |RequiredFeatures| == |RawFeatures(row)| == |MEANS| == |SCALES|
    ensures ScaleInput(RawFeatures(row)).Ok?
  {
  }

  function ShrtDesc(row: IngredientRow): string {
    row.shrtDesc
  }

  predicate IsCarcinogenicRow(row: IngredientRow) {
    row.isCarcinogenic
  }

  predicate IsPreservativeRow(row: IngredientRow) {
    row.isHarmfulPreservative
  }

  function IsUnmatchedBy(find: Finder): string -> bool {
    n => find(n).None?
  }

  /** The rows found for `names`, in input order, one per name that matched. */
  function MatchedRows(find: Finder, names: seq<string>): (rows: seq<IngredientRow>)
    ensures |rows| <= |names|
    decreases |names|
  {
    if names == [] then []
    else
      var earlier := MatchedRows(find, Init(names));
      match find(Last(names))
      case Some(row) => earlier + [row]
      case None => earlier
  }

  lemma MatchedRowsSnoc(find: Finder, names: seq<string>, i: nat)
    requires i < |names|
    ensures MatchedRows(find, names[..i + 1]) ==
      MatchedRows(find, names[..i]) + (if find(names[i]).Some? then [find(names[i]).value] else [])
  {
    assert Init(names[..i + 1]) == names[..i];
  }

  /** The descriptions of the carcinogenic rows, in row order. */
  function CarcinogenicNames(rows: seq<IngredientRow>): seq<string> {
    Map(Filter(rows, IsCarcinogenicRow), ShrtDesc)
  }

  /** The descriptions of the harmful-preservative rows, in row order. */
  function PreservativeNames(rows: seq<IngredientRow>): seq<string> {
    Map(Filter(rows, IsPreservativeRow), ShrtDesc)
  }

  predicate AnyCarcinogenic(rows: seq<IngredientRow>) {
    exists k :: 0 <= k < |rows| && rows[k].isCarcinogenic
  }

  predicate AnyPreservative(rows: seq<IngredientRow>) {
    exists k :: 0 <= k < |rows| && rows[k].isHarmfulPreservative
  }

  /** A hazard list is non-empty exactly when some matched row carries that flag. */
  lemma HazardNamesPresent(rows: seq<IngredientRow>)
    ensures |CarcinogenicNames(rows)| > 0 <==> AnyCarcinogenic(rows)
    ensures |PreservativeNames(rows)| > 0 <==> AnyPreservative(rows)
  {
    FilterNonEmpty(rows, IsCarcinogenicRow);
    FilterNonEmpty(rows, IsPreservativeRow);
  }

  /** What one more matched row adds to the recognized and hazard lists. */
  lemma MatchedRowStep(rows: seq<IngredientRow>, r: IngredientRow)
    ensures Map(rows + [r], ShrtDesc) == Map(rows, ShrtDesc) + [r.shrtDesc]
    ensures CarcinogenicNames(rows + [r]) ==
      CarcinogenicNames(rows) + (if r.isCarcinogenic then [r.shrtDesc] else [])
    ensures PreservativeNames(rows + [r]) ==
      PreservativeNames(rows) + (if r.isHarmfulPreservative then [r.shrtDesc] else [])
  {
    FilterSnoc(rows, r, IsCarcinogenicRow);
    FilterSnoc(rows, r, IsPreservativeRow);
    MapSnoc(rows, r, ShrtDesc);
    MapSnoc(Filter(rows, IsCarcinogenicRow), r, ShrtDesc);
    MapSnoc(Filter(rows, IsPreservativeRow), r, ShrtDesc);
  }

  /** Column `j` of the element-wise sum of the rows' feature vectors. */
  function ColumnTotal(rows: seq<IngredientRow>, j: nat): real
    requires j < |RequiredFeatures|
    decreases |rows|
  {
    if rows == [] then 0.0 else ColumnTotal(Init(rows), j) + RawFeatures(Last(rows))[j]
  }

  /** The element-wise sum `totalNutrients` of the rows' feature vectors. */
  function Totals(rows: seq<IngredientRow>): (t: seq<real>)
    ensures |t| == |RequiredFeatures| == |MEANS|
  {
    seq(|RequiredFeatures|, j requires 0 <= j < |RequiredFeatures| => ColumnTotal(rows, j))
  }

  /** The scaled feature vector of one row. */
  function ScaledFeatures(row: IngredientRow): seq<real> {
    ScaleInput(RawFeatures(row)).value
  }

  /** Run the model on every input, in order; the first failure is the outcome. */
  function InferAll(runInference: Model, inputs: seq<seq<real>>): (r: Result<seq<real>, string>)
    ensures r.Ok? <==> forall k :: 0 <= k < |inputs| ==> runInference(inputs[k]).Ok?
    ensures r.Ok? ==> |r.value| == |inputs|
    ensures r.Ok? ==> forall k :: 0 <= k < |inputs| ==> r.value[k] == runInference(inputs[k]).value
    ensures r.Err? ==> exists k :: (0 <= k < |inputs| && runInference(inputs[k]) == Err(r.error)
                                    && forall j :: 0 <= j < k ==> runInference(inputs[j]).Ok?)
    decreases |inputs|
  {
    if inputs == [] then Ok([])
    else match runInference(inputs[0])
      case Err(e) => Err(e)
      case Ok(x) =>
        var rest := InferAll(runInference, inputs[1..]);
        assert forall k :: 1 <= k < |inputs| ==> inputs[k] == inputs[1..][k - 1];
        match rest
        case Err(e) =>
          var k :| 0 <= k < |inputs[1..]| && runInference(inputs[1..][k]) == Err(e)
            && forall j :: 0 <= j < k ==> runInference(inputs[1..][j]).Ok?;
          assert runInference(inputs[k + 1]) == Err(e);
          Err(e)
        case Ok(xs) => Ok([x] + xs)
  }

  /** The hazard penalties: times 0.1 for a carcinogen, then times 0.5 for a preservative. */
  function ApplyPenalties(score: real, anyCarcinogenic: bool, anyPreservative: bool): (r: real)
    ensures !anyCarcinogenic && !anyPreservative ==> r == score
    ensures anyCarcinogenic && !anyPreservative ==> r == score * 0.1
    ensures !anyCarcinogenic && anyPreservative ==> r == score * 0.5
    ensures anyCarcinogenic && anyPreservative ==> r == score * 0.05
    ensures 0.0 <= score ==> 0.0 <= r <= score
    ensures score <= 0.0 ==> score <= r <= 0.0
  {
    var afterCarcinogen := if anyCarcinogenic then score * 0.1 else score;
    if anyPreservative then afterCarcinogen * 0.5 else afterCarcinogen
  }

  /** `Math.max(0, Math.min(1, x))`. */
  function Clamp01(x: real): (r: real)
    ensures 0.0 <= r <= 1.0
    ensures 0.0 <= x <= 1.0 ==> r == x
    ensures x < 0.0 ==> r == 0.0
    ensures x > 1.0 ==> r == 1.0
  {
    if x < 0.0 then 0.0 else if x > 1.0 then 1.0 else x
  }

  /** The matching loop of `computeProductHealthScore`: what each name contributes, in input order. */
  method ClassifyNames(ingredientNames: seq<string>, find: Finder)
    returns (ingredientRows: seq<IngredientRow>, unrecognizedIngredients: seq<string>, recognizedIngredients: seq<string>,
             harmfulFlags: HarmfulFlags)
    ensures ingredientRows == MatchedRows(find, ingredientNames)
    ensures unrecognizedIngredients == Filter(ingredientNames, IsUnmatchedBy(find))
    ensures recognizedIngredients == Map(ingredientRows, ShrtDesc)
    ensures harmfulFlags == HarmfulFlags(
      CarcinogenicNames(ingredientRows),
      PreservativeNames(ingredientRows))
  {
    var carcinogenic: seq<string> := [];
    var preservative: seq<string> := [];
    unrecognizedIngredients, recognizedIngredients, ingredientRows := [], [], [];
    var i := 0;
    while i < |ingredientNames|
      invariant 0 <= i <= |ingredientNames|
      invariant ingredientRows == MatchedRows(find, ingredientNames[..i])
      invariant unrecognizedIngredients == Filter(ingredientNames[..i], IsUnmatchedBy(find))
      invariant recognizedIngredients == Map(ingredientRows, ShrtDesc)
      invariant carcinogenic == CarcinogenicNames(ingredientRows)
      invariant preservative == PreservativeNames(ingredientRows)
    {
      var ingName := ingredientNames[i];
      MatchedRowsSnoc(find, ingredientNames, i);
      assert ingredientNames[..i + 1] == ingredientNames[..i] + [ingName];
      FilterSnoc(ingredientNames[..i], ingName, IsUnmatchedBy(find));
      var row := find(ingName);
      if row.None? {
        unrecognizedIngredients := unrecognizedIngredients + [ingName];
      } else {
        var r := row.value;
        MatchedRowStep(ingredientRows, r);
        recognizedIngredients := recognizedIngredients + [r.shrtDesc];
        ingredientRows := ingredientRows + [r];
        if r.isCarcinogenic {
          carcinogenic := carcinogenic + [r.shrtDesc];
        }
        if r.isHarmfulPreservative {
          preservative := preservative + [r.shrtDesc];
        }
      }
      i := i + 1;
    }
    assert ingredientNames[..i] == ingredientNames;
    harmfulFlags := HarmfulFlags(carcinogenic, preservative);
  }

  /** The nested `totalNutrients[col] += row[col]` loops: the element-wise sum of the feature vectors. */
  method SumFeatures(ingredientRows: seq<IngredientRow>) returns (totalNutrients: seq<real>)
    ensures totalNutrients == Totals(ingredientRows)
  {
    totalNutrients := seq(|RequiredFeatures|, _ => 0.0);
    var n := 0;
    while n < |ingredientRows|
      invariant 0 <= n <= |ingredientRows|
      invariant |totalNutrients| == |RequiredFeatures|
      invariant forall j :: 0 <= j < |RequiredFeatures| ==> totalNutrients[j] == ColumnTotal(ingredientRows[..n], j)
    {
      var features := RawFeatures(ingredientRows[n]);
      assert Init(ingredientRows[..n + 1]) == ingredientRows[..n];
      var col := 0;
      while col < |RequiredFeatures|
        invariant 0 <= col <= |RequiredFeatures|
        invariant |totalNutrients| == |RequiredFeatures|
        invariant forall j :: 0 <= j < col ==> totalNutrients[j] == ColumnTotal(ingredientRows[..n + 1], j)
        invariant forall j :: col <= j < |RequiredFeatures| ==> totalNutrients[j] == ColumnTotal(ingredientRows[..n], j)
      {
        totalNutrients := totalNutrients[col := totalNutrients[col] + features[col]];
        col := col + 1;
      }
      n := n + 1;
    }
    assert ingredientRows[..n] == ingredientRows;
  }

  /** The `forEach` that pairs each matched row's description with its prediction. */
  method PairScores(ingredientRows: seq<IngredientRow>, predictions: seq<real>) returns (ingredientScores: seq<IngredientScore>)
    requires |predictions| == |ingredientRows|
    ensures |ingredientScores| == |ingredientRows|
    ensures forall k :: 0 <= k < |ingredientRows| ==>
      ingredientScores[k] == IngredientScore(ingredientRows[k].shrtDesc, predictions[k])
  {
    ingredientScores := [];
    var index := 0;
    while index < |ingredientRows|
      invariant 0 <= index <= |ingredientRows|
      invariant |ingredientScores| == index
      invariant forall k :: 0 <= k < index ==> ingredientScores[k] == IngredientScore(ingredientRows[k].shrtDesc, predictions[k])
    {
      ingredientScores := ingredientScores + [IngredientScore(ingredientRows[index].shrtDesc, predictions[index])];
      index := index + 1;
    }
  }

  /**
   * `computeProductHealthScore`, with the row lookup and the model as parameters.
   * Unmatched names are kept as given; matched ones contribute their row's description,
   * their row's features and their row's hazard flags. With no match the result is the
   * default one; otherwise a failed model call is the outcome, and the overall score is
   * the penalised, clamped model score of the scaled sum of the matched rows' features.
   */
  method ComputeProductHealthScore(ingredientNames: seq<string>, find: Finder, runInference: Model)
    returns (res: Result<ScoringResult, string>)
    ensures var rows := MatchedRows(find, ingredientNames);
      res.Ok? ==>
        && res.value.recognizedIngredients == Map(rows, ShrtDesc)
        && res.value.unrecognizedIngredients == Filter(ingredientNames, IsUnmatchedBy(find))
        && res.value.harmfulFlags == HarmfulFlags(
CarcinogenicNames(rows), PreservativeNames(rows))
        && 0.0 <= res.value.overallHealthScore <= 1.0
    ensures MatchedRows(find, ingredientNames) == [] ==>
      res.Ok? && res.value.overallHealthScore == 0.0 && res.value.ingredientScores == []
    ensures var rows := MatchedRows(find, ingredientNames);
      rows != [] ==>
        var predictions := InferAll(runInference, Map(rows, ScaledFeatures));
        var overall := runInference(ScaleInput(Totals(rows)).value);
        && (predictions.Err? ==> res == Err(predictions.error))
        && (predictions.Ok? && overall.Err? ==> res == Err(overall.error))
        && (predictions.Ok? && overall.Ok? ==>
             && res.Ok?
             && |res.value.ingredientScores| == |rows|
             && (forall k :: 0 <= k < |rows| ==>
                   res.value.ingredientScores[k] == IngredientScore(rows[k].shrtDesc, predictions.value[k]))
             && res.value.overallHealthScore ==
                  Clamp01(ApplyPenalties(overall.value, AnyCarcinogenic(rows), AnyPreservative(rows))))
  {
    var ingredientRows, unrecognizedIngredients, recognizedIngredients, harmfulFlags := ClassifyNames(ingredientNames, find);

    if |ingredientRows| == 0 {
      return Ok(ScoringResult(0.0, [], harmfulFlags, unrecognizedIngredients, recognizedIngredients));
    }

    var totalNutrients := SumFeatures(ingredientRows);

    // one model call per matched row, results kept in row order
    var scaledIngredientInputs := Map(ingredientRows, ScaledFeatures);
    var ingredientPredictions := InferAll(runInference, scaledIngredientInputs);
    if ingredientPredictions.Err? {
      return Err(ingredientPredictions.error);
    }
    var ingredientScores := PairScores(ingredientRows, ingredientPredictions.value);

    var scaled := ScaleInput(totalNutrients).value;
    var overall := runInference(scaled);
    if overall.Err? {
      return Err(overall.error);
    }
    var overallHealthScore := overall.value;
    HazardNamesPresent(ingredientRows);
    if |harmfulFlags.carcinogenic| > 0 {
      overallHealthScore := overallHealthScore * 0.1;
    }
    if |harmfulFlags.preservative| > 0 {
      overallHealthScore := overallHealthScore * 0.5;
    }
    overallHealthScore := Clamp01(overallHealthScore);

    return Ok(ScoringResult(overallHealthScore, ingredientScores, harmfulFlags, unrecognizedIngredients, recognizedIngredients));
  }

  /** Every name lands in exactly one of the recognized and unrecognized lists. */
  lemma {:induction false} EveryNameClassified(find: Finder, names: seq<string>)
    ensures |MatchedRows(find, names)| + |Filter(names, IsUnmatchedBy(find))| == |names|
    decreases |names|
  {
    if names != [] {
      EveryNameClassified(find, Init(names));
    }
  }

  /** Each matched row is what the lookup returned for one of the names. */
  lemma {:induction false} MatchedRowsFound(find: Finder, names: seq<string>, r: IngredientRow)
    requires r in MatchedRows(find, names)
    ensures exists n :: n in names && find(n) == Some(r)
    decreases |names|
  {
    var earlier := MatchedRows(find, Init(names));
    if r in earlier {
      MatchedRowsFound(find, Init(names), r);
      var n :| n in Init(names) && find(n) == Some(r);
      assert n in names;
    } else {
      assert find(Last(names)) == Some(r);
    }
  }

  /** Matching a concatenation of name lists concatenates their matched rows: input order is kept. */
  lemma {:induction false} MatchedRowsAppend(find: Finder, a: seq<string>, b: seq<string>)
    ensures MatchedRows(find, a + b) == MatchedRows(find, a) + MatchedRows(find, b)
    decreases |b|
  {
    if b == [] {
      assert a + b == a;
    } else {
      assert Init(a + b) == a + Init(b) && Last(a + b) == Last(b);
      MatchedRowsAppend(find, a, Init(b));
    }
  }

  /** Every row the lookup returns for some input name is among the matched rows. */
  lemma MatchedRowsComplete(find: Finder, names: seq<string>, n: string, r: IngredientRow)
    requires n in names && find(n) == Some(r)
    ensures r in MatchedRows(find, names)
  {
    var k :| 0 <= k < |names| && names[k] == n;
    assert names == names[..k] + [n] + names[k + 1..];
    MatchedRowsAppend(find, names[..k] + [n], names[k + 1..]);
    MatchedRowsAppend(find, names[..k], [n]);
    assert Init([n]) == [] && Last([n]) == n;
  }

  /**
   * The unrecognized list is the subsequence of unmatched names: input order kept, and
   * every occurrence of an unmatched name kept.
   */
  lemma UnrecognizedKeepsOrderAndDuplicates(find: Finder, names: seq<string>)
    ensures IsSubsequence(Filter(names, IsUnmatchedBy(find)), names)
    ensures forall x :: multiset(Filter(names, IsUnmatchedBy(find)))[x] == if find(x).None? then multiset(names)[x] else 0
  {
    FilterSubsequence(names, IsUnmatchedBy(find));
    forall x ensures multiset(Filter(names, IsUnmatchedBy(find)))[x] == if find(x).None? then multiset(names)[x] else 0 {
      FilterMultiplicity(names, IsUnmatchedBy(find), x);
    }
  }

  /** When no name matches, every name is unrecognized, in order, and nothing is recognized. */
  lemma {:induction false} NothingMatched(find: Finder, names: seq<string>)
    requires forall k :: 0 <= k < |names| ==> find(names[k]).None?
    ensures MatchedRows(find, names) == []
    ensures Filter(names, IsUnmatchedBy(find)) == names
    decreases |names|
  {
    if names != [] {
      NothingMatched(find, Init(names));
      assert find(Last(names)).None?;
      assert names == Init(names) + [Last(names)];
    }
  }

  /** Both hazard lists are subsequences of the recognized list. */
  lemma HazardListsWithinRecognized(rows: seq<IngredientRow>)
    ensures IsSubsequence(CarcinogenicNames(rows), Map(rows, ShrtDesc))
    ensures IsSubsequence(PreservativeNames(rows), Map(rows, ShrtDesc))
  {
    FilterSubsequence(rows, IsCarcinogenicRow);
    SubsequenceMap(Filter(rows, IsCarcinogenicRow), rows, ShrtDesc);
    FilterSubsequence(rows, IsPreservativeRow);
    SubsequenceMap(Filter(rows, IsPreservativeRow), rows, ShrtDesc);
  }

  /** Summing is additive over the rows: the totals of a concatenation are the sums of the parts' totals. */
  lemma {:induction false} TotalsAdditive(a: seq<IngredientRow>, b: seq<IngredientRow>, j: nat)
    requires j < |RequiredFeatures|
    ensures ColumnTotal(a + b, j) == ColumnTotal(a, j) + ColumnTotal(b, j)
    decreases |b|
  {
    if b != [] {
      assert Init(a + b) == a + Init(b);
      assert Last(a + b) == Last(b);
      TotalsAdditive(a, Init(b), j);
    } else {
      assert a + b == a;
    }
  }

  lemma MultisetRemoveAt(b: seq<IngredientRow>, k: nat)
    requires k < |b|
    ensures multiset(b[..k] + b[k + 1..]) == multiset(b) - multiset{b[k]}
  {
    assert b == b[..k] + [b[k]] + b[k + 1..];
  }

  /** Taking row `k` out of the rows takes its feature value out of the column total. */
  lemma ColumnTotalRemoveAt(b: seq<IngredientRow>, k: nat, j: nat)
    requires j < |RequiredFeatures| && k < |b|
    ensures ColumnTotal(b, j) == ColumnTotal(b[..k] + b[k + 1..], j) + RawFeatures(b[k])[j]
  {
    var before, after := b[..k], b[k + 1..];
    assert b == (before + [b[k]]) + after;
    TotalsAdditive(before + [b[k]], after, j);
    TotalsAdditive(before, after, j);
    assert Init(before + [b[k]]) == before && Last(before + [b[k]]) == b[k];
  }

  /** Column totals depend only on the multiset of rows, not on their order. */
  lemma {:induction false} ColumnTotalPermutation(a: seq<IngredientRow>, b: seq<IngredientRow>, j: nat)
    requires j < |RequiredFeatures|
    requires multiset(a) == multiset(b)
    ensures ColumnTotal(a, j) == ColumnTotal(b, j)
    decreases |a|
  {
    if a == [] {
      assert |b| == |multiset(b)| == 0;
    } else {
      var x := Last(a);
      assert a == Init(a) + [x];
      assert multiset(Init(a)) == multiset(a) - multiset{x};
      assert x in multiset(b);
      var k :| 0 <= k < |b| && b[k] == x;
      MultisetRemoveAt(b, k);
      ColumnTotalPermutation(Init(a), b[..k] + b[k + 1..], j);
      ColumnTotalRemoveAt(b, k, j);
    }
  }

  /** Reordering the matched rows in any way leaves the totals unchanged. */
  lemma TotalsOrderIndependent(a: seq<IngredientRow>, b: seq<IngredientRow>)
    requires multiset(a) == multiset(b)
    ensures Totals(a) == Totals(b)
  {
    forall j | 0 <= j < |RequiredFeatures| ensures Totals(a)[j] == Totals(b)[j] {
      ColumnTotalPermutation(a, b, j);
    }
  }

  /** A single row's total is its own feature vector. */
  lemma TotalsOfOne(row: IngredientRow)
    ensures Totals([row]) == RawFeatures(row)
  {
    forall j | 0 <= j < |RequiredFeatures| ensures Totals([row])[j] == RawFeatures(row)[j] {
      assert Init([row]) == [] && Last([row]) == row;
      assert ColumnTotal([row], j) == ColumnTotal([], j) + RawFeatures(row)[j];
    }
  }

  /**
   * Neither penalty ever raises the final score, whatever the model returned and
   * whatever the other hazard flag is.
   */
  lemma PenaltyNeverRaises(score: real, anyCarcinogenic: bool, anyPreservative: bool)
    ensures Clamp01(ApplyPenalties(score, true, anyPreservative)) <= Clamp01(ApplyPenalties(score, false, anyPreservative))
    ensures Clamp01(ApplyPenalties(score, anyCarcinogenic, true)) <= Clamp01(ApplyPenalties(score, anyCarcinogenic, false))
  {
  }

  /** The lookup `findIngredientRowCombined` performs over the dataset `dataArray`. */
  function CombinedFinder(dataArray: seq<IngredientRow>): Finder {
    n => CombinedLookup(dataArray, n)
  }

  /**
   * With the combined lookup, a name is unrecognized exactly when no dataset row's
   * lower-cased description contains its lower case, and every recognized row is a
   * dataset row containing the lower case of some input name.
   */
  lemma CombinedLookupClassification(dataArray: seq<IngredientRow>, names: seq<string>)
    ensures forall x :: x in Filter(names, IsUnmatchedBy(CombinedFinder(dataArray))) <==>
      x in names && forall i :: 0 <= i < |dataArray| ==> !RowContains(dataArray[i], Lower(x))
    ensures forall r :: r in MatchedRows(CombinedFinder(dataArray), names) ==>
      r in dataArray && exists n :: n in names && RowContains(r, Lower(n))
  {
    var find := CombinedFinder(dataArray);
    forall x ensures x in Filter(names, IsUnmatchedBy(find)) <==>
      x in names && forall i :: 0 <= i < |dataArray| ==> !RowContains(dataArray[i], Lower(x))
    {
      FilterMember(names, IsUnmatchedBy(find), x);
      LookupSound(dataArray, x);
    }
    forall r | r in MatchedRows(find, names)
      ensures r in dataArray && exists n :: n in names && RowContains(r, Lower(n))
    {
      MatchedRowsFound(find, names, r);
      var n :| n in names && find(n) == Some(r);
      LookupSound(dataArray, n);
    }
  }
}
