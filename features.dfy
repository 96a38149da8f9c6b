/**
 * Feature extraction (feature_extraction.ts): the lookup table built from the parsed CSV
 * rows, and the classification of ingredient names against that table.
 */
module Features {
  import opened Wrappers
  import opened Seqs
  import opened Text
  import opened Nutrients

  /**
   * One CSV row after parsing: the description, the numeric columns (already converted
   * by `parseFloat`) and the two hazard columns as the text found in the file.
   */
  datatype CsvRow = CsvRow(
    shrtDesc: string,
    nutrients: NutrientValues,
    isCarcinogenic: string,
    isHarmfulPreservative: string)

  /** One entry of the lookup table. */
  datatype NutritionalInfo = NutritionalInfo(
    nutrients: NutrientValues,
    isCarcinogenic: bool,
    isHarmfulPreservative: bool)

  type LookupTable = map<string, NutritionalInfo>

  /** A hazard column is set when its text, lower-cased, is "true". */
  function FlagValue(column: string): bool {
    Lower(column) == "true"
  }

  function InfoOf(row: CsvRow): NutritionalInfo {
    NutritionalInfo(row.nutrients, FlagValue(row.isCarcinogenic), FlagValue(row.isHarmfulPreservative))
  }

  /** Rows without a description are skipped. */
  predicate HasDesc(row: CsvRow) {
    row.shrtDesc != []
  }

  /** The table `lookupTable` holds after the `forEach` over `rows`. */
  function TableOf(rows: seq<CsvRow>): (t: LookupTable)
    ensures t == map[] <==> forall i :: 0 <= i < |rows| ==> !HasDesc(rows[i])
    ensures |t| <= |rows|
    decreases |rows|
  {
    if rows == [] then map[]
    else if HasDesc(Last(rows)) then TableOf(Init(rows))[Lower(Last(rows).shrtDesc) := InfoOf(Last(rows))]
    else TableOf(Init(rows))
  }

  /** The table's keys are exactly the lower-cased non-empty descriptions. */
  lemma {:induction false} TableKeys(rows: seq<CsvRow>, k: string)
    ensures k in TableOf(rows) <==> exists i :: 0 <= i < |rows| && HasDesc(rows[i]) && Lower(rows[i].shrtDesc) == k
    decreases |rows|
  {
    if rows != [] {
      TableKeys(Init(rows), k);
      if exists i :: 0 <= i < |rows| && HasDesc(rows[i]) && Lower(rows[i].shrtDesc) == k {
        var i :| 0 <= i < |rows| && HasDesc(rows[i]) && Lower(rows[i].shrtDesc) == k;
        if i < |rows| - 1 { assert Init(rows)[i] == rows[i]; }
      }
    }
  }

  /**
   * A later row with the same lower-cased description overwrites an earlier one: the
   * entry is the last such row's values, its flags read from its hazard columns.
   */
  lemma {:induction false} TableLastWins(rows: seq<CsvRow>, i: nat)
    requires i < |rows| && HasDesc(rows[i])
    requires forall j :: i < j < |rows| && HasDesc(rows[j]) ==> Lower(rows[j].shrtDesc) != Lower(rows[i].shrtDesc)
    ensures var k := Lower(rows[i].shrtDesc);
      && k in TableOf(rows)
      && TableOf(rows)[k] == NutritionalInfo(rows[i].nutrients, FlagValue(rows[i].isCarcinogenic), FlagValue(rows[i].isHarmfulPreservative))
    decreases |rows|
  {
    if i < |rows| - 1 {
      TableLastWins(Init(rows), i);
    }
  }

  /** The table-building part of `loadNutrientLookup`, from already-parsed rows. */
  method BuildLookupTable(data: seq<CsvRow>) returns (res: Result<LookupTable, string>)
    ensures res.Err? <==> forall i :: 0 <= i < |data| ==> data[i].shrtDesc == []
    ensures res.Err? ==> res.error == "Parsed lookup table is empty."
    ensures res.Ok? ==> res.value == TableOf(data) && |res.value| > 0
  {
    var lookupTable: LookupTable := map[];
    var i := 0;
    while i < |data|
      invariant 0 <= i <= |data|
      invariant lookupTable == TableOf(data[..i])
    {
      var row := data[i];
      assert Init(data[..i + 1]) == data[..i];
      if row.shrtDesc != [] {
        var ingredient := Lower(row.shrtDesc);
        lookupTable := lookupTable[ingredient := InfoOf(row)];
      }
      i := i + 1;
    }
    assert data[..i] == data;
    if |lookupTable| == 0 {
      forall j | 0 <= j < |data| ensures data[j].shrtDesc == [] {
        TableKeys(data, Lower(data[j].shrtDesc));
      }
      res := Err("Parsed lookup table is empty.");
    } else {
      var k :| k in lookupTable;
      TableKeys(data, k);
      res := Ok(lookupTable);
    }
  }

  /** The four lists `analyzeIngredients` returns. */
  datatype Analysis = Analysis(
    recognized: seq<string>,
    unrecognized: seq<string>,
    carcinogenic: seq<string>,
    harmful: seq<string>)

  function IsRecognizedIn(table: LookupTable): string -> bool {
    n => n != [] && Lower(n) in table
  }

  function IsUnrecognizedIn(table: LookupTable): string -> bool {
    n => n != [] && Lower(n) !in table
  }

  function IsCarcinogenicIn(table: LookupTable): string -> bool {
    n => n != [] && Lower(n) in table && table[Lower(n)].isCarcinogenic
  }

  function IsHarmfulIn(table: LookupTable): string -> bool {
    n => n != [] && Lower(n) in table && table[Lower(n)].isHarmfulPreservative
  }

  /**
   * `analyzeIngredients` with the loaded table passed in: every non-empty name goes,
   * with its own spelling and in input order, to `recognized` when its lower case is a
   * key and to `unrecognized` otherwise; recognized names with a flag set also go to
   * `carcinogenic` or `harmful`. An empty table is an error.
   */
  method AnalyzeIngredients(ingredientList: seq<string>, lookupTable: LookupTable) returns (res: Result<Analysis, string>)
    ensures res.Err? <==> |lookupTable| == 0
    ensures res.Err? ==> res.error == "Lookup table is empty or not loaded."
    ensures res.Ok? ==> res.value == Analysis(
      Filter(ingredientList, IsRecognizedIn(lookupTable)),
      Filter(ingredientList, IsUnrecognizedIn(lookupTable)),
      Filter(ingredientList, IsCarcinogenicIn(lookupTable)),
      Filter(ingredientList, IsHarmfulIn(lookupTable)))
  {
    if |lookupTable| == 0 {
      return Err("Lookup table is empty or not loaded.");
    }
    var recognized: seq<string> := [];
    var unrecognized: seq<string> := [];
    var carcinogenic: seq<string> := [];
    var harmful: seq<string> := [];
    var i := 0;
    while i < |ingredientList|
      invariant 0 <= i <= |ingredientList|
      invariant recognized == Filter(ingredientList[..i], IsRecognizedIn(lookupTable))
      invariant unrecognized == Filter(ingredientList[..i], IsUnrecognizedIn(lookupTable))
      invariant carcinogenic == Filter(ingredientList[..i], IsCarcinogenicIn(lookupTable))
      invariant harmful == Filter(ingredientList[..i], IsHarmfulIn(lookupTable))
    {
      var ingredient := ingredientList[i];
      assert ingredientList[..i + 1] == ingredientList[..i] + [ingredient];
      FilterSnoc(ingredientList[..i], ingredient, IsRecognizedIn(lookupTable));
      FilterSnoc(ingredientList[..i], ingredient, IsUnrecognizedIn(lookupTable));
      FilterSnoc(ingredientList[..i], ingredient, IsCarcinogenicIn(lookupTable));
      FilterSnoc(ingredientList[..i], ingredient, IsHarmfulIn(lookupTable));
      if ingredient != [] {
        var lowerCaseIngredient := Lower(ingredient);
        if lowerCaseIngredient in lookupTable {
          recognized := recognized + [ingredient];
          var nutritionalInfo := lookupTable[lowerCaseIngredient];
          if nutritionalInfo.isCarcinogenic {
            carcinogenic := carcinogenic + [ingredient];
          }
          if nutritionalInfo.isHarmfulPreservative {
            harmful := harmful + [ingredient];
          }
        } else {
          unrecognized := unrecognized + [ingredient];
        }
      }
      i := i + 1;
    }
    assert ingredientList[..i] == ingredientList;
    return Ok(Analysis(recognized, unrecognized, carcinogenic, harmful));
  }

  /**
   * Empty names reach neither list, every non-empty name reaches exactly one, and a name
   * is recognized exactly when its lower case is a key of the table.
   */
  lemma AnalysisPartition(ingredientList: seq<string>, table: LookupTable)
    ensures var recognized := Filter(ingredientList, IsRecognizedIn(table));
      var unrecognized := Filter(ingredientList, IsUnrecognizedIn(table));
      && |recognized| + |unrecognized| == |Filter(ingredientList, IsNonEmpty)|
      && [] !in recognized && [] !in unrecognized
      && (forall x :: x in recognized <==> x in ingredientList && x != [] && Lower(x) in table)
      && (forall x :: x in unrecognized <==> x in ingredientList && x != [] && Lower(x) !in table)
  {
    var present := Filter(ingredientList, IsNonEmpty);
    FilterOfFilter(ingredientList, IsRecognizedIn(table), IsNonEmpty);
    FilterOfFilter(ingredientList, IsUnrecognizedIn(table), IsNonEmpty);
    forall x | x in present ensures x != [] {
      FilterMember(ingredientList, IsNonEmpty, x);
    }
    FilterPartition(present, IsRecognizedIn(table), IsUnrecognizedIn(table));
    forall x ensures x in Filter(ingredientList, IsRecognizedIn(table)) <==> x in ingredientList && IsRecognizedIn(table)(x) {
      FilterMember(ingredientList, IsRecognizedIn(table), x);
    }
    forall x ensures x in Filter(ingredientList, IsUnrecognizedIn(table)) <==> x in ingredientList && IsUnrecognizedIn(table)(x) {
      FilterMember(ingredientList, IsUnrecognizedIn(table), x);
    }
  }

  /**
   * The hazard lists are subsequences of `recognized` holding exactly its entries whose
   * flag is set.
   */
  lemma HazardsWithinRecognized(ingredientList: seq<string>, table: LookupTable)
    ensures var recognized := Filter(ingredientList, IsRecognizedIn(table));
      && Filter(ingredientList, IsCarcinogenicIn(table)) == Filter(recognized, IsCarcinogenicIn(table))
      && Filter(ingredientList, IsHarmfulIn(table)) == Filter(recognized, IsHarmfulIn(table))
      && IsSubsequence(Filter(ingredientList, IsCarcinogenicIn(table)), recognized)
      && IsSubsequence(Filter(ingredientList, IsHarmfulIn(table)), recognized)
  {
    FilterOfFilter(ingredientList, IsCarcinogenicIn(table), IsRecognizedIn(table));
    FilterOfFilter(ingredientList, IsHarmfulIn(table), IsRecognizedIn(table));
    FilterStronger(ingredientList, IsCarcinogenicIn(table), IsRecognizedIn(table));
    FilterStronger(ingredientList, IsHarmfulIn(table), IsRecognizedIn(table));
  }
}
