/**
 * Ingredient row lookup (ingredientLookup.ts): a dictionary keyed by the lower-cased
 * description, in which the last row with a key wins, and a combined lookup that tries
 * that dictionary first and then the first row whose description contains the query.
 */
module Lookup {
  import opened Wrappers
  import opened Seqs
  import opened Text
  import opened Nutrients

  /**
   * One row of the bundled dataset. The hazard flags are booleans, as the scoring
   * pipeline treats them (the row type's comment calls them the strings 'TRUE'/'FALSE').
   */
  datatype IngredientRow = IngredientRow(
    shrtDesc: string,
    nutrients: NutrientValues,
    healthScore: real,
    isCarcinogenic: bool,
    isHarmfulPreservative: bool)

  /** The dictionary key of a row: its description in lower case. */
  function Key(row: IngredientRow): string {
    Lower(row.shrtDesc)
  }

  /** The dictionary `dataDict` holds after its `forEach` has seen `rows`. */
  function DictOf(rows: seq<IngredientRow>): (d: map<string, IngredientRow>)
    ensures d == map[] <==> rows == []
    ensures |d| <= |rows|
    ensures rows != [] ==> Key(Last(rows)) in d && d[Key(Last(rows))] == Last(rows)
    decreases |rows|
  {
    if rows == [] then map[] else DictOf(Init(rows))[Key(Last(rows)) := Last(rows)]
  }

  /** The keys of the dictionary are exactly the keys of the rows. */
  lemma {:induction false} DictKeys(rows: seq<IngredientRow>, k: string)
    ensures k in DictOf(rows) <==> exists i :: 0 <= i < |rows| && Key(rows[i]) == k
    decreases |rows|
  {
    if rows != [] {
      DictKeys(Init(rows), k);
      if exists i :: 0 <= i < |rows| && Key(rows[i]) == k {
        var i :| 0 <= i < |rows| && Key(rows[i]) == k;
        if i < |rows| - 1 { assert Init(rows)[i] == rows[i]; }
      }
    }
  }

  /** Among rows sharing a key, the dictionary holds the last one in dataset order. */
  lemma {:induction false} DictLastWins(rows: seq<IngredientRow>, i: nat)
    requires i < |rows|
    requires forall j :: i < j < |rows| ==> Key(rows[j]) != Key(rows[i])
    ensures Key(rows[i]) in DictOf(rows) && DictOf(rows)[Key(rows[i])] == rows[i]
    decreases |rows|
  {
    if i < |rows| - 1 {
      DictLastWins(Init(rows), i);
      assert Key(Last(rows)) != Key(rows[i]);
    }
  }

  /** Every dictionary entry is a row of the dataset stored under its own key. */
  lemma {:induction false} DictEntriesAreRows(rows: seq<IngredientRow>, k: string)
    requires k in DictOf(rows)
    ensures DictOf(rows)[k] in rows && Key(DictOf(rows)[k]) == k
    decreases |rows|
  {
    if k != Key(Last(rows)) {
      DictEntriesAreRows(Init(rows), k);
    }
  }

  /** The `forEach` that fills `dataDict` when the module loads. */
  method BuildDataDict(dataArray: seq<IngredientRow>) returns (dataDict: map<string, IngredientRow>)
    ensures dataDict == DictOf(dataArray)
  {
    dataDict := map[];
    var i := 0;
    while i < |dataArray|
      invariant 0 <= i <= |dataArray|
      invariant dataDict == DictOf(dataArray[..i])
    {
      var item := dataArray[i];
      assert Init(dataArray[..i + 1]) == dataArray[..i];
      dataDict := dataDict[Lower(item.shrtDesc) := item];
      i := i + 1;
    }
    assert dataArray[..i] == dataArray;
  }

  /** The lower-cased description of `row` contains the lower-cased query. */
  predicate RowContains(row: IngredientRow, lowerSearch: string) {
    Contains(Key(row), lowerSearch)
  }

  /** The index of the first row (from `from` on) whose lower-cased description contains the query. */
  function FirstContaining(rows: seq<IngredientRow>, lowerSearch: string, from: nat): (r: Option<nat>)
    requires from <= |rows|
    ensures r.Some? ==> from <= r.value < |rows| && RowContains(rows[r.value], lowerSearch)
    ensures r.Some? ==> forall j :: from <= j < r.value ==> !RowContains(rows[j], lowerSearch)
    ensures r.None? ==> forall j :: from <= j < |rows| ==> !RowContains(rows[j], lowerSearch)
    decreases |rows| - from
  {
    if from == |rows| then None
    else if RowContains(rows[from], lowerSearch) then Some(from)
    else FirstContaining(rows, lowerSearch, from + 1)
  }

  /** What `findIngredientRowCombined` resolves to for the dataset `rows`. */
  function CombinedLookup(rows: seq<IngredientRow>, ingredientName: string): (r: Option<IngredientRow>)
    ensures r.Some? ==> r.value in rows && RowContains(r.value, Lower(ingredientName))
  {
    var lowerSearch := Lower(ingredientName);
    var dict := DictOf(rows);
    if lowerSearch in dict then
      DictEntriesAreRows(rows, lowerSearch);
      ContainsItself(lowerSearch);
      Some(dict[lowerSearch])
    else match FirstContaining(rows, lowerSearch, 0)
      case Some(i) => Some(rows[i])
      case None => None
  }

  /**
   * `findIngredientRowCombined`: the dictionary entry for the lower-cased name if there
   * is one, otherwise the first row whose lower-cased description contains it, otherwise null.
   */
  method FindIngredientRowCombined(dataArray: seq<IngredientRow>, dataDict: map<string, IngredientRow>, ingredientName: string)
    returns (r: Option<IngredientRow>)
    requires dataDict == DictOf(dataArray)
    ensures r == CombinedLookup(dataArray, ingredientName)
  {
    var lowerSearch := Lower(ingredientName);
    if lowerSearch in dataDict {
      return Some(dataDict[lowerSearch]);
    }
    var i := 0;
    while i < |dataArray|
      invariant 0 <= i <= |dataArray|
      invariant FirstContaining(dataArray, lowerSearch, 0) == FirstContaining(dataArray, lowerSearch, i)
    {
      if Contains(Lower(dataArray[i].shrtDesc), lowerSearch) {
        return Some(dataArray[i]);
      }
      i := i + 1;
    }
    return None;
  }

  /**
   * Exact hits are case-insensitive and take priority: a name whose lower case is the
   * key of some row gets the dictionary's row for that key, whatever other rows contain it.
   */
  lemma ExactHitWins(rows: seq<IngredientRow>, ingredientName: string, i: nat)
    requires i < |rows| && Key(rows[i]) == Lower(ingredientName)
    ensures var r := CombinedLookup(rows, ingredientName);
      Lower(ingredientName) in DictOf(rows) && r == Some(DictOf(rows)[Lower(ingredientName)]) && Key(r.value) == Lower(ingredientName) && r.value in rows
  {
    DictKeys(rows, Lower(ingredientName));
    DictEntriesAreRows(rows, Lower(ingredientName));
  }

  /** Without an exact hit, the result is the first row in dataset order that contains the query. */
  lemma SubstringFallback(rows: seq<IngredientRow>, ingredientName: string)
    requires forall i :: 0 <= i < |rows| ==> Key(rows[i]) != Lower(ingredientName)
    ensures var r := CombinedLookup(rows, ingredientName);
      r.Some? ==> exists i :: (0 <= i < |rows| && r.value == rows[i] && RowContains(rows[i], Lower(ingredientName))
                               && forall j :: 0 <= j < i ==> !RowContains(rows[j], Lower(ingredientName)))
  {
    DictKeys(rows, Lower(ingredientName));
  }

  /**
   * Any row found contains the lower-cased query (in that direction only), and nothing is
   * found exactly when no row's lower-cased description contains it.
   */
  lemma LookupSound(rows: seq<IngredientRow>, ingredientName: string)
    ensures var r := CombinedLookup(rows, ingredientName);
      && (r.Some? ==> r.value in rows && RowContains(r.value, Lower(ingredientName)))
      && (r.None? <==> forall i :: 0 <= i < |rows| ==> !RowContains(rows[i], Lower(ingredientName)))
  {
    var q := Lower(ingredientName);
    if q in DictOf(rows) {
      DictEntriesAreRows(rows, q);
      ContainsItself(q);
    } else {
      DictKeys(rows, q);
    }
  }
}
