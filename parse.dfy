/**
 * Ingredient text parsing (parseIngredients.ts): keep what follows an "ingredients"
 * marker, split on commas, trim and lower-case every piece and drop the empty ones.
 */
module Parse {
  import opened Wrappers
  import opened Seqs
  import opened Text

  /** The marker the pattern `/ingredients[:\s]*([\s\S]+)/i` starts with. */
  const Marker: string := "ingredients"

  /** The class `[:\s]` of characters skipped after the marker. */
  predicate IsSeparator(c: char) {
    c == ':' || IsWhitespace(c)
  }

  /**
   * The pattern matches starting at `p`: the marker, in any ASCII letter case, followed
   * by at least one character for the capture group `([\s\S]+)`. The pattern carries no
   * `u` flag, so its case folding only relates ASCII letters to ASCII letters.
   */
  predicate MarkerAt(s: string, p: nat) {
    p + |Marker| < |s| && Lower(s[p..p + |Marker|]) == Marker
  }

  /** The leftmost position from `from` on where the pattern matches. */
  function FindMarker(s: string, from: nat): (r: Option<nat>)
    requires from <= |s|
    ensures r.Some? ==> from <= r.value <= |s| && MarkerAt(s, r.value)
    ensures r.Some? ==> forall q: nat :: from <= q < r.value ==> !MarkerAt(s, q)
    ensures r.None? ==> forall q: nat :: from <= q <= |s| ==> !MarkerAt(s, q)
    decreases |s| - from
  {
    if MarkerAt(s, from) then Some(from)
    else if from == |s| then None
    else FindMarker(s, from + 1)
  }

  /**
   * The text the rest of the parse works on: the capture group of the leftmost match,
   * or the whole text when the pattern does not match. The greedy `[:\s]*` takes the
   * whole run of separators after the marker; when that run reaches the end of the text
   * it gives back its last character so that `([\s\S]+)` can match it.
   */
  function SelectText(s: string): (r: string)
    ensures (forall p: nat :: p <= |s| ==> !MarkerAt(s, p)) ==> r == s
    ensures forall p: nat :: p <= |s| && MarkerAt(s, p) && (forall q: nat :: q < p ==> !MarkerAt(s, q)) ==>
      var e := SpanEnd(s, p + |Marker|, IsSeparator);
      r == if e < |s| then s[e..] else [s[|s| - 1]]
  {
    match FindMarker(s, 0)
    case None => s
    case Some(p) =>
      var e := SpanEnd(s, p + |Marker|, IsSeparator);
      if e < |s| then s[e..] else [s[|s| - 1]]
  }

  /** When only separators follow the leftmost marker, the selected text is the last of them. */
  lemma SelectBacktracks(s: string, p: nat)
    requires p <= |s| && MarkerAt(s, p) && forall q: nat :: q < p ==> !MarkerAt(s, q)
    requires forall k :: p + |Marker| <= k < |s| ==> IsSeparator(s[k])
    ensures SelectText(s) == [s[|s| - 1]] && IsSeparator(s[|s| - 1])
  {
    var e := SpanEnd(s, p + |Marker|, IsSeparator);
    assert e == |s|;
  }

  /** One comma-separated piece, cleaned: `trim()` then `toLowerCase()`. */
  function Normalize(piece: string): (r: string)
    ensures |r| <= |piece|
    ensures exists a: nat, b: nat :: WhitespaceOutside(piece, a, b) && r == Lower(piece[a..b])
  {
    Lower(Trim(piece))
  }

  /** A cleaned piece is lower-case, trimmed, and has a comma only if the piece had one. */
  lemma NormalizeProperties(piece: string)
    ensures IsLower(Normalize(piece)) && IsTrimmed(Normalize(piece))
    ensures ',' in Normalize(piece) ==> ',' in piece
  {
    var t := Trim(piece);
    var n := Lower(t);
    LowerIsLower(t);
    if t != [] {
      LowerCharClass(t[0]);
      LowerCharClass(t[|t| - 1]);
    }
    if ',' in n {
      var k :| 0 <= k < |n| && n[k] == ',';
      LowerCharClass(t[k]);
      var a: nat, b: nat :| WhitespaceOutside(piece, a, b) && t == piece[a..b];
      assert piece[a + k] == ',';
    }
  }

  /** `parseIngredients`: the cleaned, non-empty comma-separated pieces of the selected text. */
  function ParseIngredients(ocrText: string): (r: seq<string>)
    ensures ocrText == [] ==> r == []
    ensures forall i :: 0 <= i < |r| ==> r[i] != [] && IsLower(r[i]) && IsTrimmed(r[i]) && ',' !in r[i]
    ensures |r| <= CountChar(SelectText(ocrText), ',') + 1
  {
    if ocrText == [] then []
    else
      var pieces := Split(SelectText(ocrText), ',');
      var cleaned := Map(pieces, Normalize);
      var r := Filter(cleaned, IsNonEmpty);
      assert forall i :: 0 <= i < |r| ==> r[i] != [] && IsLower(r[i]) && IsTrimmed(r[i]) && ',' !in r[i] by {
        forall i | 0 <= i < |r|
          ensures r[i] != [] && IsLower(r[i]) && IsTrimmed(r[i]) && ',' !in r[i]
        {
          assert r[i] in r;
          FilterMember(cleaned, IsNonEmpty, r[i]);
          var k :| 0 <= k < |cleaned| && cleaned[k] == r[i];
          NormalizeProperties(pieces[k]);
        }
      }
      r
  }

  /**
   * The comma split loses nothing of the selected text, and the parse keeps the cleaned
   * pieces in their order, keeps every occurrence of a non-empty one, and keeps no empty piece.
   */
  lemma ParseKeepsOrderAndDuplicates(ocrText: string)
    ensures Join(Split(SelectText(ocrText), ','), ',') == SelectText(ocrText)
    ensures var cleaned := Map(Split(SelectText(ocrText), ','), Normalize);
      && IsSubsequence(ParseIngredients(ocrText), cleaned)
      && (forall x: string :: x != [] ==> multiset(ParseIngredients(ocrText))[x] == multiset(cleaned)[x])
      && [] !in ParseIngredients(ocrText)
  {
    JoinSplit(SelectText(ocrText), ',');
    var cleaned := Map(Split(SelectText(ocrText), ','), Normalize);
    if ocrText == [] {
      assert SelectText(ocrText) == [] && Split([], ',') == [[]];
      assert cleaned == [Normalize([])] && Normalize([]) == [];
      assert Init(cleaned) == [] && Last(cleaned) == [];
      assert Filter(cleaned, IsNonEmpty) == [];
    }
    assert ParseIngredients(ocrText) == Filter(cleaned, IsNonEmpty);
    FilterSubsequence(cleaned, IsNonEmpty);
    forall x: string | x != [] ensures multiset(ParseIngredients(ocrText))[x] == multiset(cleaned)[x] {
      FilterMultiplicity(cleaned, IsNonEmpty, x);
    }
  }
}
