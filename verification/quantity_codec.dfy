/** Quantities between the form and storage (src/components/AddRecipe.tsx).
    The form keeps a whole number and one of seven fraction labels; storage
    keeps one number.  Saving adds the two; loading splits a number into its
    floor and the label nearest to the rest.  Old recipes may store an
    ingredient as free text, which a heuristic parser splits into quantity,
    unit and name. */
module QuantityCodec {
  import opened Wrappers
  import opened JsStrings
  import opened JsNumbers
  import opened Ingredients

  /** The fraction labels the form offers, in order. */
  const Fractions: seq<string> := ["", "1/8", "1/4", "1/3", "1/2", "2/3", "3/4"]

  /** The value of each label. */
  const FractionValues: seq<real> := [0.0, 0.125, 0.25, 1.0 / 3.0, 0.5, 2.0 / 3.0, 0.75]

  /** The units whose rows may carry a fraction. */
  const FractionalUnits: seq<string> := ["cup", "teaspoon", "tablespoon"]

  // ---------------------------------------------------------------------------
  // The labels
  // ---------------------------------------------------------------------------

  /** `fractionToDecimal` gives each label its value, which lies in [0, 1). */
  lemma LabelValue(k: int)
    requires 0 <= k < 7
    ensures FractionToDecimal(Fractions[k]) == Finite(FractionValues[k])
    ensures 0.0 <= FractionValues[k] < 1.0
  {
    if k == 1 {
      DigitLabel('1', '8', 1);
    } else if k == 2 {
      DigitLabel('1', '4', 2);
    } else if k == 3 {
      DigitLabel('1', '3', 3);
    } else if k == 4 {
      DigitLabel('1', '2', 4);
    } else if k == 5 {
      DigitLabel('2', '3', 5);
    } else if k == 6 {
      DigitLabel('3', '4', 6);
    }
  }

  /** Label `k` is written with the single digits `n` and `d`. */
  lemma DigitLabel(n: char, d: char, k: int)
    requires 1 <= k < 7 && Fractions[k] == [n] + "/" + [d]
    requires IsDigit(n) && IsDigit(d) && d != '0'
    requires DigitValue(n) as real / DigitValue(d) as real == FractionValues[k]
    ensures FractionToDecimal(Fractions[k]) == Finite(FractionValues[k])
  {
    SingleDigitFraction(n, d);
  }

  /** Different labels have different values. */
  lemma LabelValuesDistinct(j: int, k: int)
    requires 0 <= j < 7 && 0 <= k < 7 && FractionValues[j] == FractionValues[k]
    ensures j == k
  {
  }

  // ---------------------------------------------------------------------------
  // Nearest fraction
  // ---------------------------------------------------------------------------

  /** One step of the `reduce`: label `f` replaces `closest` only when it is
      strictly nearer to `x`, so ties keep the earlier label. */
  function Nearer(f: string, closest: string, x: real): string
  {
    if Less(Distance(FractionToDecimal(f), x), Distance(FractionToDecimal(closest), x)) then f else closest
  }

  /** `labels.reduce(Nearer, closest)`. */
  function ReduceClosest(labels: seq<string>, closest: string, x: real): string
  {
    if labels == [] then closest else ReduceClosest(labels[1..], Nearer(labels[0], closest, x), x)
  }

  /** The label the loader picks for the fractional part `x`. */
  function NearestFraction(x: real): string
  {
    ReduceClosest(Fractions, "", x)
  }

  /** Index `c` is the first of the first `n` values nearest to `x`. */
  predicate NearestIn(vals: seq<real>, c: int, n: int, x: real)
    requires n <= |vals|
  {
    0 <= c < n &&
    (forall j :: 0 <= j < n ==> Abs(vals[c] - x) <= Abs(vals[j] - x)) &&
    (forall j :: 0 <= j < c ==> Abs(vals[c] - x) < Abs(vals[j] - x))
  }

  /** Label `k` is the first label nearest to `x`. */
  predicate FirstNearest(k: int, x: real)
  {
    NearestIn(FractionValues, k, 7, x)
  }

  /** Every label of `labels` reads as the matching entry of `vals`. */
  predicate ValuesOf(labels: seq<string>, vals: seq<real>)
  {
    |labels| == |vals| && forall j :: 0 <= j < |labels| ==> FractionToDecimal(labels[j]) == Finite(vals[j])
  }

  /** The reduce, having kept the first nearest label among the first `i`,
      ends with the first nearest label of all. */
  lemma {:induction false} ReduceFinds(labels: seq<string>, vals: seq<real>, i: int, c: int, x: real) returns (k: int)
    requires ValuesOf(labels, vals) && 1 <= i <= |labels| && NearestIn(vals, c, i, x)
    ensures NearestIn(vals, k, |vals|, x) && ReduceClosest(labels[i..], labels[c], x) == labels[k]
    decreases |labels| - i
  {
    if i == |labels| {
      assert labels[i..] == [];
      k := c;
    } else {
      var next := NearerStep(labels, vals, i, c, x);
      ReduceStep(labels, i, labels[c], x);
      k := ReduceFinds(labels, vals, i + 1, next, x);
    }
  }

  /** The reduce from position `i` is one step, then the reduce from `i + 1`. */
  lemma ReduceStep(labels: seq<string>, i: int, closest: string, x: real)
    requires 0 <= i < |labels|
    ensures ReduceClosest(labels[i..], closest, x) == ReduceClosest(labels[i + 1..], Nearer(labels[i], closest, x), x)
  {
    var rest := labels[i..];
    assert rest[0] == labels[i] && rest[1..] == labels[i + 1..];
  }

  /** One step of the reduce keeps the first nearest label among one more. */
  lemma NearerStep(labels: seq<string>, vals: seq<real>, i: int, c: int, x: real) returns (next: int)
    requires ValuesOf(labels, vals) && i < |labels| && NearestIn(vals, c, i, x)
    ensures NearestIn(vals, next, i + 1, x) && Nearer(labels[i], labels[c], x) == labels[next]
  {
    next := if Abs(vals[i] - x) < Abs(vals[c] - x) then i else c;
    NearestExtend(vals, c, i, x);
    NearerValues(labels[i], labels[c], vals[i], vals[c], x);
  }

  /** The first nearest among one more value: the new value when it is
      strictly nearer, the old one otherwise. */
  lemma NearestExtend(vals: seq<real>, c: int, i: int, x: real)
    requires i < |vals| && NearestIn(vals, c, i, x)
    ensures NearestIn(vals, if Abs(vals[i] - x) < Abs(vals[c] - x) then i else c, i + 1, x)
  {
  }

  /** `Nearer` compares the values of the two labels. */
  lemma NearerValues(f: string, g: string, a: real, b: real, x: real)
    requires FractionToDecimal(f) == Finite(a) && FractionToDecimal(g) == Finite(b)
    ensures Nearer(f, g, x) == if Abs(a - x) < Abs(b - x) then f else g
  {
  }

  /** The table of labels agrees with the table of values. */
  lemma LabelTable()
    ensures ValuesOf(Fractions, FractionValues)
  {
    forall j | 0 <= j < 7 ensures FractionToDecimal(Fractions[j]) == Finite(FractionValues[j]) {
      LabelValue(j);
    }
  }

  /** The loader picks the first label nearest to `x`. */
  lemma NearestFractionSpec(x: real)
    ensures exists k :: FirstNearest(k, x) && NearestFraction(x) == Fractions[k]
  {
    LabelTable();
    assert Nearer("", "", x) == "";
    assert NearestIn(FractionValues, 0, 1, x);
    var k := ReduceFinds(Fractions, FractionValues, 1, 0, x);
  }

  /** The value of a label is nearest to itself: the loader gives the label
      back. */
  lemma NearestOfLabel(k: int)
    requires 0 <= k < 7
    ensures NearestFraction(FractionValues[k]) == Fractions[k]
  {
    NearestFractionSpec(FractionValues[k]);
    var j :| FirstNearest(j, FractionValues[k]) && NearestFraction(FractionValues[k]) == Fractions[j];
    assert Abs(FractionValues[j] - FractionValues[k]) <= Abs(FractionValues[k] - FractionValues[k]);
    LabelValuesDistinct(j, k);
  }

  /** The whole number and the label the loader derives from a quantity:
      `Math.floor(q)` and the label nearest to what is left. */
  function Decompose(q: real): (r: (int, string))
    ensures r.0 as real <= q < r.0 as real + 1.0
  {
    (q.Floor, NearestFraction(q - q.Floor as real))
  }

  /** The label is the first nearest to the fractional part. */
  lemma DecomposeSpec(q: real)
    ensures exists k :: FirstNearest(k, q - Decompose(q).0 as real) && Decompose(q).1 == Fractions[k]
  {
    NearestFractionSpec(q - q.Floor as real);
  }

  /** A whole number plus a value in [0, 1) whose nearest label is `f`
      splits into the whole number and `f`. */
  lemma DecomposeSum(w: int, v: real, f: string)
    requires 0.0 <= v < 1.0 && NearestFraction(v) == f
    ensures Decompose(w as real + v) == (w, f)
  {
    FloorOfSum(w, v);
  }

  /** The value of a label lies in [0, 1) and gives the label back. */
  lemma LabelFacts(k: int)
    requires 0 <= k < 7
    ensures 0.0 <= FractionValues[k] < 1.0 && NearestFraction(FractionValues[k]) == Fractions[k]
  {
    LabelRange(k);
    NearestOfLabel(k);
  }

  lemma LabelRange(k: int)
    requires 0 <= k < 7
    ensures 0.0 <= FractionValues[k] < 1.0
  {
  }

  lemma FloorOfSum(w: int, v: real)
    requires 0.0 <= v < 1.0
    ensures (w as real + v).Floor == w
    ensures (w as real + v) - w as real == v
  {
  }

  // ---------------------------------------------------------------------------
  // Saving and loading structured ingredients
  // ---------------------------------------------------------------------------

  /** An ingredient as stored: one quantity. */
  datatype Persisted = Persisted(quantity: JsNumber, unit: string, name: string)

  /** The stored form of a row: the fraction counts only for a fractional
      unit. */
  function ToPersisted(row: Ingredient): (r: Persisted)
    ensures r.unit == row.unit && r.name == row.name
    ensures row.unit !in FractionalUnits ==> r.quantity == Finite(row.wholeNumber as real)
    ensures row.unit in FractionalUnits ==> r.quantity == Add(row.wholeNumber, FractionToDecimal(row.fraction))
  {
    var fractionValue := if row.unit in FractionalUnits then FractionToDecimal(row.fraction) else Finite(0.0);
    Persisted(Add(row.wholeNumber, fractionValue), row.unit, row.name)
  }

  /** The effect that keeps the recipe's stored ingredients in step with the
      rows. */
  function PersistAll(rows: seq<Ingredient>): (r: seq<Persisted>)
    ensures |r| == |rows| && forall k :: 0 <= k < |rows| ==> r[k] == ToPersisted(rows[k])
  {
    seq(|rows|, k requires 0 <= k < |rows| => ToPersisted(rows[k]))
  }

  /** A row loaded from a stored quantity. */
  function LoadStored(quantity: real, unit: string, name: string): (r: Ingredient)
    ensures r.quantity == Finite(quantity) && r.unit == unit && r.name == name
    ensures r.wholeNumber as real <= quantity < r.wholeNumber as real + 1.0
  {
    var parts := Decompose(quantity);
    Ingredient(parts.0, parts.1, Finite(quantity), unit, name)
  }

  /** Saving then loading gives a row back unchanged when its fraction is a
      label, counts (a fractional unit, or no fraction at all), and its
      quantity agrees with its whole number and fraction. */
  lemma PersistLoad(row: Ingredient, k: int)
    requires 0 <= k < 7 && row.fraction == Fractions[k]
    requires row.unit in FractionalUnits || row.fraction == ""
    requires Consistent(row)
    ensures ToPersisted(row).quantity == row.quantity
    ensures row.quantity.Finite? && LoadStored(row.quantity.value, row.unit, row.name) == row
  {
    PersistKeepsQuantity(row);
    LoadConsistent(row, k);
  }

  /** The stored quantity of a consistent row is its quantity, unless a
      fraction is dropped for a unit that does not take one. */
  lemma PersistKeepsQuantity(row: Ingredient)
    requires row.unit in FractionalUnits || row.fraction == ""
    requires Consistent(row)
    ensures ToPersisted(row).quantity == row.quantity
  {
  }

  /** Loading the quantity of a consistent row with a label gives the row. */
  lemma LoadConsistent(row: Ingredient, k: int)
    requires 0 <= k < 7 && row.fraction == Fractions[k]
    requires Consistent(row)
    ensures row.quantity.Finite? && LoadStored(row.quantity.value, row.unit, row.name) == row
  {
    LabelValue(k);
    LabelFacts(k);
    DecomposeSum(row.wholeNumber, FractionValues[k], row.fraction);
  }

  // ---------------------------------------------------------------------------
  // Loading free-text ingredients
  // ---------------------------------------------------------------------------

  /** The legacy parser: split the trimmed text on single spaces.  With three
      or more parts, a `/` in the second part makes it the fraction, the first
      part the whole number and the third the unit; otherwise the first part
      is the quantity, decomposed as above, and the second the unit.  The
      remaining parts are the name.  Shorter text becomes the name, untrimmed. */
  function ParseLegacy(item: string): Ingredient
  {
    var parts := Split(Trim(item), ' ');
    if |parts| >= 3 then
      if '/' in parts[1] then LegacyFraction(parts)
      else LegacyNumber(parts)
    else
      Ingredient(0, "", Finite(0.0), "unitless", item)
  }

  /** The branch for `<whole> <fraction> <unit> <name...>`. */
  function LegacyFraction(parts: seq<string>): Ingredient
    requires |parts| >= 3
  {
    var whole := ParseInt(parts[0]).GetOr(0);
    Ingredient(whole, parts[1], Add(whole, FractionToDecimal(parts[1])), parts[2], Join(" ", parts[3..]))
  }

  /** The branch for `<quantity> <unit> <name...>`. */
  function LegacyNumber(parts: seq<string>): Ingredient
    requires |parts| >= 2
  {
    var quantity := ParseFloat(parts[0]).GetOr(0.0);
    var split := Decompose(quantity);
    Ingredient(split.0, split.1, Finite(quantity), parts[1], Join(" ", parts[2..]))
  }

  /** Text with fewer than two spaces once trimmed becomes the name of an
      empty row, untrimmed. */
  lemma LegacyShort(item: string)
    requires Count(Trim(item), ' ') < 2
    ensures ParseLegacy(item) == Ingredient(0, "", Finite(0.0), "unitless", item)
  {
    SplitLength(Trim(item), ' ');
  }

  /** A non-empty string with no whitespace. */
  predicate IsWord(s: string)
  {
    s != [] && forall i :: 0 <= i < |s| ==> !IsWhitespace(s[i])
  }

  /** A string of digits is a word. */
  lemma DigitsWord(s: string)
    requires s != [] && AllDigits(s)
    ensures IsWord(s)
  {
    forall i | 0 <= i < |s| ensures !IsWhitespace(s[i]) {
      assert IsDigit(s[i]);
    }
  }

  /** Words joined by single spaces split back into the same words. */
  lemma SplitWords(parts: seq<string>)
    requires |parts| >= 1 && forall i :: 0 <= i < |parts| ==> IsWord(parts[i])
    ensures Split(Trim(Join(" ", parts)), ' ') == parts
  {
    JoinEnds(" ", parts);
    var last := parts[|parts| - 1];
    assert !IsWhitespace(parts[0][0]) && !IsWhitespace(last[|last| - 1]);
    TrimUnchanged(Join(" ", parts));
    forall i | 0 <= i < |parts| ensures ' ' !in parts[i] {
      forall j | 0 <= j < |parts[i]| ensures parts[i][j] != ' ' {
        assert !IsWhitespace(parts[i][j]);
      }
    }
    assert " " == [' '];
    SplitJoin(parts, ' ');
  }

  /** The text splits into `parts`, whose second part holds a `/`. */
  lemma TakesFractionBranch(item: string, parts: seq<string>)
    requires Split(Trim(item), ' ') == parts && |parts| >= 3 && '/' in parts[1]
    ensures ParseLegacy(item) == LegacyFraction(parts)
  {
  }

  /** The text splits into `parts`, whose second part holds no `/`. */
  lemma TakesNumberBranch(item: string, parts: seq<string>)
    requires Split(Trim(item), ' ') == parts && |parts| >= 3 && '/' !in parts[1]
    ensures ParseLegacy(item) == LegacyNumber(parts)
  {
  }

  /** A label with a `/` is a word containing `/`. */
  lemma LabelWord(k: int)
    requires 1 <= k < 7
    ensures IsWord(Fractions[k]) && '/' in Fractions[k]
  {
    assert Fractions[k][1] == '/';
  }

  /** Words `<w> <f> <unit> <name...>`, where `f` holds a `/` and reads as
      `v`, joined by single spaces read back as `w` and `f`, the quantity
      `w + v`, the unit and the name. */
  lemma LegacyWithFraction(parts: seq<string>, w: nat, v: real)
    requires |parts| >= 3 && parts[0] == NatToString(w)
    requires IsWord(parts[1]) && '/' in parts[1] && FractionToDecimal(parts[1]) == Finite(v)
    requires forall i :: 2 <= i < |parts| ==> IsWord(parts[i])
    ensures ParseLegacy(Join(" ", parts)) == Ingredient(w, parts[1], Finite(w as real + v), parts[2], Join(" ", parts[3..]))
  {
    var item := Join(" ", parts);
    assert Split(Trim(item), ' ') == parts by {
      DigitsWord(NatToString(w));
      SplitWords(parts);
    }
    assert ParseInt(parts[0]) == Some(w as int) by {
      ParseIntOfNatToString(w);
    }
    TakesFractionBranch(item, parts);
    LegacyFractionParts(parts, w, v);
  }

  /** The fraction branch on parts it can read. */
  lemma LegacyFractionParts(parts: seq<string>, w: nat, v: real)
    requires |parts| >= 3 && ParseInt(parts[0]) == Some(w) && FractionToDecimal(parts[1]) == Finite(v)
    ensures LegacyFraction(parts) == Ingredient(w, parts[1], Finite(w as real + v), parts[2], Join(" ", parts[3..]))
  {
  }

  /** Words `<w> <unit> <name...>`, with a unit without `/`, joined by single
      spaces read back as `w` whole units, no fraction, the unit and the
      name. */
  lemma LegacyWhole(parts: seq<string>, w: nat)
    requires |parts| >= 3 && parts[0] == NatToString(w) && '/' !in parts[1]
    requires forall i :: 1 <= i < |parts| ==> IsWord(parts[i])
    ensures ParseLegacy(Join(" ", parts)) == Ingredient(w, "", Finite(w as real), parts[1], Join(" ", parts[2..]))
  {
    var item := Join(" ", parts);
    assert Split(Trim(item), ' ') == parts by {
      DigitsWord(NatToString(w));
      SplitWords(parts);
    }
    TakesNumberBranch(item, parts);
    assert ParseFloat(parts[0]) == Some(w as real) by {
      ParseFloatOfDigits(NatToString(w));
    }
    DecomposeWhole(w);
    LegacyNumberParts(parts, w, w as real, "");
  }

  /** The number branch on parts it can read. */
  lemma LegacyNumberParts(parts: seq<string>, w: int, q: real, f: string)
    requires |parts| >= 2 && ParseFloat(parts[0]) == Some(q) && Decompose(q) == (w, f)
    ensures LegacyNumber(parts) == Ingredient(w, f, Finite(q), parts[1], Join(" ", parts[2..]))
  {
  }

  /** A whole number splits into itself and no fraction. */
  lemma DecomposeWhole(w: int)
    ensures Decompose(w as real) == (w, "")
  {
    LabelFacts(0);
    DecomposeSum(w, 0.0, "");
    assert w as real + 0.0 == w as real;
  }

  // ---------------------------------------------------------------------------
  // Loading a recipe's ingredients
  // ---------------------------------------------------------------------------

  /** A stored ingredient: free text from old recipes, or a structured one. */
  datatype StoredItem = Legacy(text: string) | Stored(quantity: real, unit: string, name: string)

  function LoadItem(item: StoredItem): Ingredient
  {
    match item
    case Legacy(text) => ParseLegacy(text)
    case Stored(quantity, unit, name) => LoadStored(quantity, unit, name)
  }

  /** The rows of a loaded recipe: one per stored item, or one empty row when
      the recipe has no ingredient list.  An empty list gives no row. */
  function LoadIngredients(items: Option<seq<StoredItem>>): (r: seq<Ingredient>)
    ensures items.None? ==> r == [EmptyIngredient]
    ensures items.Some? ==> |r| == |items.value| && forall k :: 0 <= k < |r| ==> r[k] == LoadItem(items.value[k])
  {
    match items
    case None => [EmptyIngredient]
    case Some(xs) => seq(|xs|, k requires 0 <= k < |xs| => LoadItem(xs[k]))
  }
}
