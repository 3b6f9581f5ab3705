/** The ingredient rows of the recipe form and the handlers that edit them
    (src/utils/ingredientUtils.ts).  A row holds the quantity twice: as the
    whole number and fraction label the user picks, and as the number the
    handlers compute from them. */
module Ingredients {
  import opened Wrappers
  import opened JsStrings
  import opened JsNumbers
  import opened Lists

  /** One ingredient row of the form. */
  datatype Ingredient = Ingredient(wholeNumber: int, fraction: string, quantity: JsNumber, unit: string, name: string)

  /** The row a new recipe starts with and `addIngredient` appends. */
  const EmptyIngredient: Ingredient := Ingredient(0, "", Finite(0.0), "unitless", "")

  /** The validation errors of the form, keyed by field. */
  type Errors = map<string, string>

  // ---------------------------------------------------------------------------
  // fractionToDecimal
  // ---------------------------------------------------------------------------

  /** `fractionToDecimal`: "" is 0; otherwise the text before the first `/`
      divided by the text after it, both read with `Number`.  Without a `/`
      the denominator is `undefined`, and a division by `undefined` is NaN. */
  function FractionToDecimal(fraction: string): JsNumber
  {
    if fraction == "" then Finite(0.0)
    else
      var parts := Split(fraction, '/');
      var numerator := StringToNumber(parts[0]);
      var denominator := if |parts| >= 2 then StringToNumber(parts[1]) else None;
      if numerator.None? || denominator.None? then NaN
      else Divide(numerator.value, denominator.value)
  }

  /** A label `N/D` of two digit strings is the quotient of their values; a
      zero denominator gives a non-finite number. */
  lemma FractionOfDigits(n: string, d: string)
    requires n != [] && AllDigits(n) && d != [] && AllDigits(d)
    ensures FractionToDecimal(n + "/" + d) == Divide(DigitsValue(n) as real, DigitsValue(d) as real)
    ensures DigitsValue(d) != 0 ==> FractionToDecimal(n + "/" + d) == Finite(DigitsValue(n) as real / DigitsValue(d) as real)
  {
    var f := n + "/" + d;
    assert f == n + ['/'] + d;
    SplitAround(n, d, '/');
    assert '/' !in n by {
      forall i | 0 <= i < |n| ensures n[i] != '/' { assert IsDigit(n[i]); }
    }
    assert '/' !in d by {
      forall i | 0 <= i < |d| ensures d[i] != '/' { assert IsDigit(d[i]); }
    }
    SplitWithoutSeparator(n, '/');
    SplitWithoutSeparator(d, '/');
    StringToNumberOfDigits(n);
    StringToNumberOfDigits(d);
  }

  /** A non-empty label without `/` has no denominator: the result is NaN. */
  lemma FractionWithoutSlash(f: string)
    requires f != "" && '/' !in f
    ensures FractionToDecimal(f) == NaN
  {
    SplitWithoutSeparator(f, '/');
  }

  // ---------------------------------------------------------------------------
  // handleIngredientChange
  // ---------------------------------------------------------------------------

  /** The fields `handleIngredientChange` is called with. */
  datatype Field = WholeNumber | Fraction | Unit | Name

  /** `wholeNumber` is stored as `parseInt(value) || 0`: NaN becomes 0. */
  function WholeNumberOf(value: string): (r: int)
    ensures ParseInt(value).None? ==> r == 0
    ensures ParseInt(value).Some? ==> r == ParseInt(value).value
  {
    ParseInt(value).GetOr(0)
  }

  /** The row after `{...row, [field]: ...}` and, for the whole number and the
      fraction, the recomputed quantity. */
  function Changed(row: Ingredient, field: Field, value: string): (r: Ingredient)
    ensures r.wholeNumber == (if field == WholeNumber then WholeNumberOf(value) else row.wholeNumber)
    ensures r.fraction == (if field == Fraction then value else row.fraction)
    ensures r.unit == (if field == Unit then value else row.unit)
    ensures r.name == (if field == Name then value else row.name)
    ensures field == WholeNumber || field == Fraction ==> Consistent(r)
    ensures field == Unit || field == Name ==> r.quantity == row.quantity
  {
    match field
    case WholeNumber =>
      var w := WholeNumberOf(value);
      row.(wholeNumber := w, quantity := Add(w, FractionToDecimal(row.fraction)))
    case Fraction => row.(fraction := value, quantity := Add(row.wholeNumber, FractionToDecimal(value)))
    case Unit => row.(unit := value)
    case Name => row.(name := value)
  }

  /** The row's quantity is its whole number plus the value of its fraction. */
  predicate Consistent(row: Ingredient)
  {
    row.quantity == Add(row.wholeNumber, FractionToDecimal(row.fraction))
  }

  /** `handleIngredientChange`: copy the list, replace the row at `index`, fix
      up its quantity in place when the whole number or the fraction changed,
      and clear the ingredients error.  Returns the new list and error map,
      the values the source hands to its two state setters. */
  method HandleIngredientChange(index: nat, field: Field, value: string, ingredients: seq<Ingredient>, errors: Errors)
    returns (updated: seq<Ingredient>, newErrors: Errors)
    requires index < |ingredients|
    ensures |updated| == |ingredients|
    ensures updated[index] == Changed(ingredients[index], field, value)
    ensures forall k :: 0 <= k < |ingredients| && k != index ==> updated[k] == ingredients[k]
    ensures newErrors == errors["ingredients" := ""]
  {
    updated := ingredients;
    var row := ingredients[index];
    updated := updated[index := match field
                                case WholeNumber => row.(wholeNumber := WholeNumberOf(value))
                                case Fraction => row.(fraction := value)
                                case Unit => row.(unit := value)
                                case Name => row.(name := value)];
    if field == WholeNumber || field == Fraction {
      var edited := updated[index];
      updated := updated[index := edited.(quantity := Add(edited.wholeNumber, FractionToDecimal(edited.fraction)))];
    }
    newErrors := errors["ingredients" := ""];
  }

  /** A change of unit or name keeps a consistent row consistent, and a change
      of whole number or fraction makes any row consistent. */
  lemma ChangeKeepsConsistent(row: Ingredient, field: Field, value: string)
    requires Consistent(row) || field == WholeNumber || field == Fraction
    ensures Consistent(Changed(row, field, value))
  {
  }

  // ---------------------------------------------------------------------------
  // handleIngredientUnitChange
  // ---------------------------------------------------------------------------

  /** The row with its new unit; the fraction survives only for a fractional
      unit.  The quantity is left as it was. */
  function UnitChanged(row: Ingredient, value: string, fractionalUnits: seq<string>): (r: Ingredient)
    ensures r.unit == value && r.wholeNumber == row.wholeNumber && r.name == row.name
    ensures r.fraction == if value in fractionalUnits then row.fraction else ""
    ensures r.quantity == row.quantity
  {
    row.(unit := value, fraction := if value in fractionalUnits then row.fraction else "")
  }

  /** `handleIngredientUnitChange`: copy the list, replace the row at `index`
      and clear the ingredients error. */
  method HandleIngredientUnitChange(index: nat, value: string, ingredients: seq<Ingredient>, errors: Errors, fractionalUnits: seq<string>)
    returns (updated: seq<Ingredient>, newErrors: Errors)
    requires index < |ingredients|
    ensures |updated| == |ingredients|
    ensures updated[index] == UnitChanged(ingredients[index], value, fractionalUnits)
    ensures forall k :: 0 <= k < |ingredients| && k != index ==> updated[k] == ingredients[k]
    ensures newErrors == errors["ingredients" := ""]
  {
    updated := ingredients;
    var row := ingredients[index];
    var fraction := if value in fractionalUnits then row.fraction else "";
    updated := updated[index := row.(unit := value, fraction := fraction)];
    newErrors := errors["ingredients" := ""];
  }

  /** A label `N/D` of two single digits. */
  lemma SingleDigitFraction(n: char, d: char)
    requires IsDigit(n) && IsDigit(d) && d != '0'
    ensures FractionToDecimal([n] + "/" + [d]) == Finite(DigitValue(n) as real / DigitValue(d) as real)
  {
    assert [n][..0] == [] && [d][..0] == [];
    FractionOfDigits([n], [d]);
  }

  lemma Half()
    ensures FractionToDecimal("1/2") == Finite(0.5)
  {
    SingleDigitFraction('1', '2');
    assert "1/2" == ['1'] + "/" + ['2'];
  }

  /** Switching a half cup to grams resets the fraction but keeps the quantity
      1.5, so the row is no longer consistent. */
  lemma UnitChangeLeavesQuantityStale()
    ensures var row := Ingredient(1, "1/2", Finite(1.5), "cup", "flour");
            Consistent(row) && !Consistent(UnitChanged(row, "gram", ["cup", "teaspoon", "tablespoon"]))
  {
    Half();
    assert "gram" !in ["cup", "teaspoon", "tablespoon"];
  }

  // ---------------------------------------------------------------------------
  // addIngredient and removeIngredient
  // ---------------------------------------------------------------------------

  /** `addIngredient`: one empty row appended. */
  function AddIngredient(ingredients: seq<Ingredient>): (r: seq<Ingredient>)
    ensures |r| == |ingredients| + 1 && r[..|ingredients|] == ingredients
    ensures r[|ingredients|] == EmptyIngredient
  {
    ingredients + [EmptyIngredient]
  }

  /** `removeIngredient`: the row at `index` is removed when more than one row
      is left; otherwise the list is unchanged. */
  function RemoveIngredient(index: int, ingredients: seq<Ingredient>): (r: seq<Ingredient>)
    ensures |ingredients| <= 1 ==> r == ingredients
    ensures |ingredients| > 1 ==> r == RemoveAt(ingredients, index)
  {
    if |ingredients| > 1 then RemoveAt(ingredients, index) else ingredients
  }

  /** Removing never empties a non-empty list, and removes at most one row. */
  lemma RemoveKeepsARow(index: int, ingredients: seq<Ingredient>)
    requires ingredients != []
    ensures RemoveIngredient(index, ingredients) != []
    ensures |ingredients| - 1 <= |RemoveIngredient(index, ingredients)| <= |ingredients|
  {
  }

  /** Removing the row just added restores the list. */
  lemma RemoveUndoesAdd(ingredients: seq<Ingredient>)
    requires ingredients != []
    ensures RemoveIngredient(|ingredients|, AddIngredient(ingredients)) == ingredients
  {
    var added := AddIngredient(ingredients);
    assert added[..|ingredients|] == ingredients;
  }
}
