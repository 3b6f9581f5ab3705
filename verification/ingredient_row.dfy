/** The rules of one ingredient row of the form
    (src/components/IngredientRow.tsx): the digit filter on the whole-number
    input, how a whole number is shown, and when the fraction selector is
    enabled. */
module IngredientRow {
  import opened Wrappers
  import opened JsStrings
  import opened JsNumbers
  import opened Ingredients

  /** `handleWholeNumberChange`: the number forwarded to the row's change
      handler, or `None` when the input is refused.  Only the empty text
      (read as 0) and texts of ASCII digits pass the filter; what passes is
      read with `parseInt` and forwarded when it is not negative. */
  function WholeNumberInput(value: string): (r: Option<int>)
    ensures r.Some? ==> AllDigits(value) && r.value >= 0
  {
    if value == "" || AllDigits(value) then
      var parsed := if value == "" then Some(0) else ParseInt(value);
      if parsed.Some? && parsed.value >= 0 then parsed else None
    else None
  }

  /** The filter forwards the decimal value of every text of digits (0 for the
      empty text) and refuses everything else. */
  lemma WholeNumberInputSpec(value: string)
    ensures WholeNumberInput(value) == if AllDigits(value) then Some(DigitsValue(value) as int) else None
  {
    if value != "" && AllDigits(value) {
      ParseIntOfDigits(value);
    }
  }

  /** The text the whole-number input shows: nothing for 0, otherwise the
      number. */
  function WholeNumberDisplay(wholeNumber: int): (r: string)
    ensures wholeNumber == 0 <==> r == ""
    ensures wholeNumber > 0 ==> AllDigits(r)
  {
    if wholeNumber == 0 then "" else IntToString(wholeNumber)
  }

  /** Typing back what the input shows forwards the same whole number. */
  lemma DisplayRoundTrip(wholeNumber: int)
    requires wholeNumber >= 0
    ensures WholeNumberInput(WholeNumberDisplay(wholeNumber)) == Some(wholeNumber)
  {
    WholeNumberInputSpec(WholeNumberDisplay(wholeNumber));
  }

  /** Leading zeros are accepted and then dropped from the display. */
  lemma LeadingZeroDropped()
    ensures WholeNumberInput("07") == Some(7)
    ensures WholeNumberDisplay(7) == "7"
  {
    var s := "07";
    WholeNumberInputSpec(s);
    assert DigitsValue(s[..1]) == 0;
  }

  /** A forwarded number reaches `handleIngredientChange` as the
      `wholeNumber` value; that handler reads it back with `parseInt`. */
  function WholeNumberEdited(row: Ingredient, value: string): (r: Option<Ingredient>)
    ensures r.Some? <==> WholeNumberInput(value).Some?
  {
    match WholeNumberInput(value)
    case Some(n) => Some(Changed(row, WholeNumber, IntToString(n)))
    case None => None
  }

  /** An accepted whole-number edit keeps the row's quantity equal to the
      whole number plus its fraction, and touches nothing else. */
  lemma WholeNumberEditConsistent(row: Ingredient, value: string)
    requires WholeNumberInput(value).Some?
    ensures var r := WholeNumberEdited(row, value).value;
      && r.wholeNumber == WholeNumberInput(value).value
      && Consistent(r)
      && r.fraction == row.fraction && r.unit == row.unit && r.name == row.name
  {
    ParseIntOfNatToString(WholeNumberInput(value).value);
  }

  /** The fraction selector is enabled exactly for a fractional unit. */
  predicate FractionEnabled(unit: string, fractionalUnits: seq<string>)
  {
    unit in fractionalUnits
  }

  /** After a unit change a row carries a fraction only when the selector for
      it is enabled, and keeps its fraction whenever it is. */
  lemma UnitChangeMatchesSelector(row: Ingredient, value: string, fractionalUnits: seq<string>)
    ensures var r := UnitChanged(row, value, fractionalUnits);
      && (r.fraction != "" ==> FractionEnabled(r.unit, fractionalUnits))
      && (FractionEnabled(r.unit, fractionalUnits) ==> r.fraction == row.fraction)
  {
  }
}
