/** The shared form handlers of the recipe form (src/utils/formUtils.ts): the
    input guard that enforces the length limits and shows the "add new" inputs,
    and the submit handler that checks every field and builds the payload. */
module FormUtils {
  import opened JsStrings
  import opened JsNumbers
  import opened Ingredients
  import opened QuantityCodec

  // ---------------------------------------------------------------------------
  // handleInputChange
  // ---------------------------------------------------------------------------

  /** The limits the form passes to the input guard (src/components/AddRecipe.tsx). */
  const TitleMaxLength: nat := 100
  const DescriptionMaxLength: nat := 500

  /** The option values that open an input for a new cuisine, dish type or unit. */
  const AddCuisine := "add_cuisine"
  const AddDishType := "add_dish_type"
  const AddUnit := "add_unit"

  /** What an input change touches: the recipe's text fields by name, the
      validation errors by field, and the three "add new" flags. */
  datatype InputState = InputState(
    fields: map<string, string>,
    errors: Errors,
    showAddCuisine: bool,
    showAddDishType: bool,
    showAddUnit: bool)

  /** A title and a description within their limits. */
  predicate WithinLimits(st: InputState, titleMax: nat, descriptionMax: nat)
  {
    && ("title" in st.fields ==> |st.fields["title"]| <= titleMax)
    && ("description" in st.fields ==> |st.fields["description"]| <= descriptionMax)
  }

  /** `handleInputChange`: a title or description over its limit is refused
      with nothing changed; any other change sets the field, clears that
      field's error, and sets a flag from the value when the field is the one
      the flag belongs to. */
  function InputChanged(st: InputState, name: string, value: string, titleMax: nat, descriptionMax: nat): (r: InputState)
    ensures (name == "title" && |value| > titleMax) || (name == "description" && |value| > descriptionMax) ==> r == st
    ensures !((name == "title" && |value| > titleMax) || (name == "description" && |value| > descriptionMax)) ==>
      && r.fields == st.fields[name := value]
      && r.errors == st.errors[name := ""]
      && r.showAddCuisine == (if name == "cuisine" then value == AddCuisine else st.showAddCuisine)
      && r.showAddDishType == (if name == "dish_type" then value == AddDishType else st.showAddDishType)
      && r.showAddUnit == (if name == "unit" then value == AddUnit else st.showAddUnit)
    ensures WithinLimits(st, titleMax, descriptionMax) ==> WithinLimits(r, titleMax, descriptionMax)
  {
    if name == "title" && |value| > titleMax then st
    else if name == "description" && |value| > descriptionMax then st
    else
      var cuisine := if name == "cuisine" then value == AddCuisine else st.showAddCuisine;
      var dishType := if name == "dish_type" then value == AddDishType else st.showAddDishType;
      var unit := if name == "unit" then value == AddUnit else st.showAddUnit;
      InputState(st.fields[name := value], st.errors[name := ""], cuisine, dishType, unit)
  }

  /** Repeating an input change changes nothing more. */
  lemma InputChangeIdempotent(st: InputState, name: string, value: string, titleMax: nat, descriptionMax: nat)
    ensures var once := InputChanged(st, name, value, titleMax, descriptionMax);
      InputChanged(once, name, value, titleMax, descriptionMax) == once
  {
    var once := InputChanged(st, name, value, titleMax, descriptionMax);
    var twice := InputChanged(once, name, value, titleMax, descriptionMax);
    if !((name == "title" && |value| > titleMax) || (name == "description" && |value| > descriptionMax)) {
      assert twice.fields == once.fields;
      assert twice.errors == once.errors;
    }
  }

  /** A change to one field leaves every other field and every other error
      as it was. */
  lemma InputChangeIsLocal(st: InputState, name: string, value: string, titleMax: nat, descriptionMax: nat, other: string)
    requires other != name
    ensures var r := InputChanged(st, name, value, titleMax, descriptionMax);
      && (other in r.fields <==> other in st.fields)
      && (other in st.fields ==> r.fields[other] == st.fields[other])
      && (other in r.errors <==> other in st.errors)
      && (other in st.errors ==> r.errors[other] == st.errors[other])
  {
  }

  // ---------------------------------------------------------------------------
  // Validation shared by both submit handlers
  // ---------------------------------------------------------------------------

  const TitleRequired := "Title is required."
  const CuisineRequired := "Cuisine is required."
  const DishTypeRequired := "Dish Type is required."
  const NamedIngredientRequired := "At least one ingredient with a name is required."
  const QuantityNotPositive := "Quantity must be positive (or 0 for 'unitless')."
  const InstructionsRequired := "Instructions are required."

  /** No row has a name: true of the empty list too. */
  predicate NoneNamed(rows: seq<Ingredient>)
  {
    forall k :: 0 <= k < |rows| ==> IsBlank(rows[k].name)
  }

  /** A negative quantity, or a zero quantity with a unit. */
  predicate BadQuantity(row: Ingredient)
  {
    IsNegative(row.quantity) || (IsZero(row.quantity) && row.unit != "unitless")
  }

  predicate AnyBadQuantity(rows: seq<Ingredient>)
  {
    exists k :: 0 <= k < |rows| && BadQuantity(rows[k])
  }

  /** The fields the two handlers check alike pass every check. */
  predicate FieldsValid(title: string, cuisine: string, dishType: string, rows: seq<Ingredient>)
  {
    !IsBlank(title) && cuisine != "" && dishType != "" && !NoneNamed(rows) && !AnyBadQuantity(rows)
  }

  /** `errors` reports exactly the failing checks among title, cuisine, dish
      type and ingredients, each under its own key with its own message; the
      ingredients key carries one message, the missing name taking precedence
      over a bad quantity. */
  predicate ReportsFields(errors: Errors, title: string, cuisine: string, dishType: string, rows: seq<Ingredient>)
  {
    && ("title" in errors <==> IsBlank(title))
    && ("title" in errors ==> errors["title"] == TitleRequired)
    && ("cuisine" in errors <==> cuisine == "")
    && ("cuisine" in errors ==> errors["cuisine"] == CuisineRequired)
    && ("dish_type" in errors <==> dishType == "")
    && ("dish_type" in errors ==> errors["dish_type"] == DishTypeRequired)
    && ("ingredients" in errors <==> NoneNamed(rows) || AnyBadQuantity(rows))
    && ("ingredients" in errors ==>
          errors["ingredients"] == if NoneNamed(rows) then NamedIngredientRequired else QuantityNotPositive)
  }

  /** `every(ingredient => !ingredient.name.trim())` is "no row is named". */
  lemma EveryNameTrimsEmpty(rows: seq<Ingredient>)
    ensures (forall k :: 0 <= k < |rows| ==> Trim(rows[k].name) == "") <==> NoneNamed(rows)
  {
    forall k | 0 <= k < |rows| {
      TrimEmptyIffBlank(rows[k].name);
    }
  }

  /** The checks on title, cuisine, dish type and ingredients, each adding its
      error to the map without stopping at the first failure. */
  method CheckFields(title: string, cuisine: string, dishType: string, rows: seq<Ingredient>) returns (errors: Errors)
    ensures ReportsFields(errors, title, cuisine, dishType, rows)
    ensures errors.Keys <= {"title", "cuisine", "dish_type", "ingredients"}
    ensures errors == map[] <==> FieldsValid(title, cuisine, dishType, rows)
  {
    errors := map[];
    TrimEmptyIffBlank(title);
    if Trim(title) == "" {
      errors := errors["title" := TitleRequired];
    }
    if cuisine == "" {
      errors := errors["cuisine" := CuisineRequired];
    }
    if dishType == "" {
      errors := errors["dish_type" := DishTypeRequired];
    }
    EveryNameTrimsEmpty(rows);
    var unnamed := forall k | 0 <= k < |rows| :: Trim(rows[k].name) == "";
    if unnamed || |rows| == 0 {
      errors := errors["ingredients" := NamedIngredientRequired];
    } else {
      var invalidQuantity := exists k | 0 <= k < |rows| :: BadQuantity(rows[k]);
      if invalidQuantity {
        errors := errors["ingredients" := QuantityNotPositive];
      }
    }
    assert "title" in errors || "cuisine" in errors || "dish_type" in errors || "ingredients" in errors
      ==> errors != map[];
  }

  // ---------------------------------------------------------------------------
  // The payload
  // ---------------------------------------------------------------------------

  /** `ingredients.filter(ingredient => ingredient.name.trim())`: the stored
      ingredients with a name, in their order. */
  function NamedOnly(items: seq<Persisted>): (r: seq<Persisted>)
    ensures |r| <= |items|
    ensures forall k :: 0 <= k < |r| ==> !IsBlank(r[k].name) && r[k] in items
    ensures forall k :: 0 <= k < |items| && !IsBlank(items[k].name) ==> items[k] in r
  {
    if items == [] then []
    else
      TrimEmptyIffBlank(items[0].name);
      var rest := NamedOnly(items[1..]);
      assert forall k :: 1 <= k < |items| ==> items[k] == items[1..][k - 1];
      if Trim(items[0].name) != "" then [items[0]] + rest else rest
  }

  /** Filtering a concatenation filters each part. */
  lemma {:induction false} NamedOnlyAppend(a: seq<Persisted>, b: seq<Persisted>)
    ensures NamedOnly(a + b) == NamedOnly(a) + NamedOnly(b)
  {
    if a == [] {
      assert a + b == b;
    } else {
      assert (a + b)[0] == a[0];
      assert (a + b)[1..] == a[1..] + b;
      NamedOnlyAppend(a[1..], b);
    }
  }

  /** A list whose every entry is named is kept whole; so filtering twice is
      filtering once. */
  lemma {:induction false} NamedOnlyKeepsNamed(items: seq<Persisted>)
    requires forall k :: 0 <= k < |items| ==> !IsBlank(items[k].name)
    ensures NamedOnly(items) == items
  {
    if items != [] {
      TrimEmptyIffBlank(items[0].name);
      NamedOnlyKeepsNamed(items[1..]);
    }
  }

  lemma NamedOnlyIdempotent(items: seq<Persisted>)
    ensures NamedOnly(NamedOnly(items)) == NamedOnly(items)
  {
    NamedOnlyKeepsNamed(NamedOnly(items));
  }

  /** The stored ingredients of rows one of which is named keep at least one
      entry after the filter. */
  lemma NamedRowIsSubmitted(rows: seq<Ingredient>)
    requires !NoneNamed(rows)
    ensures NamedOnly(PersistAll(rows)) != []
  {
    var k :| 0 <= k < |rows| && !IsBlank(rows[k].name);
    var items := PersistAll(rows);
    assert items[k].name == rows[k].name;
    assert items[k] in NamedOnly(items);
  }

  /** The quantity check reads the row, the payload the stored form.  A unit
      change drops the fraction but keeps the row's quantity, so half a cup
      changed to grams passes the check with a quantity of 0.5 while the
      recipe stores 0 grams: the zero quantity with a unit that the check is
      there to refuse. */
  lemma StaleQuantityPassesCheck()
    ensures var row := UnitChanged(Ingredient(0, "1/2", Finite(0.5), "cup", "flour"), "grams", FractionalUnits);
      && !BadQuantity(row)
      && ToPersisted(row).quantity == Finite(0.0) && ToPersisted(row).unit != "unitless"
  {
    var row := UnitChanged(Ingredient(0, "1/2", Finite(0.5), "cup", "flour"), "grams", FractionalUnits);
    assert "grams" !in FractionalUnits;
    assert row == Ingredient(0, "", Finite(0.5), "grams", "flour");
  }

  // ---------------------------------------------------------------------------
  // handleSubmit
  // ---------------------------------------------------------------------------

  /** The recipe as the form handler sees it and as it is sent: the
      instructions are one text. */
  datatype FormRecipe = FormRecipe(
    title: string,
    description: string,
    cuisine: string,
    dishType: string,
    ingredients: seq<Persisted>,
    instructions: string,
    imageUrl: string)

  /** What a submit does before any request: shows the errors and stops, or
      marks the form as submitting and sends the payload. */
  datatype Submission = Rejected(errors: Errors) | Submitted(payload: FormRecipe)

  /** `handleSubmit`, up to the request: every check runs, then a non-empty
      error map stops the submit; otherwise the payload is the recipe with the
      unnamed ingredients filtered out. */
  method HandleSubmit(recipe: FormRecipe, rows: seq<Ingredient>) returns (outcome: Submission)
    ensures outcome.Rejected? <==> !(FieldsValid(recipe.title, recipe.cuisine, recipe.dishType, rows) && !IsBlank(recipe.instructions))
    ensures outcome.Rejected? ==>
      && ReportsFields(outcome.errors, recipe.title, recipe.cuisine, recipe.dishType, rows)
      && ("instructions" in outcome.errors <==> IsBlank(recipe.instructions))
      && ("instructions" in outcome.errors ==> outcome.errors["instructions"] == InstructionsRequired)
      && outcome.errors.Keys <= {"title", "cuisine", "dish_type", "ingredients", "instructions"}
    ensures outcome.Submitted? ==> outcome.payload == recipe.(ingredients := NamedOnly(recipe.ingredients))
  {
    var fieldErrors := CheckFields(recipe.title, recipe.cuisine, recipe.dishType, rows);
    var errors := fieldErrors;
    TrimEmptyIffBlank(recipe.instructions);
    if Trim(recipe.instructions) == "" {
      errors := errors["instructions" := InstructionsRequired];
      assert "instructions" in errors;
    }
    if errors != map[] {
      assert fieldErrors != map[] || IsBlank(recipe.instructions);
      return Rejected(errors);
    }
    assert fieldErrors == map[];
    outcome := Submitted(recipe.(ingredients := NamedOnly(recipe.ingredients)));
  }
}
