/** The recipe editor's own submit handler (`customHandleSubmit` in
    src/components/AddRecipe.tsx): the field checks of the form handler, an
    instructions check on the structured sections instead of the text, and a
    payload whose instructions are the serialized sections. */
module RecipeSubmit {
  import opened JsStrings
  import opened Ingredients
  import opened QuantityCodec
  import opened InstructionCodec
  import opened FormUtils

  const SectionRequired := "At least one section with at least one non-empty step is required."

  /** The recipe as the editor holds it: stored ingredients kept in step with
      the rows, and the instructions as sections. */
  datatype EditorRecipe = EditorRecipe(
    title: string,
    description: string,
    cuisine: string,
    dishType: string,
    ingredients: seq<Persisted>,
    instructions: seq<Section>,
    imageUrl: string)

  /** Some section has a non-blank title and a non-blank step. */
  predicate HasValidInstructions(sections: seq<Section>)
  {
    exists i :: 0 <= i < |sections| && !IsBlank(sections[i].title) && HasStep(sections[i].steps)
  }

  predicate HasStep(steps: seq<string>)
  {
    exists j :: 0 <= j < |steps| && !IsBlank(steps[j])
  }

  /** The editor recipe passes every check. */
  predicate EditorValid(recipe: EditorRecipe, rows: seq<Ingredient>)
  {
    FieldsValid(recipe.title, recipe.cuisine, recipe.dishType, rows) && HasValidInstructions(recipe.instructions)
  }

  /** The payload the editor sends: the named ingredients, and the sections
      serialized to text. */
  function EditorPayload(recipe: EditorRecipe): FormRecipe
  {
    FormRecipe(recipe.title, recipe.description, recipe.cuisine, recipe.dishType,
               NamedOnly(recipe.ingredients), Serialize(recipe.instructions), recipe.imageUrl)
  }

  /** `steps.some(step => step.trim() !== "")` is `HasStep`. */
  lemma SomeStepTrims(steps: seq<string>)
    ensures (exists j | 0 <= j < |steps| :: Trim(steps[j]) != "") <==> HasStep(steps)
  {
    forall j | 0 <= j < |steps| ensures (Trim(steps[j]) != "") == !IsBlank(steps[j]) {
      TrimEmptyIffBlank(steps[j]);
    }
  }

  /** `sections.some(section => section.title.trim() !== "" &&
      section.steps.some(step => step.trim() !== ""))` is
      `HasValidInstructions`. */
  lemma SomeSectionTrims(sections: seq<Section>)
    ensures (exists i | 0 <= i < |sections| :: Trim(sections[i].title) != ""
               && exists j | 0 <= j < |sections[i].steps| :: Trim(sections[i].steps[j]) != "")
            <==> HasValidInstructions(sections)
  {
    forall i | 0 <= i < |sections|
      ensures (Trim(sections[i].title) != "" && exists j | 0 <= j < |sections[i].steps| :: Trim(sections[i].steps[j]) != "")
        == (!IsBlank(sections[i].title) && HasStep(sections[i].steps))
    {
      TrimEmptyIffBlank(sections[i].title);
      SomeStepTrims(sections[i].steps);
    }
  }

  /** `customHandleSubmit`, up to the request: the field checks, the
      instructions check, then a stop on any error or the payload. */
  method CustomHandleSubmit(recipe: EditorRecipe, rows: seq<Ingredient>) returns (outcome: Submission)
    ensures outcome.Rejected? <==> !EditorValid(recipe, rows)
    ensures outcome.Rejected? ==>
      && ReportsFields(outcome.errors, recipe.title, recipe.cuisine, recipe.dishType, rows)
      && ("instructions" in outcome.errors <==> !HasValidInstructions(recipe.instructions))
      && ("instructions" in outcome.errors ==> outcome.errors["instructions"] == SectionRequired)
      && outcome.errors.Keys <= {"title", "cuisine", "dish_type", "ingredients", "instructions"}
    ensures outcome.Submitted? ==> outcome.payload == EditorPayload(recipe)
  {
    var fieldErrors := CheckFields(recipe.title, recipe.cuisine, recipe.dishType, rows);
    var errors := fieldErrors;
    var sections := recipe.instructions;
    SomeSectionTrims(sections);
    var hasValidInstructions := exists i | 0 <= i < |sections| ::
      (Trim(sections[i].title) != "" && exists j | 0 <= j < |sections[i].steps| :: Trim(sections[i].steps[j]) != "");
    if !hasValidInstructions {
      errors := errors["instructions" := SectionRequired];
      assert "instructions" in errors;
    }
    if errors != map[] {
      assert fieldErrors != map[] || !HasValidInstructions(sections);
      return Rejected(errors);
    }
    assert fieldErrors == map[];
    outcome := Submitted(EditorPayload(recipe));
  }

  // ---------------------------------------------------------------------------
  // What an accepted recipe sends
  // ---------------------------------------------------------------------------

  /** The text of a section with a non-blank title starts with its header. */
  lemma SectionTextStartsWithHeader(s: Section)
    requires !IsBlank(s.title)
    ensures SectionText(s) != "" && SectionText(s)[0] == '['
  {
    var lines := SectionLines(s);
    assert lines[0] == HeaderLine(s.title);
    if |lines| > 1 {
      assert Join("\n", lines) == lines[0] + "\n" + Join("\n", lines[1..]);
    }
  }

  /** Instructions with a titled section serialize to a text that starts with
      a header. */
  lemma {:induction false} SerializeStartsWithHeader(sections: seq<Section>, i: int)
    requires 0 <= i < |sections| && !IsBlank(sections[i].title)
    ensures SectionTexts(sections) != [] && SectionTexts(sections)[0] != ""
    ensures Serialize(sections) != "" && Serialize(sections)[0] == '['
  {
    var texts := SectionTexts(sections);
    if IsBlank(sections[0].title) {
      assert SectionText(sections[0]) == "";
      assert texts == SectionTexts(sections[1..]);
      SerializeStartsWithHeader(sections[1..], i - 1);
    } else {
      SectionTextStartsWithHeader(sections[0]);
      assert texts == [SectionText(sections[0])] + SectionTexts(sections[1..]);
      if |texts| > 1 {
        assert Join("\n\n", texts) == texts[0] + "\n\n" + Join("\n\n", texts[1..]);
      }
    }
  }

  /** Instructions the editor accepts serialize to a text that the form
      handler's own check, "not blank after trim", accepts too. */
  lemma AcceptedInstructionsNotBlank(sections: seq<Section>)
    requires HasValidInstructions(sections)
    ensures !IsBlank(Serialize(sections))
  {
    var i :| 0 <= i < |sections| && !IsBlank(sections[i].title) && HasStep(sections[i].steps);
    SerializeStartsWithHeader(sections, i);
    assert !IsWhitespace(Serialize(sections)[0]);
  }

  /** A recipe the editor accepts, whose stored ingredients follow its rows,
      sends at least one ingredient, every one of them named, and instructions
      that are not blank: the form handler would accept the same payload. */
  lemma AcceptedPayload(recipe: EditorRecipe, rows: seq<Ingredient>)
    requires EditorValid(recipe, rows) && recipe.ingredients == PersistAll(rows)
    ensures var p := EditorPayload(recipe);
      && p.ingredients != []
      && (forall k :: 0 <= k < |p.ingredients| ==> !IsBlank(p.ingredients[k].name))
      && !IsBlank(p.instructions)
      && FieldsValid(p.title, p.cuisine, p.dishType, rows)
  {
    NamedRowIsSubmitted(rows);
    AcceptedInstructionsNotBlank(recipe.instructions);
  }

  /** The converse fails: a titled section whose only step is blank
      serializes to a non-blank text ("[A]"), which the form handler accepts,
      while the editor rejects it. */
  lemma TitledEmptySectionRejected()
    ensures !HasValidInstructions([Section("A", [""])])
    ensures !IsBlank(Serialize([Section("A", [""])]))
  {
    var sections := [Section("A", [""])];
    assert sections[0].title[0] == 'A';
    SerializeStartsWithHeader(sections, 0);
    assert !IsWhitespace(Serialize(sections)[0]);
  }
}
