# Recipe editor model

A Dafny model of the recipe editor of recipe-crafter, a recipe-management web
application. The model covers the form's data conversions and its form rules:

- **Instruction text codec.** `serializeInstructions` writes an ordered list of
  `{title, steps}` sections as `[Title]` header lines followed by densely
  numbered `n. step` lines. `parseInstructions` is a line-by-line loop that
  rebuilds the sections. The round trip is proved in general: blank-titled
  sections are dropped, blank steps are dropped, step text comes back trimmed,
  and only the last section receives a placeholder step. Modules
  `InstructionCodec`, `InstructionRoundTrip` and `InstructionExamples`.
- **Quantity codec.** `fractionToDecimal` reads the seven fraction labels. A
  quantity is saved as whole number plus fraction, and loaded back as its floor
  plus the label nearest to the rest (the `reduce` with a strict `<`, so ties
  keep the earlier label). A heuristic parser reads old free-text ingredients.
  Modules `Ingredients`, `QuantityCodec` and `IngredientExamples`.
- **List editing.** There are four ingredient-row handlers
  (`handleIngredientChange`, `handleIngredientUnitChange`, `addIngredient`,
  `removeIngredient`). There are seven section and step handlers, which form
  `InstructionEditor`: a class over mutable section objects whose steps the
  handlers change in place. Each handler is proved against a function on
  values. Modules `Ingredients`, `Lists` and `SectionEditor`.
- **Form rules.** The input guard `handleInputChange` is covered, and so are
  the two submit handlers, which collect every failing check into a
  field-keyed error map before deciding. So are the payload filter and the
  whole-number input filter of an ingredient row. Modules `FormUtils`,
  `RecipeSubmit` and `IngredientRow`.

The JavaScript built-ins involved are modelled in `JsStrings` and `JsNumbers`:
`trim` with the ECMAScript whitespace set, `split` on one character, `join`,
and `Number`, `parseInt`, `parseFloat` and `String` on plain decimal text
(the forms they leave out are listed under "Left out"). A JavaScript number is an
exact real or one of NaN, +Infinity and -Infinity. A free-text label such as
`"1/0"` or `"a/b"` reaches `fractionToDecimal` unchanged and produces one of
those non-finite values.

Where the code and the design description disagree, the model follows the code:

- Only the last parsed section gets a placeholder step. A section closed by a
  later header keeps an empty step list (`InstructionExamples.ParseEmptySection`).
- Cuisine and dish type are only checked for being empty. There is no check
  against the `add_cuisine` and `add_dish_type` option values, and a cuisine of
  spaces passes.
- Changing the unit resets the fraction but does not recompute the row's
  quantity (`Ingredients.UnitChangeLeavesQuantityStale`). The quantity check at
  submit reads that stale quantity, while the payload carries the recomputed
  stored quantity (`FormUtils.StaleQuantityPassesCheck`).
- The legacy parser splits on single spaces, takes the second part verbatim as
  the fraction label, and keeps the untrimmed original text as the name of a
  short entry.
- A recipe whose stored ingredient list is empty loads with no row. Only a
  missing list loads with one empty row.

## Model

| member | source | states |
|---|---|---|
| InstructionCodec.NonBlankSteps | src/components/AddRecipe.tsx:866-867 | exactly the non-blank steps are kept: every kept step is a non-blank input step, every non-blank input step is kept, and the list is no longer than the input |
| InstructionCodec.NumberedLines | src/components/AddRecipe.tsx:868 | one line per step, the k-th written as `first+k. step` |
| InstructionCodec.MatchHeaderSpec | src/components/AddRecipe.tsx:830 | a header match returns a non-empty single-line title and the line is exactly `[title]`; every such bracketed line matches with its title |
| InstructionCodec.MatchStep | src/components/AddRecipe.tsx:837 | a step match returns a non-empty single-line suffix of the line, and what precedes it is digits, a dot and whitespace |
| InstructionCodec.ClassifyAllAppend | src/components/AddRecipe.tsx:828-842 | classifying the lines of two texts is classifying each |
| InstructionCodec.WithPlaceholder | src/components/AddRecipe.tsx:845-847 | the title is kept, the steps are never empty, and a section that has steps is unchanged |
| InstructionCodec.Finish | src/components/AddRecipe.tsx:844-853 | the result of the loop always has at least one section |
| InstructionCodec.ParseInstructions | src/components/AddRecipe.tsx:817-856 | the loop of the source computes `Parse`, the parser's specification |
| InstructionCodec.ParseLines | src/components/AddRecipe.tsx:822-855 | the `for` loop over the non-blank lines, with its invariant, ends in `Finish(Run(...))` |
| InstructionCodec.RunKeepsReachable | src/components/AddRecipe.tsx:828-842 | a state that has finished sections also has a current one, and the loop keeps it so |
| InstructionCodec.RunAppend | src/components/AddRecipe.tsx:828-842 | the loop over two lists of lines is the loop over the second list started where the first ended |
| InstructionCodec.NonBlankStepsAppend | src/components/AddRecipe.tsx:866-867 | the blank-step filter distributes over concatenation |
| InstructionCodec.NonBlankStepsKeepsAll | src/components/AddRecipe.tsx:866-867 | a list without blank steps is kept whole |
| InstructionCodec.NonBlankStepsOfBlank | src/components/AddRecipe.tsx:866-867 | a list of blank steps is filtered to nothing |
| InstructionCodec.NonBlankLinesAround | src/components/AddRecipe.tsx:823-825 | the non-blank lines of `a + "\n" + b` are those of `a` followed by those of `b` |
| InstructionCodec.ParseIsRun | src/components/AddRecipe.tsx:818-820 | the blank-text shortcut agrees with running the loop over no lines |
| InstructionCodec.ParseShape | src/components/AddRecipe.tsx:844-853 | parsing always gives at least one section, and the last one has a step |
| InstructionCodec.ParseWithoutHeader | src/components/AddRecipe.tsx:836-853 | text without a header line parses to the default "Preparation" section with one empty step |
| InstructionCodec.ParseIgnoresPreamble | src/components/AddRecipe.tsx:836 | lines in front of the first header do not affect the result |
| InstructionCodec.ParseIgnoresLine | src/components/AddRecipe.tsx:825-840 | a blank line, or one that is neither a header nor a step, can be removed without changing the result |
| InstructionRoundTrip.Kept | src/components/AddRecipe.tsx:864-871 | the kept sections are among the input and have non-blank titles |
| InstructionRoundTrip.SectionTextNonEmpty | src/components/AddRecipe.tsx:864-871 | a section with a non-blank title is written as a non-empty text, so the `filter` keeps it |
| InstructionRoundTrip.SectionTextsOfKept | src/components/AddRecipe.tsx:862-871 | only the sections with a non-blank title contribute text |
| InstructionRoundTrip.HeaderLineShape | src/components/AddRecipe.tsx:865 | the header of a single-line title is one non-blank line |
| InstructionRoundTrip.ParseSerialize | src/components/AddRecipe.tsx:817-873 | parsing the serialized sections gives the kept sections with blank steps dropped and steps trimmed, the last one with a placeholder step, or the default section when none is kept |
| InstructionRoundTrip.ParseSerializeWellFormed | src/components/AddRecipe.tsx:817-873 | sections with single-line non-blank titles and non-blank, trimmed, single-line steps come back exactly |
| InstructionRoundTrip.NormalizeKeepsText | src/components/AddRecipe.tsx:864-869 | dropping blank steps and adding a placeholder does not change a section's text |
| InstructionRoundTrip.SerializeParseSerialize | src/components/AddRecipe.tsx:817-873 | serialize, parse, serialize gives the first text back when a section is kept and the steps are trimmed |
| InstructionExamples.SerializeAllBlank | src/components/AddRecipe.tsx:864-872 | when every title is blank the text is "" |
| InstructionExamples.SerializePrep | src/components/AddRecipe.tsx:866-869 | a blank step is dropped and the others are numbered 1 and 2 |
| InstructionExamples.ParseBlank | src/components/AddRecipe.tsx:818-819 | empty and whitespace-only text parse to the default section |
| InstructionExamples.ParseCooking | src/components/AddRecipe.tsx:828-849 | a header and two numbered steps parse to that section |
| InstructionExamples.ParseEmptySection | src/components/AddRecipe.tsx:832-835 | a section closed by the next header keeps an empty step list |
| InstructionExamples.PaddedParse | src/components/AddRecipe.tsx:829-839 | a step written with leading space comes back trimmed |
| InstructionExamples.UntrimmedStepChanges | src/components/AddRecipe.tsx:817-873 | serialize, parse, serialize is not the identity on an untrimmed step |
| Ingredients.FractionOfDigits | src/utils/ingredientUtils.ts:3-7 | a label `N/D` of digit strings is the quotient of their values; a zero denominator gives a non-finite number |
| Ingredients.FractionWithoutSlash | src/utils/ingredientUtils.ts:5-6 | a non-empty label without `/` has no denominator and gives NaN |
| Ingredients.WholeNumberOf | src/utils/ingredientUtils.ts:23 | `parseInt(value) \|\| 0`: the parsed integer, or 0 when nothing parses |
| Ingredients.Changed | src/utils/ingredientUtils.ts:20-29 | only the edited field changes; a whole-number or fraction edit recomputes the quantity, and a unit or name edit keeps it |
| Ingredients.HandleIngredientChange | src/utils/ingredientUtils.ts:9-32 | the list keeps its length, only the row at `index` changes, and only the `ingredients` error is cleared |
| Ingredients.ChangeKeepsConsistent | src/utils/ingredientUtils.ts:25-29 | after a whole-number or fraction edit the quantity equals whole number plus fraction, and other edits keep that true |
| Ingredients.UnitChanged | src/utils/ingredientUtils.ts:45-51 | the unit is set, the fraction is kept only for a fractional unit, and the quantity is not touched |
| Ingredients.HandleIngredientUnitChange | src/utils/ingredientUtils.ts:34-54 | the list keeps its length, only the row at `index` changes, and only the `ingredients` error is cleared |
| Ingredients.UnitChangeLeavesQuantityStale | src/utils/ingredientUtils.ts:44-51 | switching a half cup to grams leaves the row's quantity out of step with its whole number and fraction |
| Ingredients.AddIngredient | src/utils/ingredientUtils.ts:56-69 | exactly one default row `{0, "", 0, "unitless", ""}` is appended |
| Ingredients.RemoveIngredient | src/utils/ingredientUtils.ts:71-80 | the entry at `index` is removed when there is more than one row; otherwise nothing changes |
| Ingredients.RemoveKeepsARow | src/utils/ingredientUtils.ts:76 | the list never becomes empty and loses at most one row |
| Ingredients.RemoveUndoesAdd | src/utils/ingredientUtils.ts:56-80 | removing the row just added restores the list |
| QuantityCodec.LabelValue | src/utils/ingredientUtils.ts:3-7 | each of the seven labels reads as its value, and each value lies in [0, 1) |
| QuantityCodec.LabelValuesDistinct | src/components/AddRecipe.tsx:499 | distinct labels have distinct values |
| QuantityCodec.ReduceFinds | src/components/AddRecipe.tsx:701-713 | the `reduce` with strict `<` ends on the first label nearest to the value |
| QuantityCodec.NearestFractionSpec | src/components/AddRecipe.tsx:699-713 | the label chosen for a fractional part is the first of the seven nearest to it |
| QuantityCodec.NearestOfLabel | src/components/AddRecipe.tsx:699-713 | the value of a label gets that label back |
| QuantityCodec.Decompose | src/components/AddRecipe.tsx:699-700 | the whole number is the floor of the quantity |
| QuantityCodec.DecomposeSpec | src/components/AddRecipe.tsx:699-713 | the label is the first nearest to the quantity minus its floor |
| QuantityCodec.DecomposeSum | src/components/AddRecipe.tsx:699-713 | a whole number plus a value in [0, 1) splits back into that whole number and the value's nearest label |
| QuantityCodec.LabelFacts | src/components/AddRecipe.tsx:701-713 | every label's value lies in [0, 1) and the nearest label to it is the label itself |
| QuantityCodec.DecomposeWhole | src/components/AddRecipe.tsx:699-713 | a whole quantity splits into itself and the empty label |
| QuantityCodec.ToPersisted | src/components/AddRecipe.tsx:556-566 | the stored quantity is whole number plus fraction for a fractional unit and the whole number alone otherwise; unit and name are kept |
| QuantityCodec.PersistAll | src/components/AddRecipe.tsx:555-567 | one stored ingredient per row, in order |
| QuantityCodec.LoadStored | src/components/AddRecipe.tsx:699-720 | the loaded row keeps the stored quantity, unit and name, and its whole number is the floor |
| QuantityCodec.PersistLoad | src/components/AddRecipe.tsx:554-720 | saving a consistent row with a label its unit allows, then loading it, gives the row back |
| QuantityCodec.LegacyShort | src/components/AddRecipe.tsx:642-697 | text with fewer than three space-separated parts becomes the untrimmed name of an empty "unitless" row |
| QuantityCodec.SplitWords | src/components/AddRecipe.tsx:642 | words joined by single spaces are trimmed and split back into the same words |
| QuantityCodec.LegacyWithFraction | src/components/AddRecipe.tsx:642-689 | `<w> <a/b> <unit> <name...>`, where the second word contains a slash and reads as the value v, reads back as `w`, that word, the quantity `w` plus v, the unit and the rest joined as the name |
| QuantityCodec.LegacyWhole | src/components/AddRecipe.tsx:642-689 | `<w> <unit> <name...>` reads back as `w` whole units without a fraction, the unit and the name |
| QuantityCodec.LoadIngredients | src/components/AddRecipe.tsx:630-731 | a missing list loads as one empty row; otherwise each stored item loads as one row, in order |
| IngredientExamples.QuarterCupOfFlour | src/components/AddRecipe.tsx:642-655 | "1 1/4 cup flour" is 1 and 1/4 cup of flour, quantity 1.25 |
| IngredientExamples.LargeEggs | src/components/AddRecipe.tsx:656-689 | "2 large eggs" takes "large" as the unit |
| IngredientExamples.TwoEggs | src/components/AddRecipe.tsx:691-697 | "2 eggs" is too short and becomes the name |
| IngredientExamples.LoadHalf | src/components/AddRecipe.tsx:699-720 | a stored 1.5 cups loads as 1 and 1/2 |
| IngredientExamples.NearestToThird | src/components/AddRecipe.tsx:701-713 | every fractional part from 0.3 to 0.4 gets "1/3" |
| Lists.RemoveAt | src/components/AddRecipe.tsx:962-976 | `filter((_, i) => i !== j)`: for an index in range the element there is removed and the others keep their order; otherwise the list is unchanged |
| Lists.MoveItem | src/components/AddRecipe.tsx:989-990 | the two `splice` calls: each position holds the element moved there |
| Lists.MoveItemSpec | src/components/AddRecipe.tsx:989-990 | the move is a permutation, puts the moved element at the target, and keeps the others in their relative order |
| Lists.MoveBack | src/components/AddRecipe.tsx:989-990 | moving back from the target to the origin restores the list |
| SectionEditor.SectionAdded | src/components/AddRecipe.tsx:906-918 | a default "Preparation" section with one empty step is appended, and the others are unchanged |
| SectionEditor.TitleUpdated | src/components/AddRecipe.tsx:920-931 | only the title of section `i` changes |
| SectionEditor.StepAdded | src/components/AddRecipe.tsx:933-941 | section `i` gains an empty last step, and nothing else changes |
| SectionEditor.StepUpdated | src/components/AddRecipe.tsx:943-955 | only step `j` of section `i` changes |
| SectionEditor.StepsWithout | src/components/AddRecipe.tsx:962-967 | step `j` is removed; the steps are never empty: a lone step removed and an empty list both become `[""]`, and an index that is not a step leaves the steps as they are |
| SectionEditor.StepRemoved | src/components/AddRecipe.tsx:957-970 | only section `i`'s steps change, as `StepsWithout` says |
| SectionEditor.SectionRemoved | src/components/AddRecipe.tsx:972-982 | section `i` is removed; the list never becomes empty, and a lone section becomes the default one |
| SectionEditor.SectionMoved | src/components/AddRecipe.tsx:984-993 | the move is a permutation of the sections that puts the dragged section at the hover index and keeps the other sections in their order |
| SectionEditor.RemoveUndoesAddSection | src/components/AddRecipe.tsx:906-982 | removing the section just added restores the list |
| SectionEditor.UpdateTitleUndo | src/components/AddRecipe.tsx:920-931 | putting the old title back restores the list |
| SectionEditor.UpdateStepUndo | src/components/AddRecipe.tsx:943-955 | putting the old step back restores the list |
| SectionEditor.RemoveStepUndoesAddStep | src/components/AddRecipe.tsx:933-970 | removing the step just added restores a section that had steps |
| SectionEditor.MoveSectionUndo | src/components/AddRecipe.tsx:984-993 | moving the section back from the hover index to the drag index restores the list |
| SectionEditor.AddStepKeepsText | src/components/AddRecipe.tsx:933-941 | an added step is empty, so the serialized text does not change |
| SectionEditor.RemoveBlankStepKeepsText | src/components/AddRecipe.tsx:957-970 | removing a blank step does not change the serialized text |
| SectionEditor.InstructionEditor.Instructions | src/components/AddRecipe.tsx:453 | the form's sections, read as values, one per section object |
| SectionEditor.InstructionEditor.constructor | src/components/AddRecipe.tsx:447-455 | the form starts with one "Preparation" section holding one empty step |
| SectionEditor.InstructionEditor.AddInstructionSection | src/components/AddRecipe.tsx:906-918 | the new sections are `SectionAdded` of the old ones, and the list stays non-empty and without a shared object |
| SectionEditor.InstructionEditor.UpdateSectionTitle | src/components/AddRecipe.tsx:920-931 | the new sections are `TitleUpdated` of the old ones |
| SectionEditor.InstructionEditor.AddStep | src/components/AddRecipe.tsx:933-941 | the list object is kept, and the steps of section `i` grow in place as `StepAdded` says |
| SectionEditor.InstructionEditor.UpdateStep | src/components/AddRecipe.tsx:943-955 | the list is kept, and step `j` of section `i` is overwritten in place as `StepUpdated` says |
| SectionEditor.InstructionEditor.RemoveStep | src/components/AddRecipe.tsx:957-970 | the list is kept, and the steps of section `i` are replaced in place as `StepRemoved` says |
| SectionEditor.InstructionEditor.RemoveSection | src/components/AddRecipe.tsx:972-982 | the new sections are `SectionRemoved` of the old ones, never empty |
| SectionEditor.InstructionEditor.MoveSection | src/components/AddRecipe.tsx:984-993 | the new sections are `SectionMoved` of the old ones |
| FormUtils.InputChanged | src/utils/formUtils.ts:21-63 | an over-long title or description changes nothing; otherwise the field is set, only its error is cleared, and each "add new" flag is set exactly when its own field takes its option value; titles and descriptions within the limits stay within them |
| FormUtils.InputChangeIdempotent | src/utils/formUtils.ts:35-62 | repeating a change changes nothing more |
| FormUtils.InputChangeIsLocal | src/utils/formUtils.ts:42-43 | every other field and every other error is left alone |
| FormUtils.EveryNameTrimsEmpty | src/utils/formUtils.ts:129 | `every(ingredient => !ingredient.name.trim())` holds exactly when no row is named |
| FormUtils.CheckFields | src/utils/formUtils.ts:124-143 | each failing check among title, cuisine, dish type and ingredients puts its own message under its own key, and no other key is set; the missing-name message takes precedence over the quantity message; the map is empty exactly when all four pass |
| FormUtils.NamedOnly | src/utils/formUtils.ts:157-159 | the filter keeps exactly the ingredients with non-blank names |
| FormUtils.NamedOnlyAppend | src/utils/formUtils.ts:157-159 | filtering a concatenation filters each part, so the original order is kept |
| FormUtils.NamedOnlyKeepsNamed | src/utils/formUtils.ts:157-159 | a list of named ingredients is kept whole |
| FormUtils.NamedOnlyIdempotent | src/utils/formUtils.ts:157-159 | filtering twice is filtering once |
| FormUtils.NamedRowIsSubmitted | src/utils/formUtils.ts:128-159 | when one row is named, the filtered stored ingredients are not empty |
| FormUtils.StaleQuantityPassesCheck | src/utils/formUtils.ts:136-140 | a half cup switched to grams passes the quantity check on the row while the stored quantity is 0 grams |
| FormUtils.HandleSubmit | src/utils/formUtils.ts:100-160 | the submit is refused exactly when a check fails, with every failing check reported and "Instructions are required." for blank instructions; otherwise the payload is the recipe with the unnamed ingredients filtered out |
| RecipeSubmit.SomeSectionTrims | src/components/AddRecipe.tsx:1046-1050 | the `some`/`trim` test is "some section has a non-blank title and a non-blank step" |
| RecipeSubmit.CustomHandleSubmit | src/components/AddRecipe.tsx:1019-1070 | the submit is refused exactly when a check fails, with the field checks of the form handler and the section check reported together; otherwise the payload carries the named ingredients and the serialized sections |
| RecipeSubmit.SerializeStartsWithHeader | src/components/AddRecipe.tsx:862-872 | instructions with a titled section serialize to a text that starts with `[` |
| RecipeSubmit.AcceptedInstructionsNotBlank | src/components/AddRecipe.tsx:1046-1067 | instructions the editor accepts serialize to a non-blank text |
| RecipeSubmit.AcceptedPayload | src/components/AddRecipe.tsx:1019-1070 | an accepted recipe sends at least one ingredient, all of them named, and non-blank instructions |
| RecipeSubmit.TitledEmptySectionRejected | src/components/AddRecipe.tsx:1046-1055 | a titled section with only a blank step is refused by the editor, though its text "[A]" is not blank |
| IngredientRow.WholeNumberInput | src/components/IngredientRow.tsx:42-53 | a forwarded number is never negative and comes from a text of digits |
| IngredientRow.WholeNumberInputSpec | src/components/IngredientRow.tsx:46-50 | the empty text forwards 0, a text of digits forwards its value, and anything else forwards nothing |
| IngredientRow.WholeNumberDisplay | src/components/IngredientRow.tsx:80-82 | 0 is shown as the empty text, and only 0 is |
| IngredientRow.DisplayRoundTrip | src/components/IngredientRow.tsx:42-82 | typing back what is shown forwards the same whole number |
| IngredientRow.LeadingZeroDropped | src/components/IngredientRow.tsx:47-48 | "07" is accepted as 7 and shown as "7" |
| IngredientRow.WholeNumberEditConsistent | src/components/IngredientRow.tsx:48-50 | an accepted edit sets the row's whole number to the forwarded value and recomputes the quantity |
| IngredientRow.UnitChangeMatchesSelector | src/components/IngredientRow.tsx:55-97 | after a unit change a row carries a fraction only when its selector is enabled |
| JsStrings.TrimEmptyIffBlank | src/components/AddRecipe.tsx:818 | `trim() === ""` holds exactly for whitespace-only text |
| JsStrings.JoinSplit | src/components/AddRecipe.tsx:642 | joining the pieces of a split with the separator gives the text back |
| JsStrings.SplitJoin | src/components/AddRecipe.tsx:642-688 | splitting a join of separator-free pieces gives the pieces back |
| JsNumbers.ParseIntOfNatToString | src/utils/ingredientUtils.ts:23 | `parseInt(String(n))` is `n` for every non-negative integer |

## Left out

- Network, files and navigation: the requests that load and save recipes and
  tags, the `FileReader` and `Image` loading of images, `navigate`, and the
  catch-all error path. A submit ends at `Submitted(payload)`. The image
  upload that overwrites `image_url` is not modelled.
- React state mechanics: setters are modelled as the values they receive.
  React's double invocation of updater functions is not modelled. The steps
  arrays that the spread copies share with the previous state are not
  modelled either, so `addStep` and `updateStep` act on the section objects
  of `InstructionEditor` alone.
- `setIsSubmitting(false)` in `finally` and the asynchronous part of both
  submit handlers follow the requests, so they are not modelled.
- IEEE floating point. Quantities and label values are exact reals, so
  `1/3` is exactly a third and no rounding can change which label is nearest.
- Lengths are counted in characters, not in UTF-16 code units.
- JSON has no NaN, so a NaN quantity would be sent as `null`. The payload
  keeps it as NaN.
- `parseFloat` is modelled for plain decimals only (`12`, `1.5`, `.5`).
  Exponents and `Infinity` are not parsed.
- JsNumbers.ParseInt: the `0x`/`0X` hex prefix is not read. `parseInt("0x1F")`
  is 31, while the model reads the digit run `0` and gives 0, so a legacy
  entry such as `0x1F 1/2 cup flour` loads as 0 and 0.5 instead of 31 and 31.5.
- JsNumbers.StringToNumber: exponents (`1e1`), the `0x`, `0o` and `0b`
  prefixes, and `Infinity` are read as NaN, while `Number` gives 10, the
  prefixed value, and Infinity. A fraction label such as `1e1/2` is 5 in
  JavaScript and NaN in the model.
- JsNumbers.Divide: there is no signed zero. `Number("-0")` is 0, so `1/-0`
  is +Infinity in the model but -Infinity in JavaScript. A legacy entry such as
  `1 1/-0 cup flour` has quantity -Infinity in the source, and the submit
  check `quantity < 0` rejects the recipe; in the model the quantity is
  +Infinity, and the check does not reject it on that ground.
- `String(n)` uses exponent notation from 10^21 up. `IntToString` always
  writes digits.
- The section and step handlers require in-range indices; the source never
  calls them otherwise. `removeStep` and `removeSection` accept any index, as
  `filter` does.
- The "add new" handlers for cuisines, dish types and units
  (src/components/AddRecipe.tsx:876-898) are not part of this model.
- The tag box and its `localeCompare` sorting are not part of this model,
  because the order depends on the locale.
- Drag and drop is reduced to `moveSection`'s list operation, and focus
  handling is not modelled.
- `Calendar.tsx` and the backends are not part of this model.
- `handleIngredientChange` with the field `quantity` is not modelled, because
  no input of the row calls it that way. `Field` has no such case.
- The ingredient handlers require `index` to be a row of the list, since
  every row passes its own index.
- QuantityCodec.NearestFractionSpec: the label is characterised by the first
  index with the least distance to exact label values. `Math.abs` on IEEE
  doubles could break a tie differently.
