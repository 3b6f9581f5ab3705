/** The instruction-section editor of the recipe form
    (src/components/AddRecipe.tsx).  The form state holds a list of section
    objects; some handlers build a new list, others change a section object
    in place.  The value functions below say what each handler does to the
    list of sections; the class after them carries out the same edits on
    objects. */
module SectionEditor {
  import opened JsStrings
  import opened Lists
  import opened InstructionCodec

  // ---------------------------------------------------------------------------
  // The edits, on values
  // ---------------------------------------------------------------------------

  /** `addInstructionSection`: a "Preparation" section with one empty step
      at the end. */
  function SectionAdded(sections: seq<Section>): (r: seq<Section>)
    ensures |r| == |sections| + 1 && r[|sections|] == DefaultSection
    ensures forall k :: 0 <= k < |sections| ==> r[k] == sections[k]
  {
    sections + [DefaultSection]
  }

  /** `updateSectionTitle`: section `i` with a new title. */
  function TitleUpdated(sections: seq<Section>, i: int, title: string): (r: seq<Section>)
    requires 0 <= i < |sections|
    ensures |r| == |sections| && r[i] == Section(title, sections[i].steps)
    ensures forall k :: 0 <= k < |sections| && k != i ==> r[k] == sections[k]
  {
    sections[i := sections[i].(title := title)]
  }

  /** `addStep`: an empty step at the end of section `i`. */
  function StepAdded(sections: seq<Section>, i: int): (r: seq<Section>)
    requires 0 <= i < |sections|
    ensures |r| == |sections| && r[i] == Section(sections[i].title, sections[i].steps + [""])
    ensures forall k :: 0 <= k < |sections| && k != i ==> r[k] == sections[k]
  {
    sections[i := sections[i].(steps := sections[i].steps + [""])]
  }

  /** `updateStep`: step `j` of section `i` replaced. */
  function StepUpdated(sections: seq<Section>, i: int, j: int, value: string): (r: seq<Section>)
    requires 0 <= i < |sections| && 0 <= j < |sections[i].steps|
    ensures |r| == |sections| && r[i] == Section(sections[i].title, sections[i].steps[j := value])
    ensures forall k :: 0 <= k < |sections| && k != i ==> r[k] == sections[k]
  {
    sections[i := sections[i].(steps := sections[i].steps[j := value])]
  }

  /** The steps of a section after `removeStep`: step `j` filtered out, and
      one empty step when none is left. */
  function StepsWithout(steps: seq<string>, j: int): (r: seq<string>)
    ensures r != []
    ensures |steps| > 1 ==> r == RemoveAt(steps, j)
    ensures |steps| <= 1 && 0 <= j < |steps| ==> r == [""]
    ensures |steps| == 1 && !(0 <= j < 1) ==> r == steps
    ensures steps == [] ==> r == [""]
  {
    var kept := RemoveAt(steps, j);
    if |kept| == 0 then kept + [""] else kept
  }

  /** `removeStep`: section `i` with its steps as `StepsWithout` says. */
  function StepRemoved(sections: seq<Section>, i: int, j: int): (r: seq<Section>)
    requires 0 <= i < |sections|
    ensures |r| == |sections| && r[i] == Section(sections[i].title, StepsWithout(sections[i].steps, j))
    ensures forall k :: 0 <= k < |sections| && k != i ==> r[k] == sections[k]
  {
    sections[i := sections[i].(steps := StepsWithout(sections[i].steps, j))]
  }

  /** `removeSection`: section `i` filtered out, and the default section when
      none is left. */
  function SectionRemoved(sections: seq<Section>, i: int): (r: seq<Section>)
    ensures r != []
    ensures |sections| > 1 ==> r == RemoveAt(sections, i)
    ensures |sections| <= 1 && 0 <= i < |sections| ==> r == [DefaultSection]
  {
    var kept := RemoveAt(sections, i);
    if |kept| == 0 then kept + [DefaultSection] else kept
  }

  /** `moveSection`: the dragged section moved to the hover position; the
      other sections keep their order. */
  function SectionMoved(sections: seq<Section>, dragIndex: int, hoverIndex: int): (r: seq<Section>)
    requires 0 <= dragIndex < |sections| && 0 <= hoverIndex < |sections|
    ensures |r| == |sections| && multiset(r) == multiset(sections)
    ensures r[hoverIndex] == sections[dragIndex]
    ensures RemoveAt(r, hoverIndex) == RemoveAt(sections, dragIndex)
  {
    MoveItemSpec(sections, dragIndex, hoverIndex);
    MoveItem(sections, dragIndex, hoverIndex)
  }

  // ---------------------------------------------------------------------------
  // What the edits keep and undo
  // ---------------------------------------------------------------------------

  /** Removing the section just added restores the list. */
  lemma RemoveUndoesAddSection(sections: seq<Section>)
    requires sections != []
    ensures SectionRemoved(SectionAdded(sections), |sections|) == sections
  {
    var added := SectionAdded(sections);
    assert RemoveAt(added, |sections|) == sections;
  }

  /** Putting the old title back restores the list. */
  lemma UpdateTitleUndo(sections: seq<Section>, i: int, title: string)
    requires 0 <= i < |sections|
    ensures TitleUpdated(TitleUpdated(sections, i, title), i, sections[i].title) == sections
  {
    var r := TitleUpdated(TitleUpdated(sections, i, title), i, sections[i].title);
    assert forall k :: 0 <= k < |sections| ==> r[k] == sections[k];
  }

  /** Putting the old step back restores the list. */
  lemma UpdateStepUndo(sections: seq<Section>, i: int, j: int, value: string)
    requires 0 <= i < |sections| && 0 <= j < |sections[i].steps|
    ensures StepUpdated(StepUpdated(sections, i, j, value), i, j, sections[i].steps[j]) == sections
  {
    var once := StepUpdated(sections, i, j, value);
    var r := StepUpdated(once, i, j, sections[i].steps[j]);
    assert r[i].steps == sections[i].steps;
    assert forall k :: 0 <= k < |sections| ==> r[k] == sections[k];
  }

  /** Removing the step just added restores a section that had steps. */
  lemma RemoveStepUndoesAddStep(sections: seq<Section>, i: int)
    requires 0 <= i < |sections| && sections[i].steps != []
    ensures StepRemoved(StepAdded(sections, i), i, |sections[i].steps|) == sections
  {
    var steps := sections[i].steps;
    assert RemoveAt(steps + [""], |steps|) == steps;
    var r := StepRemoved(StepAdded(sections, i), i, |steps|);
    assert r[i] == sections[i];
    assert forall k :: 0 <= k < |sections| ==> r[k] == sections[k];
  }

  /** Moving the section back restores the list. */
  lemma MoveSectionUndo(sections: seq<Section>, dragIndex: int, hoverIndex: int)
    requires 0 <= dragIndex < |sections| && 0 <= hoverIndex < |sections|
    ensures SectionMoved(SectionMoved(sections, dragIndex, hoverIndex), hoverIndex, dragIndex) == sections
  {
    MoveBack(sections, dragIndex, hoverIndex);
  }

  // ---------------------------------------------------------------------------
  // Edits that leave the saved text alone
  // ---------------------------------------------------------------------------

  /** Lists whose sections serialize alike serialize alike. */
  lemma {:induction false} SameTexts(a: seq<Section>, b: seq<Section>)
    requires |a| == |b| && forall k :: 0 <= k < |a| ==> SectionText(a[k]) == SectionText(b[k])
    ensures SectionTexts(a) == SectionTexts(b)
  {
    if a != [] {
      SameTexts(a[1..], b[1..]);
    }
  }

  /** A list of steps with blank ones added or removed serializes alike. */
  lemma SameSteps(title: string, steps: seq<string>, other: seq<string>)
    requires NonBlankSteps(steps) == NonBlankSteps(other)
    ensures SectionText(Section(title, steps)) == SectionText(Section(title, other))
  {
  }

  /** An added step is empty, so the saved text does not change. */
  lemma AddStepKeepsText(sections: seq<Section>, i: int)
    requires 0 <= i < |sections|
    ensures Serialize(StepAdded(sections, i)) == Serialize(sections)
  {
    var steps := sections[i].steps;
    NonBlankStepsAppend(steps, [""]);
    assert NonBlankSteps([""]) == [];
    assert NonBlankSteps(steps + [""]) == NonBlankSteps(steps) + [];
    SameSteps(sections[i].title, steps + [""], steps);
    SameTexts(StepAdded(sections, i), sections);
  }

  /** Removing a blank step does not change the saved text. */
  lemma RemoveBlankStepKeepsText(sections: seq<Section>, i: int, j: int)
    requires 0 <= i < |sections| && 0 <= j < |sections[i].steps| && IsBlank(sections[i].steps[j])
    ensures Serialize(StepRemoved(sections, i, j)) == Serialize(sections)
  {
    var steps := sections[i].steps;
    BlankStepIgnored(steps, j);
    SameSteps(sections[i].title, StepsWithout(steps, j), steps);
    SameTexts(StepRemoved(sections, i, j), sections);
  }

  lemma BlankStepIgnored(steps: seq<string>, j: int)
    requires 0 <= j < |steps| && IsBlank(steps[j])
    ensures NonBlankSteps(StepsWithout(steps, j)) == NonBlankSteps(steps)
  {
    var before := steps[..j];
    var after := steps[j + 1..];
    SplitAt(steps, j);
    NonBlankStepsAppend(before, [steps[j]] + after);
    NonBlankStepsAppend([steps[j]], after);
    NonBlankStepsAppend(before, after);
    assert NonBlankSteps([steps[j]]) == [];
    EmptyFront(NonBlankSteps(after));
    if |steps| == 1 {
      assert NonBlankSteps([""]) == [];
    }
  }

  lemma EmptyFront<T>(x: seq<T>)
    ensures [] + x == x
  {
  }

  // ---------------------------------------------------------------------------
  // The edits, on objects
  // ---------------------------------------------------------------------------

  /** One section object of the form state. */
  class SectionObj {
    var title: string
    var steps: seq<string>

    constructor (title: string, steps: seq<string>)
      ensures this.title == title && this.steps == steps
    {
      this.title := title;
      this.steps := steps;
    }

    function Value(): Section
      reads this
    {
      Section(title, steps)
    }
  }

  /** The `instructions` of the form state: a list of section objects. */
  class InstructionEditor {
    var sections: seq<SectionObj>

    /** At least one section, and no object twice in the list, so that an
        in-place change touches one section only. */
    ghost predicate Valid()
      reads this
    {
      |sections| >= 1 && Distinct(sections)
    }

    /** The sections as values. */
    function Instructions(): (r: seq<Section>)
      reads this, sections
      ensures |r| == |sections| && forall k :: 0 <= k < |sections| ==> r[k] == sections[k].Value()
    {
      seq(|sections|, k reads this, sections requires 0 <= k < |sections| => sections[k].Value())
    }

    /** The form starts with one "Preparation" section holding one empty
        step. */
    constructor ()
      ensures Valid() && Instructions() == [DefaultSection]
    {
      var section := new SectionObj("Preparation", [""]);
      sections := [section];
    }

    /** `addInstructionSection`: a new list with a new section object at the
        end. */
    method AddInstructionSection()
      requires Valid()
      modifies this
      ensures Valid() && Instructions() == SectionAdded(old(Instructions()))
    {
      var section := new SectionObj("Preparation", [""]);
      sections := sections + [section];
    }

    /** `updateSectionTitle`: a new list in which section `i` is a new object
        with the new title and the old steps. */
    method UpdateSectionTitle(i: int, title: string)
      requires Valid() && 0 <= i < |sections|
      modifies this
      ensures Valid() && Instructions() == TitleUpdated(old(Instructions()), i, title)
    {
      var section := new SectionObj(title, sections[i].steps);
      sections := sections[i := section];
    }

    /** `addStep`: the steps of section `i` grow in place; the list is the
        same list of objects. */
    method AddStep(i: int)
      requires Valid() && 0 <= i < |sections|
      modifies sections[i]
      ensures Valid() && sections == old(sections)
      ensures Instructions() == StepAdded(old(Instructions()), i)
    {
      sections[i].steps := sections[i].steps + [""];
    }

    /** `updateStep`: step `j` of section `i` is overwritten in place. */
    method UpdateStep(i: int, j: int, value: string)
      requires Valid() && 0 <= i < |sections| && 0 <= j < |sections[i].steps|
      modifies sections[i]
      ensures Valid() && sections == old(sections)
      ensures Instructions() == StepUpdated(old(Instructions()), i, j, value)
    {
      sections[i].steps := sections[i].steps[j := value];
    }

    /** `removeStep`: the steps of section `i` are filtered in place, and an
        empty step is pushed when none is left. */
    method RemoveStep(i: int, j: int)
      requires Valid() && 0 <= i < |sections|
      modifies sections[i]
      ensures Valid() && sections == old(sections)
      ensures Instructions() == StepRemoved(old(Instructions()), i, j)
    {
      var steps := RemoveAt(sections[i].steps, j);
      if |steps| == 0 {
        steps := steps + [""];
      }
      sections[i].steps := steps;
    }

    /** `removeSection`: a new list without section `i`; a new default
        section when none is left. */
    method RemoveSection(i: int)
      requires Valid()
      modifies this
      ensures Valid() && Instructions() == SectionRemoved(old(Instructions()), i)
    {
      RemoveAtDistinct(sections, i);
      sections := RemoveAt(sections, i);
      if |sections| == 0 {
        var section := new SectionObj("Preparation", [""]);
        sections := sections + [section];
      }
    }

    /** `moveSection`: a new list with the dragged section object moved. */
    method MoveSection(dragIndex: int, hoverIndex: int)
      requires Valid() && 0 <= dragIndex < |sections| && 0 <= hoverIndex < |sections|
      modifies this
      ensures Valid() && Instructions() == SectionMoved(old(Instructions()), dragIndex, hoverIndex)
    {
      MoveItemDistinct(sections, dragIndex, hoverIndex);
      sections := MoveItem(sections, dragIndex, hoverIndex);
    }
  }
}
