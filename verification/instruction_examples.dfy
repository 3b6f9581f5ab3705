/** Worked examples of the instruction text form, and the places where the
    parser's behaviour differs from a naive reading of it. */
module InstructionExamples {
  import opened JsStrings
  import opened JsNumbers
  import opened InstructionCodec
  import opened InstructionRoundTrip

  /** No kept section: the serialized text is empty. */
  lemma {:induction false} SerializeAllBlank(sections: seq<Section>)
    requires forall s :: s in sections ==> IsBlank(s.title)
    ensures Serialize(sections) == ""
  {
    if sections != [] {
      assert forall s :: s in sections[1..] ==> s in sections;
      SerializeAllBlank(sections[1..]);
      assert sections[0] in sections;
    }
  }

  // ---------------------------------------------------------------------------
  // Small facts the examples are computed from
  // ---------------------------------------------------------------------------

  /** A string with a non-whitespace character is not blank. */
  lemma NotBlank(s: string, i: nat)
    requires i < |s| && !IsWhitespace(s[i])
    ensures !IsBlank(s)
  {
  }

  lemma SmallNumbers()
    ensures NatToString(1) == "1" && NatToString(2) == "2"
  {
  }

  lemma JoinTwo(a: string, b: string)
    ensures Join("\n", [a, b]) == a + "\n" + b
  {
    assert [a, b][1..] == [b];
  }

  lemma JoinThree(a: string, b: string, c: string)
    ensures Join("\n", [a, b, c]) == a + "\n" + b + "\n" + c
  {
    assert [a, b, c][1..] == [b, c];
    JoinTwo(b, c);
  }

  /** The text of one section with a non-blank title. */
  lemma SerializeOne(s: Section)
    requires !IsBlank(s.title)
    ensures Serialize([s]) == Join("\n", SectionLines(s))
  {
    SectionTextNonEmpty(s);
    assert SectionTexts([s]) == [SectionText(s)] + SectionTexts([]);
  }

  /** The text of two sections with non-blank titles. */
  lemma SerializeTwo(a: Section, b: Section)
    requires !IsBlank(a.title) && !IsBlank(b.title)
    ensures Serialize([a, b]) == Join("\n", SectionLines(a)) + "\n\n" + Join("\n", SectionLines(b))
  {
    SectionTextNonEmpty(a);
    SectionTextNonEmpty(b);
    var ta := SectionText(a);
    var tb := SectionText(b);
    assert [a, b][1..] == [b];
    assert SectionTexts([b]) == [tb] + SectionTexts([]);
    assert SectionTexts([a, b]) == [ta] + SectionTexts([b]);
    var texts := [ta, tb];
    assert SectionTexts([a, b]) == texts;
    assert texts[1..] == [tb];
    assert Join("\n\n", [tb]) == tb;
    assert Join("\n\n", texts) == ta + "\n\n" + tb;
    assert ta == Join("\n", SectionLines(a)) && tb == Join("\n", SectionLines(b));
  }

  /** The lines of a section with one non-blank step. */
  lemma LinesOfOne(t: string, x: string)
    requires !IsBlank(x)
    ensures SectionLines(Section(t, [x])) == [HeaderLine(t), StepLine(1, x)]
  {
    NonBlankStepsKeepsAll([x]);
  }

  /** The lines of a section with two non-blank steps. */
  lemma LinesOfTwo(t: string, x: string, y: string)
    requires !IsBlank(x) && !IsBlank(y)
    ensures SectionLines(Section(t, [x, y])) == [HeaderLine(t), StepLine(1, x), StepLine(2, y)]
  {
    NonBlankStepsKeepsAll([x, y]);
    var lines := NumberedLines([x, y], 1);
    assert lines == [StepLine(1, x), StepLine(2, y)];
  }

  // ---------------------------------------------------------------------------
  // Serializing
  // ---------------------------------------------------------------------------

  const Prep: Section := Section("Prep", ["Chop onions", "", "Mince garlic"])

  lemma PrepSteps()
    ensures NonBlankSteps(Prep.steps) == ["Chop onions", "Mince garlic"]
  {
    NotBlank("Chop onions", 0);
    NotBlank("Mince garlic", 0);
    var xs := Prep.steps;
    assert xs[1..][1..] == ["Mince garlic"];
    assert NonBlankSteps(xs[1..][1..]) == ["Mince garlic"];
    assert NonBlankSteps(xs[1..]) == ["Mince garlic"];
  }

  lemma PrepText()
    ensures "[" + "Prep" + "]" + "\n" + ("1" + ". " + "Chop onions") + "\n" + ("2" + ". " + "Mince garlic")
            == "[Prep]\n1. Chop onions\n2. Mince garlic"
  {
  }

  /** A blank step is dropped and the others are renumbered. */
  lemma SerializePrep()
    ensures Serialize([Prep]) == "[Prep]\n1. Chop onions\n2. Mince garlic"
  {
    NotBlank(Prep.title, 0);
    NotBlank("Chop onions", 0);
    NotBlank("Mince garlic", 0);
    PrepSteps();
    SerializeOne(Prep);
    LinesOfTwo("Prep", "Chop onions", "Mince garlic");
    assert SectionLines(Prep) == SectionLines(Section("Prep", ["Chop onions", "Mince garlic"]));
    SmallNumbers();
    JoinThree(HeaderLine("Prep"), StepLine(1, "Chop onions"), StepLine(2, "Mince garlic"));
    PrepText();
  }

  // ---------------------------------------------------------------------------
  // Parsing
  // ---------------------------------------------------------------------------

  /** Blank text parses to the default section. */
  lemma ParseBlank()
    ensures Parse("") == [DefaultSection]
    ensures Parse(" \n\t") == [DefaultSection]
  {
    assert IsBlank(" \n\t");
  }

  const Cooking: Section := Section("Cooking", ["Boil water", "Add pasta"])

  lemma CookingWellFormed()
    ensures WellFormed([Cooking])
  {
    NotBlank("Cooking", 0);
    NotBlank("Boil water", 0);
    NotBlank("Add pasta", 0);
    TrimUnchanged("Boil water");
    TrimUnchanged("Add pasta");
  }

  lemma CookingText()
    ensures "[" + "Cooking" + "]" + "\n" + ("1" + ". " + "Boil water") + "\n" + ("2" + ". " + "Add pasta")
            == "[Cooking]\n1. Boil water\n2. Add pasta"
  {
  }

  lemma SerializeCooking()
    ensures Serialize([Cooking]) == "[Cooking]\n1. Boil water\n2. Add pasta"
  {
    NotBlank("Cooking", 0);
    NotBlank("Boil water", 0);
    NotBlank("Add pasta", 0);
    SerializeOne(Cooking);
    LinesOfTwo("Cooking", "Boil water", "Add pasta");
    SmallNumbers();
    JoinThree(HeaderLine("Cooking"), StepLine(1, "Boil water"), StepLine(2, "Add pasta"));
    CookingText();
  }

  /** A section already in normal form comes back unchanged. */
  lemma ParseCooking()
    ensures Parse("[Cooking]\n1. Boil water\n2. Add pasta") == [Cooking]
  {
    CookingWellFormed();
    ParseSerializeWellFormed([Cooking]);
    SerializeCooking();
  }

  lemma TwoSectionsText()
    ensures Serialize([Section("A", []), Section("B", ["x"])]) == "[A]\n\n[B]\n1. x"
  {
    var a := Section("A", []);
    var b := Section("B", ["x"]);
    NotBlank("A", 0);
    NotBlank("B", 0);
    NotBlank("x", 0);
    SerializeTwo(a, b);
    assert SectionLines(a) == [HeaderLine("A")];
    LinesOfOne("B", "x");
    JoinTwo(HeaderLine("B"), StepLine(1, "x"));
    SmallNumbers();
    assert "[" + "A" + "]" + "\n\n" + ("[" + "B" + "]" + "\n" + ("1" + ". " + "x")) == "[A]\n\n[B]\n1. x";
  }

  lemma TwoSectionsExpected()
    ensures Expected([Section("A", []), Section("B", ["x"])]) == [Section("A", []), Section("B", ["x"])]
  {
    var a := Section("A", []);
    var b := Section("B", ["x"]);
    NotBlank("A", 0);
    NotBlank("B", 0);
    NotBlank("x", 0);
    KeptAll([a, b]);
    assert [a, b][..1] == [a];
    NonBlankStepsKeepsAll(b.steps);
    TrimUnchanged("x");
    assert MapTrim(["x"]) == ["x"];
    assert Normalize(a) == a && Normalize(b) == b;
    assert NormalizeAll([a]) == [a];
  }

  lemma EmptySectionLines()
    ensures "[A]" + "\n" + "" + "\n" + "[B]\n1. x" == "[A]\n\n[B]\n1. x"
    ensures "[A]" + "\n" + "[B]\n1. x" == "[A]\n[B]\n1. x"
  {
  }

  /** A section closed by the next header keeps its empty step list: only the
      last section is given a placeholder step. */
  lemma ParseEmptySection()
    ensures Parse("[A]\n[B]\n1. x") == [Section("A", []), Section("B", ["x"])]
  {
    var sections := [Section("A", []), Section("B", ["x"])];
    assert Storable(sections);
    ParseSerialize(sections);
    TwoSectionsText();
    TwoSectionsExpected();
    assert IsBlank("");
    ParseIgnoresLine("[A]", "", "[B]\n1. x");
    EmptySectionLines();
  }

  // ---------------------------------------------------------------------------
  // Serialize, parse, serialize
  // ---------------------------------------------------------------------------

  lemma PaddedText()
    ensures Serialize([Section("A", [" x"])]) == "[A]\n1.  x"
    ensures Serialize([Section("A", ["x"])]) == "[A]\n1. x"
  {
    NotBlank("A", 0);
    NotBlank(" x", 1);
    NotBlank("x", 0);
    SmallNumbers();
    SerializeOne(Section("A", [" x"]));
    LinesOfOne("A", " x");
    JoinTwo(HeaderLine("A"), StepLine(1, " x"));
    assert "[" + "A" + "]" + "\n" + ("1" + ". " + " x") == "[A]\n1.  x";
    SerializeOne(Section("A", ["x"]));
    LinesOfOne("A", "x");
    JoinTwo(HeaderLine("A"), StepLine(1, "x"));
    assert "[" + "A" + "]" + "\n" + ("1" + ". " + "x") == "[A]\n1. x";
  }

  lemma PaddedParse()
    ensures Parse(Serialize([Section("A", [" x"])])) == [Section("A", ["x"])]
  {
    var s := Section("A", [" x"]);
    NotBlank("A", 0);
    NotBlank(" x", 1);
    assert Storable([s]);
    ParseSerialize([s]);
    KeptAll([s]);
    NonBlankStepsKeepsAll(s.steps);
    assert TrimStart(" x") == "x";
    TrimUnchanged("x");
    assert MapTrim([" x"]) == ["x"];
    assert NormalizeAll([s][..0]) == [];
  }

  /** Serialize, parse, serialize is not the identity when a step starts with
      whitespace: the parser trims the step, the serializer does not. */
  lemma UntrimmedStepChanges()
    ensures Serialize(Parse(Serialize([Section("A", [" x"])]))) != Serialize([Section("A", [" x"])])
  {
    PaddedParse();
    PaddedText();
    PaddedDiffers();
  }

  lemma PaddedDiffers()
    ensures "[A]\n1.  x" != "[A]\n1. x"
  {
    assert |"[A]\n1.  x"| == 9;
  }
}
