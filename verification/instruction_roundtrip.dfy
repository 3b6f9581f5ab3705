/** What parsing gives back from serialized instruction sections.  Sections
    with a blank title are dropped, blank steps are dropped and the others
    renumbered, step text comes back trimmed, and only the last section is
    given a placeholder step when it has none. */
module InstructionRoundTrip {
  import opened Wrappers
  import opened JsStrings
  import opened JsNumbers
  import opened InstructionCodec

  // ---------------------------------------------------------------------------
  // What survives the round trip
  // ---------------------------------------------------------------------------

  /** A section the text form can carry: its title is blank (the section is
      dropped), or its title and its non-blank steps fit on one line each. */
  predicate StorableSection(s: Section)
  {
    IsBlank(s.title) ||
    (NoLineTerminator(s.title) && forall x :: x in s.steps ==> IsBlank(x) || NoLineTerminator(x))
  }

  predicate Storable(sections: seq<Section>)
  {
    forall s :: s in sections ==> StorableSection(s)
  }

  /** The sections with a non-blank title, in order. */
  function Kept(sections: seq<Section>): (r: seq<Section>)
    ensures forall s :: s in r ==> s in sections && !IsBlank(s.title)
  {
    if sections == [] then []
    else (if IsBlank(sections[0].title) then [] else [sections[0]]) + Kept(sections[1..])
  }

  /** Every string of `xs` trimmed. */
  function MapTrim(xs: seq<string>): (r: seq<string>)
    ensures |r| == |xs| && forall k :: 0 <= k < |xs| ==> r[k] == Trim(xs[k])
  {
    seq(|xs|, k requires 0 <= k < |xs| => Trim(xs[k]))
  }

  /** A section as it comes back: blank steps dropped, the others trimmed. */
  function Normalize(s: Section): Section
  {
    Section(s.title, MapTrim(NonBlankSteps(s.steps)))
  }

  function NormalizeAll(sections: seq<Section>): (r: seq<Section>)
    ensures |r| == |sections| && forall k :: 0 <= k < |sections| ==> r[k] == Normalize(sections[k])
  {
    seq(|sections|, k requires 0 <= k < |sections| => Normalize(sections[k]))
  }

  /** What `parseInstructions(serializeInstructions(sections))` is: the kept
      sections normalized, the last one with a placeholder step if it has none,
      or the default section when no section is kept. */
  function Expected(sections: seq<Section>): seq<Section>
  {
    var kept := Kept(sections);
    if kept == [] then [DefaultSection]
    else NormalizeAll(kept[..|kept| - 1]) + [WithPlaceholder(Normalize(kept[|kept| - 1]))]
  }

  // ---------------------------------------------------------------------------
  // Trimming a step line
  // ---------------------------------------------------------------------------

  /** Trailing-whitespace removal does not reach into a prefix when the rest
      has a non-whitespace character. */
  lemma {:induction false} TrimEndAfter(p: string, x: string)
    requires !AllWhitespace(x)
    ensures TrimEnd(p + x) == p + TrimEnd(x)
    decreases |x|
  {
    var j :| 0 <= j < |x| && !IsWhitespace(x[j]);
    if IsWhitespace(x[|x| - 1]) {
      var y := x[..|x| - 1];
      assert y[j] == x[j];
      assert (p + x)[..|p + x| - 1] == p + y;
      TrimEndAfter(p, y);
    }
  }

  /** For text with a non-whitespace character, removing the trailing
      whitespace first and the leading whitespace second is `trim`. */
  lemma {:induction false} TrimCommute(x: string)
    requires !AllWhitespace(x)
    ensures TrimStart(TrimEnd(x)) == Trim(x)
    decreases |x|
  {
    var j :| 0 <= j < |x| && !IsWhitespace(x[j]);
    if IsWhitespace(x[0]) {
      var y := x[1..];
      assert y[j - 1] == x[j];
      assert x == [x[0]] + y;
      TrimEndAfter([x[0]], y);
      assert ([x[0]] + TrimEnd(y))[1..] == TrimEnd(y);
      TrimCommute(y);
    } else {
      TrimEndSpec(x);
      TrimEndEmpty(x);
      assert TrimEnd(x)[0] == x[0];
    }
  }

  /** Every character of `Trim(x)` is a character of `x`. */
  lemma TrimKeepsSingleLine(x: string)
    requires NoLineTerminator(x)
    ensures NoLineTerminator(Trim(x))
  {
    TrimStartSpec(x);
    TrimEndSpec(TrimStart(x));
    var k := |x| - |TrimStart(x)|;
    forall i | 0 <= i < |Trim(x)| ensures !IsLineTerminator(Trim(x)[i]) {
      assert Trim(x)[i] == TrimStart(x)[i] == x[k + i];
    }
  }

  /** A header line written by the serializer is read back as a header with
      the same title. */
  lemma ClassifyHeaderLine(t: string)
    requires t != [] && NoLineTerminator(t)
    ensures Classify(HeaderLine(t)) == Header(t)
  {
    TrimUnchanged(HeaderLine(t));
    MatchHeaderSpec(HeaderLine(t));
  }

  /** Trimming a step line trims only the end of its step. */
  lemma TrimStepLine(n: nat, x: string)
    requires !IsBlank(x)
    ensures Trim(StepLine(n, x)) == NatToString(n) + ". " + TrimEnd(x)
  {
    var digits := NatToString(n);
    var line := StepLine(n, x);
    assert line == (digits + ". ") + x;
    assert TrimStart(line) == line;
    TrimEndAfter(digits + ". ", x);
  }

  /** The step pattern reads digits, a dot, and the text after the whitespace. */
  lemma MatchStepOf(digits: string, y: string)
    requires digits != [] && AllDigits(digits)
    requires TrimStart(y) != [] && NoLineTerminator(TrimStart(y))
    ensures MatchStep(digits + "." + y) == Some(TrimStart(y))
  {
    var t := digits + "." + y;
    LeadingDigitsOf(digits, "." + y);
    assert t == digits + ("." + y);
    assert t[|digits|] == '.';
    assert t[|digits| + 1..] == y;
  }

  /** A step line written by the serializer is read back as a step whose text
      is the trimmed step. */
  lemma ClassifyStepLine(n: nat, x: string)
    requires !IsBlank(x) && NoLineTerminator(x)
    ensures Classify(StepLine(n, x)) == Step(Trim(x))
  {
    var digits := NatToString(n);
    TrimStepLine(n, x);
    var y := " " + TrimEnd(x);
    var t := digits + "." + y;
    assert digits + ". " + TrimEnd(x) == t;
    assert MatchHeader(t).None?;
    assert TrimStart(y) == TrimStart(TrimEnd(x));
    TrimCommute(x);
    TrimEmptyIffBlank(x);
    TrimKeepsSingleLine(x);
    MatchStepOf(digits, y);
  }

  // ---------------------------------------------------------------------------
  // The lines of the serialized text
  // ---------------------------------------------------------------------------

  /** The lines of the kept sections, one section after another. */
  function AllLines(kept: seq<Section>): seq<string>
  {
    if kept == [] then [] else SectionLines(kept[0]) + AllLines(kept[1..])
  }

  /** The non-blank lines of each text, one text after another. */
  function LinesOfTexts(texts: seq<string>): seq<string>
  {
    if texts == [] then [] else NonBlankLines(texts[0]) + LinesOfTexts(texts[1..])
  }

  lemma NoLinesInEmpty()
    ensures NonBlankLines("") == []
  {
    assert Split("", '\n') == [""];
  }

  /** A line break in front of a text adds no line to parse. */
  lemma LinesAfterBreak(rest: string)
    ensures NonBlankLines("\n" + rest) == NonBlankLines(rest)
  {
    NoLinesInEmpty();
    NonBlankLinesAround("", rest);
    assert "" + "\n" + rest == "\n" + rest;
  }

  /** The blank line between sections adds no line to parse. */
  lemma {:induction false} LinesOfJoin(texts: seq<string>)
    ensures NonBlankLines(Join("\n\n", texts)) == LinesOfTexts(texts)
  {
    if texts == [] {
      NoLinesInEmpty();
    } else if |texts| == 1 {
      assert LinesOfTexts(texts) == NonBlankLines(texts[0]) + LinesOfTexts([]);
    } else {
      var rest := Join("\n\n", texts[1..]);
      assert Join("\n\n", texts) == texts[0] + "\n" + ("\n" + rest);
      NonBlankLinesAround(texts[0], "\n" + rest);
      LinesAfterBreak(rest);
      LinesOfJoin(texts[1..]);
    }
  }

  /** A string without the character `c`, as the quantifier `Split` needs. */
  lemma NotIn(s: string, c: char)
    requires forall i :: 0 <= i < |s| ==> s[i] != c
    ensures c !in s
  {
  }

  /** A header line is one non-blank line. */
  lemma HeaderLineShape(t: string)
    requires NoLineTerminator(t)
    ensures '\n' !in HeaderLine(t) && !IsBlank(HeaderLine(t))
  {
    var h := HeaderLine(t);
    forall i | 0 <= i < |h| ensures h[i] != '\n' {
      if 0 < i < |h| - 1 {
        assert h[i] == t[i - 1];
      }
    }
    NotIn(h, '\n');
    assert !IsWhitespace(h[0]);
  }

  /** A step line of a single-line step is one non-blank line. */
  lemma StepLineShape(n: nat, x: string)
    requires NoLineTerminator(x)
    ensures '\n' !in StepLine(n, x) && !IsBlank(StepLine(n, x))
  {
    var digits := NatToString(n);
    var line := StepLine(n, x);
    assert line == digits + ". " + x;
    forall i | 0 <= i < |line| ensures line[i] != '\n' {
      if i < |digits| {
        assert line[i] == digits[i];
      } else if i >= |digits| + 2 {
        assert line[i] == x[i - |digits| - 2];
      }
    }
    NotIn(line, '\n');
    assert line[0] == digits[0];
    assert !IsWhitespace(line[0]);
  }

  /** Every line of a kept, storable section is a single non-blank line. */
  lemma SectionLinesShape(s: Section)
    requires !IsBlank(s.title) && StorableSection(s)
    ensures forall k :: 0 <= k < |SectionLines(s)| ==> '\n' !in SectionLines(s)[k] && !IsBlank(SectionLines(s)[k])
  {
    var lines := SectionLines(s);
    var xs := NonBlankSteps(s.steps);
    forall k | 0 <= k < |lines|
      ensures '\n' !in lines[k] && !IsBlank(lines[k])
    {
      if k == 0 {
        HeaderLineShape(s.title);
      } else {
        assert xs[k - 1] in xs;
        assert lines[k] == StepLine(k, xs[k - 1]);
        StepLineShape(k, xs[k - 1]);
      }
    }
  }

  /** A kept section's text has exactly its section lines as non-blank lines. */
  lemma SectionTextLines(s: Section)
    requires !IsBlank(s.title) && StorableSection(s)
    ensures NonBlankLines(SectionText(s)) == SectionLines(s)
  {
    SectionLinesShape(s);
    SplitJoin(SectionLines(s), '\n');
    NonBlankStepsKeepsAll(SectionLines(s));
  }

  /** The non-blank lines of the serialized text are the lines of the kept
      sections. */
  lemma {:induction false} SerializedLines(sections: seq<Section>)
    requires Storable(sections)
    ensures LinesOfTexts(SectionTexts(sections)) == AllLines(Kept(sections))
  {
    if sections != [] {
      var s := sections[0];
      var tail := sections[1..];
      assert Storable(tail);
      SerializedLines(tail);
      if IsBlank(s.title) {
        assert SectionTexts(sections) == SectionTexts(tail);
        assert Kept(sections) == Kept(tail);
      } else {
        SectionTextLines(s);
        SectionTextNonEmpty(s);
        var texts := [SectionText(s)] + SectionTexts(tail);
        assert SectionTexts(sections) == texts;
        assert texts[0] == SectionText(s) && texts[1..] == SectionTexts(tail);
        var kept := [s] + Kept(tail);
        assert Kept(sections) == kept;
        assert kept[0] == s && kept[1..] == Kept(tail);
      }
    }
  }

  // ---------------------------------------------------------------------------
  // Parsing those lines
  // ---------------------------------------------------------------------------

  /** What the parser makes of the numbered lines of `xs`. */
  function StepKinds(xs: seq<string>): (r: seq<LineKind>)
    ensures |r| == |xs| && forall k :: 0 <= k < |xs| ==> r[k] == Step(Trim(xs[k]))
  {
    seq(|xs|, k requires 0 <= k < |xs| => Step(Trim(xs[k])))
  }

  /** What the parser makes of the lines of a kept section. */
  function SectionKinds(s: Section): seq<LineKind>
  {
    [Header(s.title)] + StepKinds(NonBlankSteps(s.steps))
  }

  /** What the parser makes of the lines of the kept sections. */
  function AllKinds(kept: seq<Section>): seq<LineKind>
  {
    if kept == [] then [] else SectionKinds(kept[0]) + AllKinds(kept[1..])
  }

  lemma KindsOfSteps(xs: seq<string>, n: nat)
    requires forall x :: x in xs ==> !IsBlank(x) && NoLineTerminator(x)
    ensures ClassifyAll(NumberedLines(xs, n)) == StepKinds(xs)
  {
    var lines := NumberedLines(xs, n);
    var r := ClassifyAll(lines);
    forall k | 0 <= k < |xs| ensures r[k] == StepKinds(xs)[k] {
      assert r[k] == Classify(StepLine(n + k, xs[k]));
      assert xs[k] in xs;
      ClassifyStepLine(n + k, xs[k]);
    }
  }

  lemma KindsOfSection(s: Section)
    requires !IsBlank(s.title) && StorableSection(s)
    ensures ClassifyAll(SectionLines(s)) == SectionKinds(s)
  {
    var t := s.title;
    var xs := NonBlankSteps(s.steps);
    assert ClassifyAll([HeaderLine(t)]) == [Header(t)] by {
      assert t != [] && NoLineTerminator(t);
      ClassifyHeaderLine(t);
    }
    assert ClassifyAll(NumberedLines(xs, 1)) == StepKinds(xs) by {
      forall x | x in xs ensures !IsBlank(x) && NoLineTerminator(x) {
        assert x in s.steps;
      }
      KindsOfSteps(xs, 1);
    }
    ClassifyAllAppend([HeaderLine(t)], NumberedLines(xs, 1));
  }

  lemma {:induction false} KindsOfAllLines(kept: seq<Section>)
    requires forall s :: s in kept ==> !IsBlank(s.title) && StorableSection(s)
    ensures ClassifyAll(AllLines(kept)) == AllKinds(kept)
  {
    if kept != [] {
      assert forall x :: x in kept[1..] ==> x in kept;
      KindsOfAllLines(kept[1..]);
      KindsOfSection(kept[0]);
      ClassifyAllAppend(SectionLines(kept[0]), AllLines(kept[1..]));
    }
  }

  /** The step lines add their trimmed steps to the current section. */
  lemma {:induction false} RunSteps(st: ParseState, c: Section, xs: seq<string>)
    requires st.current == Some(c)
    ensures Run(st, StepKinds(xs)) == ParseState(st.sections, Some(c.(steps := c.steps + MapTrim(xs))))
    decreases |xs|
  {
    if xs == [] {
      assert MapTrim(xs) == [];
      AppendNothing(c.steps);
    } else {
      var kinds := StepKinds(xs);
      assert kinds[1..] == StepKinds(xs[1..]);
      var c1 := c.(steps := c.steps + [Trim(xs[0])]);
      var st1 := ParseState(st.sections, Some(c1));
      assert Feed(st, kinds[0]) == st1;
      RunSteps(st1, c1, xs[1..]);
      var tail := MapTrim(xs[1..]);
      assert MapTrim(xs) == [Trim(xs[0])] + tail;
      AppendAssoc(c.steps, [Trim(xs[0])], tail);
    }
  }

  /** A kept section's lines close the current section and leave the
      normalized section open. */
  lemma RunSection(st: ParseState, s: Section)
    ensures Run(st, SectionKinds(s)) == ParseState(st.sections + Pending(st.current), Some(Normalize(s)))
  {
    var kinds := SectionKinds(s);
    var xs := NonBlankSteps(s.steps);
    assert kinds[0] == Header(s.title) && kinds[1..] == StepKinds(xs);
    var c := Section(s.title, []);
    var st1 := ParseState(st.sections + Pending(st.current), Some(c));
    assert Feed(st, kinds[0]) == st1;
    RunSteps(st1, c, xs);
    assert c.steps + MapTrim(xs) == MapTrim(xs);
  }

  /** The lines of several kept sections close all but the last, normalized. */
  lemma {:induction false} RunSections(st: ParseState, kept: seq<Section>)
    requires kept != []
    ensures Run(st, AllKinds(kept)) ==
            ParseState(st.sections + Pending(st.current) + NormalizeAll(kept[..|kept| - 1]), Some(Normalize(kept[|kept| - 1])))
    decreases |kept|
  {
    var s := kept[0];
    var rest := kept[1..];
    var done := st.sections + Pending(st.current);
    var st1 := ParseState(done, Some(Normalize(s)));
    assert Run(st, AllKinds(kept)) == Run(st1, AllKinds(rest)) by {
      RunSection(st, s);
      assert AllKinds(kept) == SectionKinds(s) + AllKinds(rest);
      RunAppend(st, SectionKinds(s), AllKinds(rest));
    }
    if rest == [] {
      assert AllKinds(rest) == [];
      assert NormalizeAll(kept[..0]) == [];
      AppendNothing(done);
    } else {
      var n := |kept|;
      RunSections(st1, rest);
      assert NormalizeAll(kept[..n - 1]) == [Normalize(s)] + NormalizeAll(rest[..n - 2]) by {
        assert kept[..n - 1] == [s] + rest[..n - 2];
        NormalizeAllCons(s, rest[..n - 2]);
      }
      AppendAssoc(done, [Normalize(s)], NormalizeAll(rest[..n - 2]));
      assert rest[n - 2] == kept[n - 1];
    }
  }

  lemma NormalizeAllCons(s: Section, tail: seq<Section>)
    ensures NormalizeAll([s] + tail) == [Normalize(s)] + NormalizeAll(tail)
  {
    var a := NormalizeAll([s] + tail);
    var b := [Normalize(s)] + NormalizeAll(tail);
    forall k | 0 <= k < |a| ensures a[k] == b[k] {
      if k > 0 {
        assert ([s] + tail)[k] == tail[k - 1];
      }
    }
  }

  /** The parser's result once it has read the lines of the kept sections:
      all but the last normalized, the last also given a placeholder. */
  lemma FinishKept(kept: seq<Section>)
    requires kept != []
    ensures Finish(Run(Initial, AllKinds(kept))) == NormalizeAll(kept[..|kept| - 1]) + [WithPlaceholder(Normalize(kept[|kept| - 1]))]
  {
    var n := |kept|;
    RunSections(Initial, kept);
    var done := NormalizeAll(kept[..n - 1]);
    NothingBefore(done);
  }

  lemma NothingBefore<T>(x: seq<T>)
    ensures [] + [] + x == x
  {
  }

  lemma AppendNothing<T>(x: seq<T>)
    ensures x + [] == x
  {
  }

  lemma AppendAssoc<T>(a: seq<T>, b: seq<T>, c: seq<T>)
    ensures a + b + c == a + (b + c)
  {
  }

  lemma SplitLast<T>(s: seq<T>)
    requires s != []
    ensures s[..|s| - 1] + [s[|s| - 1]] == s
  {
  }

  /** Round trip: parsing serialized sections yields the kept sections,
      normalized, with a placeholder step only in the last one. */
  lemma ParseSerialize(sections: seq<Section>)
    requires Storable(sections)
    ensures Parse(Serialize(sections)) == Expected(sections)
  {
    var text := Serialize(sections);
    var kept := Kept(sections);
    ParseIsRun(text);
    LinesOfJoin(SectionTexts(sections));
    SerializedLines(sections);
    assert NonBlankLines(text) == AllLines(kept);
    KindsOfAllLines(kept);
    assert Parse(text) == Finish(Run(Initial, AllKinds(kept)));
    if kept == [] {
      assert AllKinds(kept) == [];
    } else {
      FinishKept(kept);
    }
  }

  // ---------------------------------------------------------------------------
  // Consequences
  // ---------------------------------------------------------------------------

  /** Sections the editor can round-trip unchanged: each has a non-blank
      single-line title and at least one step, and every step is non-blank,
      single-line and trimmed. */
  predicate WellFormed(sections: seq<Section>)
  {
    forall s :: s in sections ==>
      !IsBlank(s.title) && NoLineTerminator(s.title) && s.steps != [] &&
      forall x :: x in s.steps ==> !IsBlank(x) && NoLineTerminator(x) && Trim(x) == x
  }

  lemma {:induction false} KeptAll(sections: seq<Section>)
    requires forall s :: s in sections ==> !IsBlank(s.title)
    ensures Kept(sections) == sections
  {
    if sections != [] {
      assert forall s :: s in sections[1..] ==> s in sections;
      KeptAll(sections[1..]);
      assert sections == [sections[0]] + sections[1..];
    }
  }

  lemma NormalizeWellFormed(s: Section)
    requires forall x :: x in s.steps ==> !IsBlank(x) && Trim(x) == x
    ensures Normalize(s) == s
  {
    NonBlankStepsKeepsAll(s.steps);
    assert MapTrim(s.steps) == s.steps;
  }

  lemma {:induction false} NormalizeAllWellFormed(sections: seq<Section>)
    requires WellFormed(sections)
    ensures NormalizeAll(sections) == sections
  {
    forall k | 0 <= k < |sections| ensures NormalizeAll(sections)[k] == sections[k] {
      assert sections[k] in sections;
      NormalizeWellFormed(sections[k]);
    }
  }

  /** Well-formed sections are their own normal form. */
  lemma ExpectedWellFormed(sections: seq<Section>)
    requires sections != [] && WellFormed(sections)
    ensures Expected(sections) == sections
  {
    KeptAll(sections);
    var n := |sections|;
    var init := sections[..n - 1];
    var last := sections[n - 1];
    assert forall s :: s in init ==> s in sections;
    NormalizeAllWellFormed(init);
    assert last in sections;
    NormalizeWellFormed(last);
    SplitLast(sections);
  }

  /** Well-formed sections come back exactly. */
  lemma ParseSerializeWellFormed(sections: seq<Section>)
    requires sections != [] && WellFormed(sections)
    ensures Parse(Serialize(sections)) == sections
  {
    ParseSerialize(sections);
    ExpectedWellFormed(sections);
  }

  /** Serializing does not look at blank steps: normalizing a section whose
      non-blank steps are trimmed, and then giving it a placeholder, leaves its
      text alone. */
  lemma NormalizeKeepsText(s: Section)
    requires forall x :: x in s.steps ==> IsBlank(x) || Trim(x) == x
    ensures SectionText(Normalize(s)) == SectionText(s)
    ensures SectionText(WithPlaceholder(Normalize(s))) == SectionText(s)
  {
    var xs := NonBlankSteps(s.steps);
    assert MapTrim(xs) == xs;
    NonBlankStepsKeepsAll(xs);
    assert NonBlankSteps([""]) == [];
  }

  /** A section with a non-blank title has non-empty text. */
  lemma SectionTextNonEmpty(s: Section)
    requires !IsBlank(s.title)
    ensures SectionText(s) != ""
  {
    var lines := SectionLines(s);
    assert lines[0] == HeaderLine(s.title);
    if |lines| > 1 {
      assert Join("\n", lines) == lines[0] + "\n" + Join("\n", lines[1..]);
    }
  }

  /** Only the sections with a non-blank title contribute text. */
  lemma {:induction false} SectionTextsOfKept(sections: seq<Section>)
    ensures SectionTexts(sections) == SectionTexts(Kept(sections))
  {
    if sections != [] {
      var s := sections[0];
      var tail := sections[1..];
      SectionTextsOfKept(tail);
      if IsBlank(s.title) {
        assert SectionTexts(sections) == SectionTexts(tail);
        assert Kept(sections) == Kept(tail);
      } else {
        SectionTextNonEmpty(s);
        assert SectionTexts(sections) == [SectionText(s)] + SectionTexts(tail);
        var kept := [s] + Kept(tail);
        assert Kept(sections) == kept;
        assert kept[0] == s && kept[1..] == Kept(tail);
        assert SectionTexts(kept) == [SectionText(s)] + SectionTexts(Kept(tail));
      }
    }
  }

  /** Lists of sections with the same texts, position by position, serialize
      alike. */
  lemma {:induction false} SectionTextsPointwise(a: seq<Section>, b: seq<Section>)
    requires |a| == |b|
    requires forall k :: 0 <= k < |a| ==> SectionText(a[k]) == SectionText(b[k])
    ensures SectionTexts(a) == SectionTexts(b)
  {
    if a != [] {
      SectionTextsPointwise(a[1..], b[1..]);
    }
  }

  /** Serialize, parse, serialize again: the text is unchanged when at least
      one section is kept and every non-blank step is already trimmed. */
  lemma SerializeParseSerialize(sections: seq<Section>)
    requires Storable(sections) && Kept(sections) != []
    requires forall s :: s in sections ==> forall x :: x in s.steps ==> IsBlank(x) || Trim(x) == x
    ensures Serialize(Parse(Serialize(sections))) == Serialize(sections)
  {
    ParseSerialize(sections);
    ExpectedTexts(sections);
    SectionTextsOfKept(sections);
  }

  /** The sections the parser gives back have the texts of the kept sections
      when every non-blank step is already trimmed. */
  lemma ExpectedTexts(sections: seq<Section>)
    requires Kept(sections) != []
    requires forall s :: s in sections ==> forall x :: x in s.steps ==> IsBlank(x) || Trim(x) == x
    ensures SectionTexts(Expected(sections)) == SectionTexts(Kept(sections))
  {
    var kept := Kept(sections);
    var e := Expected(sections);
    forall k | 0 <= k < |kept| ensures SectionText(e[k]) == SectionText(kept[k]) {
      ExpectedTextAt(sections, k);
    }
    SectionTextsPointwise(e, kept);
  }

  /** The `k`th section given back has the text of the `k`th kept section. */
  lemma ExpectedTextAt(sections: seq<Section>, k: int)
    requires 0 <= k < |Kept(sections)|
    requires forall s :: s in sections ==> forall x :: x in s.steps ==> IsBlank(x) || Trim(x) == x
    ensures |Expected(sections)| == |Kept(sections)|
    ensures SectionText(Expected(sections)[k]) == SectionText(Kept(sections)[k])
  {
    ExpectedAt(sections, k);
    KeptStepsTrimmed(sections, k);
    NormalizeKeepsText(Kept(sections)[k]);
  }

  /** The `k`th section given back is the `k`th kept section normalized, the
      last one perhaps with a placeholder. */
  lemma ExpectedAt(sections: seq<Section>, k: int)
    requires 0 <= k < |Kept(sections)|
    ensures |Expected(sections)| == |Kept(sections)|
    ensures Expected(sections)[k] ==
            if k < |Kept(sections)| - 1 then Normalize(Kept(sections)[k]) else WithPlaceholder(Normalize(Kept(sections)[k]))
  {
    var kept := Kept(sections);
    var n := |kept|;
    var init := NormalizeAll(kept[..n - 1]);
    var last := WithPlaceholder(Normalize(kept[n - 1]));
    assert Expected(sections) == init + [last];
    IndexAppend(init, last, k);
    if k < n - 1 {
      assert init[k] == Normalize(kept[k]) by {
        assert kept[..n - 1][k] == kept[k];
      }
    }
  }

  lemma IndexAppend<T>(a: seq<T>, x: T, k: int)
    requires 0 <= k <= |a|
    ensures |a + [x]| == |a| + 1
    ensures (a + [x])[k] == if k < |a| then a[k] else x
  {
  }

  lemma KeptStepsTrimmed(sections: seq<Section>, k: int)
    requires 0 <= k < |Kept(sections)|
    requires forall s :: s in sections ==> forall x :: x in s.steps ==> IsBlank(x) || Trim(x) == x
    ensures forall x :: x in Kept(sections)[k].steps ==> IsBlank(x) || Trim(x) == x
  {
    assert Kept(sections)[k] in Kept(sections);
  }
}
