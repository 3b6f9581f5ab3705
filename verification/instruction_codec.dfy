/** The instruction sections of a recipe and their text form: the editor keeps
    a list of titled sections of steps and stores them as one string, a
    bracketed header line per section followed by numbered step lines, with a
    blank line between sections (src/components/AddRecipe.tsx, `parseInstructions`
    and `serializeInstructions`). */
module InstructionCodec {
  import opened Wrappers
  import opened JsStrings
  import opened JsNumbers

  /** One instruction section: a title and its steps, in order. */
  datatype Section = Section(title: string, steps: seq<string>)

  /** The section a new recipe starts with, and what blank text parses to. */
  const DefaultSection: Section := Section("Preparation", [""])

  // ---------------------------------------------------------------------------
  // Serializing
  // ---------------------------------------------------------------------------

  /** `steps.filter((step) => step.trim() !== "")`. */
  function NonBlankSteps(steps: seq<string>): (r: seq<string>)
    ensures |r| <= |steps|
    ensures forall x :: x in r ==> x in steps && !IsBlank(x)
    ensures forall k :: 0 <= k < |steps| && !IsBlank(steps[k]) ==> steps[k] in r
  {
    if steps == [] then []
    else (if IsBlank(steps[0]) then [] else [steps[0]]) + NonBlankSteps(steps[1..])
  }

  /** The text of the `n`th step (counting from 1). */
  function StepLine(n: nat, step: string): string
  {
    NatToString(n) + ". " + step
  }

  /** `steps.map((step, index) => `${index + 1}. ${step}`)`, numbering from `first`. */
  function NumberedLines(steps: seq<string>, first: nat): (r: seq<string>)
    ensures |r| == |steps|
    ensures forall k :: 0 <= k < |steps| ==> r[k] == StepLine(first + k, steps[k])
  {
    if steps == [] then [] else [StepLine(first, steps[0])] + NumberedLines(steps[1..], first + 1)
  }

  function HeaderLine(title: string): string
  {
    "[" + title + "]"
  }

  /** The lines a section with a non-blank title is written as: its header, then
      its non-blank steps numbered from 1. */
  function SectionLines(s: Section): seq<string>
  {
    [HeaderLine(s.title)] + NumberedLines(NonBlankSteps(s.steps), 1)
  }

  /** The text of one section; a section with a blank title is written as "". */
  function SectionText(s: Section): string
  {
    if IsBlank(s.title) then "" else Join("\n", SectionLines(s))
  }

  /** The section texts with the empty ones dropped (the source's `map` and
      `filter((section) => section !== "")` in one pass). */
  function SectionTexts(sections: seq<Section>): seq<string>
  {
    if sections == [] then []
    else (if SectionText(sections[0]) == "" then [] else [SectionText(sections[0])]) + SectionTexts(sections[1..])
  }

  /** `serializeInstructions`: the section texts separated by a blank line. */
  function Serialize(sections: seq<Section>): string
  {
    Join("\n\n", SectionTexts(sections))
  }

  // ---------------------------------------------------------------------------
  // Parsing
  // ---------------------------------------------------------------------------

  /** `line.match(/^\[(.+)\]$/)` and its group. */
  function MatchHeader(line: string): Option<string>
  {
    if |line| >= 3 && line[0] == '[' && line[|line| - 1] == ']' && NoLineTerminator(line[1..|line| - 1])
    then Some(line[1..|line| - 1])
    else None
  }

  /** The header pattern matches exactly the bracketed, non-empty titles without
      line terminators, and its group is the title. */
  lemma MatchHeaderSpec(line: string)
    ensures MatchHeader(line).Some? ==> var t := MatchHeader(line).value;
      line == HeaderLine(t) && t != [] && NoLineTerminator(t)
    ensures forall t :: t != [] && NoLineTerminator(t) && line == HeaderLine(t) ==> MatchHeader(line) == Some(t)
  {
    if MatchHeader(line).Some? {
      assert line == HeaderLine(line[1..|line| - 1]);
    }
    forall t | t != [] && NoLineTerminator(t) && line == HeaderLine(t)
      ensures MatchHeader(line) == Some(t)
    {
      assert line[1..|line| - 1] == t;
    }
  }

  /** The part of a step line in front of its text: digits, a dot and whitespace. */
  predicate IsStepPrefix(p: string)
  {
    var d := LeadingDigits(p);
    0 < d < |p| && p[d] == '.' && AllWhitespace(p[d + 1..])
  }

  /** Digits, a dot and whitespace form a step prefix. */
  lemma StepPrefixParts(digits: string, ws: string)
    requires digits != [] && AllDigits(digits) && AllWhitespace(ws)
    ensures IsStepPrefix(digits + "." + ws)
  {
    var p := digits + "." + ws;
    assert p == digits + ("." + ws);
    LeadingDigitsOf(digits, "." + ws);
    assert p[|digits| + 1..] == ws;
  }

  /** `line.match(/^\d+\.\s*(.+)$/)` and its group.  The greedy `\s*` gives back
      one character when nothing else is left for `(.+)`. */
  function MatchStep(line: string): (r: Option<string>)
    ensures r.Some? ==> r.value != [] && NoLineTerminator(r.value)
    ensures r.Some? ==> |r.value| < |line| && line[|line| - |r.value|..] == r.value
    ensures r.Some? ==> IsStepPrefix(line[..|line| - |r.value|])
  {
    var d := LeadingDigits(line);
    if d == 0 || d == |line| || line[d] != '.' then None
    else StepText(line, d)
  }

  /** The group of the step pattern once the digits and the dot have matched:
      the text after the whitespace, or the last character when only
      whitespace follows the dot. */
  function StepText(line: string, d: nat): (r: Option<string>)
    requires d == LeadingDigits(line) && 0 < d < |line| && line[d] == '.'
    ensures r.Some? ==> r.value != [] && NoLineTerminator(r.value)
    ensures r.Some? ==> |r.value| < |line| && line[|line| - |r.value|..] == r.value
    ensures r.Some? ==> IsStepPrefix(line[..|line| - |r.value|])
  {
    var after := line[d + 1..];
    var text := TrimStart(after);
    if text != [] then
      if NoLineTerminator(text) then
        TextAfterPrefix(line, d);
        Some(text)
      else
        None
    else if after != [] && !IsLineTerminator(after[|after| - 1]) then
      LastAfterPrefix(line, d);
      Some([after[|after| - 1]])
    else
      None
  }

  lemma WhitespacePrefix(s: string, m: int)
    requires AllWhitespace(s) && 0 <= m <= |s|
    ensures AllWhitespace(s[..m])
  {
    forall i | 0 <= i < m ensures IsWhitespace(s[..m][i]) {
      assert s[..m][i] == s[i];
    }
  }

  /** The text after the whitespace ends the line, behind a step prefix. */
  lemma TextAfterPrefix(line: string, d: nat)
    requires d == LeadingDigits(line) && 0 < d < |line| && line[d] == '.'
    requires TrimStart(line[d + 1..]) != []
    ensures var text := TrimStart(line[d + 1..]);
      |text| < |line| && line[|line| - |text|..] == text && IsStepPrefix(line[..|line| - |text|])
  {
    var after := line[d + 1..];
    var text := TrimStart(after);
    var e := |line| - |text|;
    TrimStartSpec(after);
    assert line[d + 1..e] == after[..|after| - |text|];
    assert line[e..] == after[|after| - |text|..];
    StepTail(line, d, e);
  }

  /** When only whitespace follows the dot, the last character ends the line,
      behind a step prefix. */
  lemma LastAfterPrefix(line: string, d: nat)
    requires d == LeadingDigits(line) && 0 < d < |line| && line[d] == '.'
    requires d + 1 < |line| && TrimStart(line[d + 1..]) == []
    ensures line[|line| - 1..] == [line[|line| - 1]] && IsStepPrefix(line[..|line| - 1])
  {
    assert AllWhitespace(line[d + 1..]) by { TrimStartAllWhitespace(line[d + 1..]); }
    LastStepPrefix(line, d);
    LastSlice(line);
  }

  /** Digits, a dot and only whitespace: all but the last character form a
      step prefix. */
  lemma LastStepPrefix(line: string, d: nat)
    requires 0 < d && d + 1 < |line| && AllDigits(line[..d]) && line[d] == '.'
    requires AllWhitespace(line[d + 1..])
    ensures IsStepPrefix(line[..|line| - 1])
  {
    var e := |line| - 1;
    WhitespacePrefix(line[d + 1..], e - d - 1);
    assert line[d + 1..e] == line[d + 1..][..e - d - 1];
    StepTail(line, d, e);
  }

  lemma LastSlice<T>(s: seq<T>)
    requires |s| >= 1
    ensures s[|s| - 1..] == [s[|s| - 1]]
  {
  }

  /** The digits and the dot, then whitespace up to `e`, form a step prefix. */
  lemma StepTail(line: string, d: nat, e: nat)
    requires 0 < d < |line| && AllDigits(line[..d]) && line[d] == '.'
    requires d + 1 <= e <= |line| && AllWhitespace(line[d + 1..e])
    ensures IsStepPrefix(line[..e])
  {
    var ws := line[d + 1..e];
    assert line[..e] == line[..d] + "." + ws;
    StepPrefixParts(line[..d], ws);
  }

  /** What a non-blank line is to the parser: a section header with its title,
      a numbered step with its text, or anything else. */
  datatype LineKind = Header(title: string) | Step(text: string) | Other

  /** The trimmed line matched against the header pattern first and the step
      pattern second. */
  function Classify(line: string): LineKind
  {
    var trimmed := Trim(line);
    match MatchHeader(trimmed)
    case Some(title) => Header(title)
    case None =>
      match MatchStep(trimmed)
      case Some(text) => Step(text)
      case None => Other
  }

  /** `lines.map(Classify)`. */
  function ClassifyAll(lines: seq<string>): (r: seq<LineKind>)
    ensures |r| == |lines|
    ensures forall k :: 0 <= k < |lines| ==> r[k] == Classify(lines[k])
  {
    seq(|lines|, k requires 0 <= k < |lines| => Classify(lines[k]))
  }

  lemma ClassifyAllAppend(a: seq<string>, b: seq<string>)
    ensures ClassifyAll(a + b) == ClassifyAll(a) + ClassifyAll(b)
  {
    assert forall k :: 0 <= k < |a| ==> (a + b)[k] == a[k];
    assert forall k :: |a| <= k < |a| + |b| ==> (a + b)[k] == b[k - |a|];
  }

  /** The state of the source's loop: the finished sections and the one being filled. */
  datatype ParseState = ParseState(sections: seq<Section>, current: Option<Section>)

  const Initial: ParseState := ParseState([], None)

  /** The section being filled, as a list of zero or one sections. */
  function Pending(current: Option<Section>): seq<Section>
  {
    match current
    case None => []
    case Some(c) => [c]
  }

  /** One turn of the loop: a header closes the current section and opens a new
      one; a step line inside a section adds a step; anything else is ignored. */
  function Feed(st: ParseState, kind: LineKind): ParseState
  {
    match kind
    case Header(title) => ParseState(st.sections + Pending(st.current), Some(Section(title, [])))
    case Step(text) =>
      (match st.current
       case None => st
       case Some(c) => ParseState(st.sections, Some(c.(steps := c.steps + [text]))))
    case Other => st
  }

  /** The loop over a list of classified lines. */
  function Run(st: ParseState, kinds: seq<LineKind>): ParseState
    decreases |kinds|
  {
    if kinds == [] then st else Run(Feed(st, kinds[0]), kinds[1..])
  }

  /** Section `c` with the placeholder step "" when it has no step. */
  function WithPlaceholder(c: Section): (r: Section)
    ensures r.title == c.title && r.steps != []
    ensures c.steps != [] ==> r == c
  {
    if c.steps == [] then c.(steps := [""]) else c
  }

  /** After the loop: the current section is closed (given a placeholder step if
      it has none) and an empty result becomes the default section. */
  function Finish(st: ParseState): (r: seq<Section>)
    ensures |r| >= 1
  {
    var all := st.sections + (match st.current case None => [] case Some(c) => [WithPlaceholder(c)]);
    if all == [] then [DefaultSection] else all
  }

  /** `.split("\n").filter((line) => line.trim() !== "")`. */
  function NonBlankLines(text: string): seq<string>
  {
    NonBlankSteps(Split(text, '\n'))
  }

  /** `parseInstructions`. */
  function Parse(instructions: string): seq<Section>
  {
    if IsBlank(instructions) then [DefaultSection]
    else Finish(Run(Initial, ClassifyAll(NonBlankLines(instructions))))
  }

  /** `parseInstructions` as the source writes it: a loop over the lines that
      pushes onto the section list and onto the current section's steps. */
  method ParseInstructions(instructions: string) returns (sections: seq<Section>)
    ensures sections == Parse(instructions)
  {
    if IsBlank(instructions) {
      return [DefaultSection];
    }
    sections := ParseLines(NonBlankLines(instructions));
  }

  /** The loop of `parseInstructions` over the non-blank lines, and what follows it. */
  method ParseLines(lines: seq<string>) returns (sections: seq<Section>)
    ensures sections == Finish(Run(Initial, ClassifyAll(lines)))
  {
    ghost var kinds: seq<LineKind> := [];
    sections := [];
    var current: Option<Section> := None;
    for i := 0 to |lines|
      invariant |kinds| == i && forall k :: 0 <= k < i ==> kinds[k] == Classify(lines[k])
      invariant ParseState(sections, current) == Run(Initial, kinds)
    {
      var kind := Classify(lines[i]);
      RunSnoc(Initial, kinds, kind);
      match kind {
        case Header(title) =>
          if current.Some? {
            sections := sections + [current.value];
          }
          current := Some(Section(title, []));
        case Step(text) =>
          if current.Some? {
            current := Some(current.value.(steps := current.value.steps + [text]));
          }
        case Other =>
      }
      kinds := kinds + [kind];
    }
    assert kinds == ClassifyAll(lines);
    if current.Some? {
      var c := current.value;
      if c.steps == [] {
        c := c.(steps := [""]);
      }
      sections := sections + [c];
    }
    if sections == [] {
      sections := [DefaultSection];
    }
  }

  // ---------------------------------------------------------------------------
  // Properties of the parser
  // ---------------------------------------------------------------------------

  /** A state the loop can reach from the start: it has a current section
      whenever it has finished ones. */
  predicate Reachable(st: ParseState)
  {
    st.current.None? ==> st.sections == []
  }

  lemma {:induction false} RunKeepsReachable(st: ParseState, kinds: seq<LineKind>)
    requires Reachable(st)
    ensures Reachable(Run(st, kinds))
    decreases |kinds|
  {
    if kinds != [] {
      RunKeepsReachable(Feed(st, kinds[0]), kinds[1..]);
    }
  }

  /** The loop over two lists of lines is the loop over the second, started
      where the loop over the first ended. */
  lemma {:induction false} RunAppend(st: ParseState, a: seq<LineKind>, b: seq<LineKind>)
    ensures Run(st, a + b) == Run(Run(st, a), b)
    decreases |a|
  {
    if a == [] {
      assert a + b == b;
    } else {
      assert (a + b)[1..] == a[1..] + b;
      RunAppend(Feed(st, a[0]), a[1..], b);
    }
  }

  /** The loop over some lines and then one more. */
  lemma RunSnoc(st: ParseState, kinds: seq<LineKind>, kind: LineKind)
    ensures Run(st, kinds + [kind]) == Feed(Run(st, kinds), kind)
  {
    RunAppend(st, kinds, [kind]);
  }

  /** Filtering a concatenation filters each part. */
  lemma {:induction false} NonBlankStepsAppend(a: seq<string>, b: seq<string>)
    ensures NonBlankSteps(a + b) == NonBlankSteps(a) + NonBlankSteps(b)
  {
    if a == [] {
      assert a + b == b;
    } else {
      assert (a + b)[1..] == a[1..] + b;
      NonBlankStepsAppend(a[1..], b);
    }
  }

  /** Filtering keeps a list with no blank string whole. */
  lemma {:induction false} NonBlankStepsKeepsAll(xs: seq<string>)
    requires forall x :: x in xs ==> !IsBlank(x)
    ensures NonBlankSteps(xs) == xs
  {
    if xs != [] {
      NonBlankStepsKeepsAll(xs[1..]);
      assert xs == [xs[0]] + xs[1..];
    }
  }

  /** Filtering keeps nothing of a list of blank strings. */
  lemma {:induction false} NonBlankStepsOfBlank(xs: seq<string>)
    requires forall k :: 0 <= k < |xs| ==> AllWhitespace(xs[k])
    ensures NonBlankSteps(xs) == []
  {
    if xs != [] {
      NonBlankStepsOfBlank(xs[1..]);
    }
  }

  /** Text joined by a line break has the lines of both parts. */
  lemma NonBlankLinesAround(a: string, b: string)
    ensures NonBlankLines(a + "\n" + b) == NonBlankLines(a) + NonBlankLines(b)
  {
    SplitAround(a, b, '\n');
    NonBlankStepsAppend(Split(a, '\n'), Split(b, '\n'));
  }

  /** The test for blank text in front of the loop is a shortcut: the loop
      itself turns blank text into the default section. */
  lemma ParseIsRun(instructions: string)
    ensures Parse(instructions) == Finish(Run(Initial, ClassifyAll(NonBlankLines(instructions))))
  {
    if IsBlank(instructions) {
      SplitOfWhitespace(instructions, '\n');
      NonBlankStepsOfBlank(Split(instructions, '\n'));
    }
  }

  /** Parsing always yields at least one section, and the last one has a step. */
  lemma ParseShape(instructions: string)
    ensures |Parse(instructions)| >= 1
    ensures Parse(instructions)[|Parse(instructions)| - 1].steps != []
  {
    if !IsBlank(instructions) {
      RunKeepsReachable(Initial, ClassifyAll(NonBlankLines(instructions)));
    }
  }

  /** No line of `lines` is a section header. */
  predicate NoHeader(lines: seq<string>)
  {
    forall x :: x in lines ==> MatchHeader(Trim(x)).None?
  }

  lemma {:induction false} RunWithoutHeader(kinds: seq<LineKind>)
    requires forall k :: 0 <= k < |kinds| ==> !kinds[k].Header?
    ensures Run(Initial, kinds) == Initial
  {
    if kinds != [] {
      RunWithoutHeader(kinds[1..]);
    }
  }

  /** Text with no header line parses to the default section alone: steps
      outside a section are dropped. */
  lemma ParseWithoutHeader(instructions: string)
    requires NoHeader(Split(instructions, '\n'))
    ensures Parse(instructions) == [DefaultSection]
  {
    ParseIsRun(instructions);
    var lines := NonBlankLines(instructions);
    assert forall k :: 0 <= k < |lines| ==> lines[k] in lines;
    RunWithoutHeader(ClassifyAll(lines));
  }

  /** Lines in front of the first header are ignored. */
  lemma ParseIgnoresPreamble(preamble: string, rest: string)
    requires NoHeader(Split(preamble, '\n'))
    ensures Parse(preamble + "\n" + rest) == Parse(rest)
  {
    var text := preamble + "\n" + rest;
    var lp, lr := NonBlankLines(preamble), NonBlankLines(rest);
    assert Run(Initial, ClassifyAll(lp)) == Initial by {
      assert forall k :: 0 <= k < |lp| ==> lp[k] in lp;
      RunWithoutHeader(ClassifyAll(lp));
    }
    assert Run(Initial, ClassifyAll(NonBlankLines(text))) == Run(Initial, ClassifyAll(lr)) by {
      NonBlankLinesAround(preamble, rest);
      ClassifyAllAppend(lp, lr);
      RunAppend(Initial, ClassifyAll(lp), ClassifyAll(lr));
    }
    ParseIsRun(text);
    ParseIsRun(rest);
  }

  /** A line that is blank, or neither a header nor a step line, yields no
      kind or the kind `Other`. */
  lemma SkipLine(line: string)
    requires '\n' !in line
    requires IsBlank(line) || Classify(line).Other?
    ensures ClassifyAll(NonBlankLines(line)) == [] || ClassifyAll(NonBlankLines(line)) == [Other]
  {
    SplitWithoutSeparator(line, '\n');
    assert [line][1..] == [];
    if !IsBlank(line) {
      assert NonBlankLines(line) == [line];
    }
  }

  /** Lines classified as `Other` between two runs of lines change nothing. */
  lemma RunSkips(la: seq<string>, ll: seq<string>, lb: seq<string>)
    requires ClassifyAll(ll) == [] || ClassifyAll(ll) == [Other]
    ensures Run(Initial, ClassifyAll(la + (ll + lb))) == Run(Initial, ClassifyAll(la + lb))
  {
    ClassifyAllAppend(la, ll + lb);
    ClassifyAllAppend(ll, lb);
    ClassifyAllAppend(la, lb);
    var ka := ClassifyAll(la);
    RunAppend(Initial, ka, ClassifyAll(ll) + ClassifyAll(lb));
    RunAppend(Run(Initial, ka), ClassifyAll(ll), ClassifyAll(lb));
    RunAppend(Initial, ka, ClassifyAll(lb));
    assert Run(Run(Initial, ka), ClassifyAll(ll)) == Run(Initial, ka);
  }

  /** A line that is blank, or neither a header nor a step line, can be removed
      from anywhere in the text without changing what it parses to. */
  lemma ParseIgnoresLine(a: string, line: string, b: string)
    requires '\n' !in line
    requires IsBlank(line) || Classify(line).Other?
    ensures Parse(a + "\n" + line + "\n" + b) == Parse(a + "\n" + b)
  {
    var long := a + "\n" + line + "\n" + b;
    var short := a + "\n" + b;
    var la, ll, lb := NonBlankLines(a), NonBlankLines(line), NonBlankLines(b);
    assert NonBlankLines(long) == la + (ll + lb) by {
      ConcatRegroup(a + "\n", line, "\n", b);
      NonBlankLinesAround(a, line + "\n" + b);
      NonBlankLinesAround(line, b);
    }
    assert NonBlankLines(short) == la + lb by {
      NonBlankLinesAround(a, b);
    }
    SkipLine(line);
    ParseSkips(long, short, la, ll, lb);
  }

  /** Two texts whose non-blank lines differ by lines the parser skips parse
      alike. */
  lemma ParseSkips(long: string, short: string, la: seq<string>, ll: seq<string>, lb: seq<string>)
    requires NonBlankLines(long) == la + (ll + lb) && NonBlankLines(short) == la + lb
    requires ClassifyAll(ll) == [] || ClassifyAll(ll) == [Other]
    ensures Parse(long) == Parse(short)
  {
    ParseIsRun(long);
    ParseIsRun(short);
    RunSkips(la, ll, lb);
  }
}
