/** The JavaScript string built-ins the recipe editor relies on: `trim`, the
    character classes of its regular expressions, `split` with a one-character
    separator and `join`.  Strings are sequences of characters; the UTF-16
    code-unit view of JavaScript is not modelled. */
module JsStrings {

  /** ECMAScript LineTerminator: LF, CR, LINE SEPARATOR, PARAGRAPH SEPARATOR.
      The regular-expression wildcard `.` matches every character but these. */
  predicate IsLineTerminator(c: char)
  {
    c == '\n' || c == '\r' || c == '\U{2028}' || c == '\U{2029}'
  }

  /** ECMAScript WhiteSpace and LineTerminator: what `trim` removes and what
      the class `\s` matches. */
  predicate IsWhitespace(c: char)
  {
    || IsLineTerminator(c)
    || c == '\t' || c == '\U{000B}' || c == '\U{000C}' || c == ' '
    || c == '\U{00A0}' || c == '\U{FEFF}' || c == '\U{1680}'
    || ('\U{2000}' <= c <= '\U{200A}')
    || c == '\U{202F}' || c == '\U{205F}' || c == '\U{3000}'
  }

  /** The class `\d`: ASCII digits only. */
  predicate IsDigit(c: char)
  {
    '0' <= c <= '9'
  }

  predicate AllWhitespace(s: string)
  {
    forall i :: 0 <= i < |s| ==> IsWhitespace(s[i])
  }

  predicate AllDigits(s: string)
  {
    forall i :: 0 <= i < |s| ==> IsDigit(s[i])
  }

  predicate NoLineTerminator(s: string)
  {
    forall i :: 0 <= i < |s| ==> !IsLineTerminator(s[i])
  }

  /** `s` with its leading whitespace removed. */
  function TrimStart(s: string): string
  {
    if s != [] && IsWhitespace(s[0]) then TrimStart(s[1..]) else s
  }

  /** `s` with its trailing whitespace removed. */
  function TrimEnd(s: string): string
  {
    if s != [] && IsWhitespace(s[|s| - 1]) then TrimEnd(s[..|s| - 1]) else s
  }

  /** `String.prototype.trim`. */
  function Trim(s: string): string
  {
    TrimEnd(TrimStart(s))
  }

  /** The source's `!s.trim()` and `s.trim() === ""`, stated as "nothing but
      whitespace" (`TrimEmptyIffBlank` shows the two agree). */
  predicate IsBlank(s: string)
  {
    AllWhitespace(s)
  }

  /** `TrimStart` removes a run of whitespace from the front, and no more. */
  lemma {:induction false} TrimStartSpec(s: string)
    ensures |TrimStart(s)| <= |s| && TrimStart(s) == s[|s| - |TrimStart(s)|..]
    ensures AllWhitespace(s[..|s| - |TrimStart(s)|])
    ensures TrimStart(s) != [] ==> !IsWhitespace(TrimStart(s)[0])
  {
    if s != [] && IsWhitespace(s[0]) {
      TrimStartSpec(s[1..]);
      var r := TrimStart(s[1..]);
      assert s[..|s| - |r|] == [s[0]] + s[1..][..|s| - 1 - |r|];
    }
  }

  /** `TrimEnd` removes a run of whitespace from the back, and no more. */
  lemma {:induction false} TrimEndSpec(s: string)
    ensures |TrimEnd(s)| <= |s| && TrimEnd(s) == s[..|TrimEnd(s)|]
    ensures AllWhitespace(s[|TrimEnd(s)|..])
    ensures TrimEnd(s) != [] ==> !IsWhitespace(TrimEnd(s)[|TrimEnd(s)| - 1])
  {
    if s != [] && IsWhitespace(s[|s| - 1]) {
      TrimEndSpec(s[..|s| - 1]);
      var r := TrimEnd(s[..|s| - 1]);
      assert s[|r|..] == s[..|s| - 1][|r|..] + [s[|s| - 1]];
    }
  }

  /** A trimmed string neither starts nor ends with whitespace, and is no longer
      than the original. */
  lemma TrimSpec(s: string)
    ensures |Trim(s)| <= |s|
    ensures Trim(s) != [] ==> !IsWhitespace(Trim(s)[0]) && !IsWhitespace(Trim(s)[|Trim(s)| - 1])
  {
    TrimStartSpec(s);
    TrimEndSpec(TrimStart(s));
  }

  /** Trailing-whitespace removal empties exactly the all-whitespace strings. */
  lemma {:induction false} TrimEndEmpty(s: string)
    ensures TrimEnd(s) == [] <==> AllWhitespace(s)
  {
    if s != [] && IsWhitespace(s[|s| - 1]) {
      TrimEndEmpty(s[..|s| - 1]);
      assert s == s[..|s| - 1] + [s[|s| - 1]];
    }
  }

  /** Leading-whitespace removal keeps a string all-whitespace or not. */
  lemma {:induction false} TrimStartAllWhitespace(s: string)
    ensures AllWhitespace(TrimStart(s)) <==> AllWhitespace(s)
  {
    if s != [] && IsWhitespace(s[0]) {
      TrimStartAllWhitespace(s[1..]);
      if AllWhitespace(s[1..]) {
        forall i | 0 <= i < |s| ensures IsWhitespace(s[i]) {
          if i > 0 {
            assert s[i] == s[1..][i - 1];
          }
        }
      }
    }
  }

  /** `trim` empties exactly the blank strings. */
  lemma TrimEmptyIffBlank(s: string)
    ensures Trim(s) == [] <==> IsBlank(s)
  {
    TrimStartAllWhitespace(s);
    TrimEndEmpty(TrimStart(s));
  }

  /** Trimming leaves alone a string that neither starts nor ends with whitespace. */
  lemma TrimUnchanged(s: string)
    requires s != [] ==> !IsWhitespace(s[0]) && !IsWhitespace(s[|s| - 1])
    ensures Trim(s) == s
  {
  }

  /** Leading whitespace in front of a text that starts with something else is
      exactly what `TrimStart` removes. */
  lemma {:induction false} TrimStartSkips(ws: string, text: string)
    requires AllWhitespace(ws)
    requires text != [] ==> !IsWhitespace(text[0])
    ensures TrimStart(ws + text) == text
  {
    if ws == [] {
      assert ws + text == text;
    } else {
      assert (ws + text)[1..] == ws[1..] + text;
      TrimStartSkips(ws[1..], text);
    }
  }

  /** `s.split(sep)` for a one-character separator: the pieces between
      separators, empty pieces included; never an empty list. */
  function Split(s: string, sep: char): (r: seq<string>)
    ensures |r| >= 1
    ensures forall i :: 0 <= i < |r| ==> sep !in r[i]
  {
    if s == [] then [""]
    else if s[0] == sep then [""] + Split(s[1..], sep)
    else
      var rest := Split(s[1..], sep);
      [[s[0]] + rest[0]] + rest[1..]
  }

  /** `parts.join(sep)`. */
  function Join(sep: string, parts: seq<string>): string
  {
    if |parts| == 0 then ""
    else if |parts| == 1 then parts[0]
    else parts[0] + sep + Join(sep, parts[1..])
  }

  /** Joining the pieces back with the separator restores the string. */
  lemma {:induction false} JoinSplit(s: string, sep: char)
    ensures Join([sep], Split(s, sep)) == s
  {
    if s == [] {
    } else if s[0] == sep {
      JoinSplit(s[1..], sep);
      assert s == [sep] + s[1..];
    } else {
      JoinSplit(s[1..], sep);
      var rest := Split(s[1..], sep);
      if |rest| == 1 {
      } else {
        assert rest == [rest[0]] + rest[1..];
        assert Join([sep], rest) == rest[0] + [sep] + Join([sep], rest[1..]);
        assert [[s[0]] + rest[0]] + rest[1..] == [[s[0]] + rest[0]] + rest[1..][..];
      }
    }
  }

  /** A separator splits the string into the pieces on either side of it. */
  lemma {:induction false} SplitAround(a: string, b: string, sep: char)
    ensures Split(a + [sep] + b, sep) == Split(a, sep) + Split(b, sep)
  {
    var s := a + [sep] + b;
    if a == [] {
      assert s == [sep] + b;
      assert s[1..] == b;
    } else {
      assert s[0] == a[0] && s[1..] == a[1..] + [sep] + b;
      SplitAround(a[1..], b, sep);
      var ra := Split(a[1..], sep);
      if a[0] != sep {
        ConcatFront(ra, Split(b, sep));
        assert Split(s, sep) == [[a[0]] + ra[0]] + (ra[1..] + Split(b, sep));
      } else {
        assert Split(s, sep) == [""] + (ra + Split(b, sep));
      }
    }
  }

  /** The front of a concatenation whose first part is not empty. */
  lemma ConcatFront<T>(x: seq<T>, y: seq<T>)
    requires |x| >= 1
    ensures (x + y)[0] == x[0] && (x + y)[1..] == x[1..] + y
  {
  }

  /** Regrouping a concatenation of four parts. */
  lemma ConcatRegroup<T>(x: seq<T>, y: seq<T>, z: seq<T>, w: seq<T>)
    ensures x + y + z + w == x + (y + z + w)
  {
  }

  /** A string without the separator is a single piece. */
  lemma {:induction false} SplitWithoutSeparator(s: string, sep: char)
    requires sep !in s
    ensures Split(s, sep) == [s]
  {
    if s != [] {
      SplitWithoutSeparator(s[1..], sep);
      assert s == [s[0]] + s[1..];
    }
  }

  /** Splitting undoes a join of separator-free pieces. */
  lemma {:induction false} SplitJoin(parts: seq<string>, sep: char)
    requires |parts| >= 1
    requires forall i :: 0 <= i < |parts| ==> sep !in parts[i]
    ensures Split(Join([sep], parts), sep) == parts
  {
    if |parts| == 1 {
      SplitWithoutSeparator(parts[0], sep);
    } else {
      SplitWithoutSeparator(parts[0], sep);
      SplitJoin(parts[1..], sep);
      SplitAround(parts[0], Join([sep], parts[1..]), sep);
      assert Join([sep], parts) == parts[0] + [sep] + Join([sep], parts[1..]);
      assert parts == [parts[0]] + parts[1..];
    }
  }

  /** Every piece of an all-whitespace string is all whitespace. */
  lemma {:induction false} SplitOfWhitespace(s: string, sep: char)
    requires AllWhitespace(s)
    ensures forall i :: 0 <= i < |Split(s, sep)| ==> AllWhitespace(Split(s, sep)[i])
  {
    if s != [] {
      SplitOfWhitespace(s[1..], sep);
      if s[0] != sep {
        var rest := Split(s[1..], sep);
        var r := Split(s, sep);
        assert r[0] == [s[0]] + rest[0];
        forall i | 0 <= i < |r| ensures AllWhitespace(r[i]) {
          if i > 0 {
            assert r[i] == rest[i];
          }
        }
      }
    }
  }

  /** The number of occurrences of `c` in `s`. */
  function Count(s: string, c: char): nat
  {
    if s == [] then 0 else (if s[0] == c then 1 else 0) + Count(s[1..], c)
  }

  /** `s.split(sep)` has one piece more than `s` has separators. */
  lemma {:induction false} SplitLength(s: string, sep: char)
    ensures |Split(s, sep)| == Count(s, sep) + 1
  {
    if s != [] {
      SplitLength(s[1..], sep);
    }
  }

  /** The ends of a join of non-empty pieces are the ends of its first and
      last pieces. */
  lemma {:induction false} JoinEnds(sep: string, parts: seq<string>)
    requires |parts| >= 1 && forall i :: 0 <= i < |parts| ==> parts[i] != []
    ensures Join(sep, parts) != []
    ensures Join(sep, parts)[0] == parts[0][0]
    ensures Join(sep, parts)[|Join(sep, parts)| - 1] == parts[|parts| - 1][|parts[|parts| - 1]| - 1]
  {
    if |parts| > 1 {
      JoinEnds(sep, parts[1..]);
    }
  }
}
