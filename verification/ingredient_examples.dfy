/** Worked examples of loading free-text ingredients from old recipes. */
module IngredientExamples {
  import opened JsStrings
  import opened JsNumbers
  import opened Ingredients
  import opened QuantityCodec

  lemma OneAndTwo()
    ensures NatToString(1) == "1" && NatToString(2) == "2"
  {
  }

  lemma FlourText()
    ensures Join(" ", ["1", "1/4", "cup", "flour"]) == "1 1/4 cup flour"
  {
  }

  lemma LargeEggsText()
    ensures Join(" ", ["2", "large", "eggs"]) == "2 large eggs"
  {
  }

  /** "1 1/4 cup flour" is one and a quarter cups of flour. */
  lemma QuarterCupOfFlour()
    ensures ParseLegacy("1 1/4 cup flour") == Ingredient(1, "1/4", Finite(1.25), "cup", "flour")
  {
    var parts := ["1", "1/4", "cup", "flour"];
    FlourParts(parts);
    LegacyWithFraction(parts, 1, 0.25);
    FlourText();
  }

  /** The words of "1 1/4 cup flour" meet the parser's expectations. */
  lemma FlourParts(parts: seq<string>)
    requires parts == ["1", "1/4", "cup", "flour"]
    ensures |parts| >= 3 && parts[0] == NatToString(1)
    ensures IsWord(parts[1]) && '/' in parts[1] && FractionToDecimal(parts[1]) == Finite(0.25)
    ensures forall i :: 2 <= i < |parts| ==> IsWord(parts[i])
    ensures Join(" ", parts[3..]) == "flour"
  {
    OneAndTwo();
    Quarter();
    assert IsWord(parts[2]) && IsWord(parts[3]);
    assert parts[3..] == ["flour"];
  }

  /** "1/4" is a word that reads as a quarter. */
  lemma Quarter()
    ensures IsWord("1/4") && '/' in "1/4" && FractionToDecimal("1/4") == Finite(0.25)
  {
    var q := ['1'] + "/" + ['4'];
    SingleDigitFraction('1', '4');
    assert q == "1/4";
    assert q[1] == '/';
  }

  /** "2 large eggs" takes "large" for the unit: the parser has no list of
      units. */
  lemma LargeEggs()
    ensures ParseLegacy("2 large eggs") == Ingredient(2, "", Finite(2.0), "large", "eggs")
  {
    var parts := ["2", "large", "eggs"];
    assert parts[0] == NatToString(2) by {
      OneAndTwo();
    }
    assert IsWord(parts[1]) && IsWord(parts[2]);
    LegacyWhole(parts, 2);
    assert Join(" ", parts[2..]) == "eggs" by {
      assert parts[2..] == ["eggs"];
    }
    LargeEggsText();
  }

  /** "2 eggs" has too few parts: the whole text becomes the name. */
  lemma TwoEggs()
    ensures ParseLegacy("2 eggs") == Ingredient(0, "", Finite(0.0), "unitless", "2 eggs")
  {
    TrimUnchanged("2 eggs");
    assert Count("2 eggs", ' ') == 1;
    LegacyShort("2 eggs");
  }

  /** A stored 1.5 cups loads as one and a half cups. */
  lemma LoadHalf()
    ensures LoadStored(1.5, "cup", "flour") == Ingredient(1, "1/2", Finite(1.5), "cup", "flour")
  {
    LabelFacts(4);
    DecomposeSum(1, 0.5, "1/2");
  }

  /** Everything from 0.3 to 0.4 is nearest to a third. */
  lemma NearestToThird(x: real)
    requires 0.3 <= x <= 0.4
    ensures NearestFraction(x) == "1/3"
  {
    NearestFractionSpec(x);
    var k :| FirstNearest(k, x) && NearestFraction(x) == Fractions[k];
    assert Abs(FractionValues[k] - x) <= Abs(FractionValues[3] - x);
  }
}
