/** Segments and fields worked through the item parser. */
module ItemExamples {

  import opened Wrappers
  import opened Text
  import opened Decimal
  import opened ItemParser

  /** The text of the test of unmatched input. */
  lemma ExampleNotValid()
    ensures ParsedItems("This is not valid") == []
  {
    NoSeparators("This is not valid");
  }

  lemma LatteShape()
    ensures Padded(" Latte ") && Padded(" Vanilla ") && AllWord("Large") && AllPrice("3.5") && AllSpace(" ")
  {
  }

  lemma LatteGroups()
    ensures Strip(" Latte ") == "Latte" && Strip(" Vanilla ") == "Vanilla"
  {
    StripPadded(" ", "Latte", " ");
    StripPadded(" ", "Vanilla", " ");
    assert " " + "Latte" + " " == " Latte ";
    assert " " + "Vanilla" + " " == " Vanilla ";
    StripUnpadded("Latte");
    StripUnpadded("Vanilla");
  }

  lemma LattePrice()
    ensures ParseNumeral("3.5") == Some(3.5)
  {
    PointedNumeral("3", "5");
    assert "3" + "." + "5" == "3.5";
    assert DigitsValue("3") == 3 && DigitsValue("5") == 5;
    assert PointedValue("3", "5") == 3.5;
  }

  /** The segment `Large Latte - Vanilla - 3.5`, a size, a name, a variant and a price. */
  lemma ExampleWithVariant()
    ensures ParseSegment("Large" + " Latte " + "-" + " Vanilla " + "-" + " " + "3.5")
         == Parsed(Item("Latte", Some("Vanilla"), "Large", 3.5))
  {
    LatteShape();
    LatteGroups();
    LattePrice();
    SegmentWithVariant("Large", " Latte ", " Vanilla ", " ", "3.5");
  }

  /** The segment `Regular Coffee - - 2.5` of the sample rows matches neither pattern and
      gives no item. */
  lemma ExampleMissingVariant()
    ensures ParseSegment("Regular" + " Coffee " + "-" + " " + "-" + " " + "2.5") == NoMatch
  {
    assert Padded(" Coffee ") && AllWord("Regular") && AllPrice("2.5") && AllSpace(" ");
    MissingVariantSkipped("Regular", " Coffee ", " ", " ", "2.5");
  }
}
