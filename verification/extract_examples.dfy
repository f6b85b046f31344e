/** The rows of the extraction tests worked through `validate_data` and `prepare_data`. */
module ExtractExamples {

  import opened Wrappers
  import opened Text
  import opened Decimal
  import opened ItemParser
  import opened ItemExamples
  import opened Values
  import opened ExtractData
  import opened Raising

  function Raw(timestamp: string, items: string): Dict {
    [("timestamp", Str(timestamp)), ("location", Str("Edinburgh")), ("items", Str(items)),
     ("total_cost", Str("10.00")), ("payment_method", Str("Cash"))]
  }

  /** Each field of a raw row is found under its key. */
  lemma RawFields(timestamp: string, items: string)
    ensures Get(Raw(timestamp, items), "timestamp") == Some(Str(timestamp))
    ensures Get(Raw(timestamp, items), "location") == Some(Str("Edinburgh"))
    ensures Get(Raw(timestamp, items), "items") == Some(Str(items))
    ensures Get(Raw(timestamp, items), "total_cost") == Some(Str("10.00"))
    ensures Get(Raw(timestamp, items), "payment_method") == Some(Str("Cash"))
  {
    var d := Raw(timestamp, items);
    assert UniqueKeys(d);
    GetAt(d, 0);
    GetAt(d, 1);
    GetAt(d, 2);
    GetAt(d, 3);
    GetAt(d, 4);
  }

  lemma RawTexts(timestamp: string, items: string)
    ensures TextField(Raw(timestamp, items), "timestamp", "") == Some(Strip(timestamp))
    ensures TextField(Raw(timestamp, items), "location", "") == Some(Strip("Edinburgh"))
    ensures TextField(Raw(timestamp, items), "items", "") == Some(Strip(items))
    ensures TextField(Raw(timestamp, items), "total_cost", "0") == Some(Strip("10.00"))
    ensures TextField(Raw(timestamp, items), "payment_method", "") == Some(Strip("Cash"))
  {
    RawFields(timestamp, items);
  }

  lemma PlainTexts()
    ensures Strip("2024-04-21 09:00:00") == "2024-04-21 09:00:00"
    ensures Strip("Edinburgh") == "Edinburgh" && Strip("10.00") == "10.00" && Strip("Cash") == "Cash"
    ensures Strip("Regular Coffee - - 2.5") == "Regular Coffee - - 2.5"
  {
    StripUnpadded("2024-04-21 09:00:00");
    StripUnpadded("Edinburgh");
    StripUnpadded("10.00");
    StripUnpadded("Cash");
    StripUnpadded("Regular Coffee - - 2.5");
  }

  lemma GoodRow()
    ensures RowCheck(Raw("2024-04-21 09:00:00", "Regular Coffee - - 2.5")) == Success(true)
  {
    RawFields("2024-04-21 09:00:00", "Regular Coffee - - 2.5");
    PlainTexts();
    RowValidIff(Raw("2024-04-21 09:00:00", "Regular Coffee - - 2.5"));
  }

  lemma BadRow()
    ensures RowCheck(Raw("", "Regular Coffee - - 2.5")) == Success(false)
  {
    RawFields("", "Regular Coffee - - 2.5");
    assert Strip("") == "";
  }

  /** The two rows of the validation test: the second has a blank timestamp, so one row is
      valid and one invalid. */
  lemma ExampleValidate()
    ensures var data := [Raw("2024-04-21 09:00:00", "Regular Coffee - - 2.5"), Raw("", "Regular Coffee - - 2.5")];
      && CheckError(data).None?
      && Filter(data, true) == [data[0]] && Filter(data, false) == [data[1]]
  {
    var good, bad := Raw("2024-04-21 09:00:00", "Regular Coffee - - 2.5"), Raw("", "Regular Coffee - - 2.5");
    GoodRow();
    BadRow();
    var data := [good, bad];
    FirstRaisedNone(CheckFailure, data);
    assert data[..1] == [good] && [good][..0] == [];
  }

  const LatteText := "Large Latte - Vanilla - 3.5"

  lemma LatteSegment()
    ensures ParseSegment(LatteText) == Parsed(Item("Latte", Some("Vanilla"), "Large", 3.5))
  {
    assert "Large" + " Latte " + "-" + " Vanilla " + "-" + " " + "3.5" == LatteText;
    ExampleWithVariant();
  }

  lemma LatteColumn()
    ensures Strip(LatteText) == LatteText
    ensures ParsedItems(LatteText) == [Item("Latte", Some("Vanilla"), "Large", 3.5)]
  {
    StripUnpadded(LatteText);
    assert SplitOn(LatteText, ',') == [LatteText] by {
      SplitOnNoSeparator(LatteText, ',');
    }
    LatteSegment();
    assert [LatteText][1..] == [];
  }

  lemma TenPounds()
    ensures PyFloat("10.00") == Some(10.0)
  {
    PlainTexts();
    CellNumeral();
    assert "10.00"[0] == '1';
  }

  /** A raw row cleaned: the total becomes the number 10.0 and the items text becomes the list
      of its items. */
  lemma ExamplePrepare()
    ensures PrepareRow(Raw("2024-04-21 09:00:00", LatteText))
         == Some(Cleaned("2024-04-21 09:00:00", "Edinburgh", [Item("Latte", Some("Vanilla"), "Large", 3.5)], 10.0, "Cash"))
  {
    RawTexts("2024-04-21 09:00:00", LatteText);
    PlainTexts();
    LatteColumn();
    TenPounds();
  }
}
