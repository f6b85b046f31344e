/** The rows of the normaliser tests worked through src/normalise_data.py. */
module NormaliseExamples {

  import opened Wrappers
  import opened ItemParser
  import opened Values
  import opened Timestamps
  import opened Numbering
  import opened Tables
  import opened Raising
  import opened EtlNormalize
  import opened NormaliseData

  const Sale: Dict := [("timestamp", Str("01/01/2024 10:00")), ("total_cost", Num(100.0)), ("payment_method", Str("card"))]

  lemma SaleFields()
    ensures Get(Sale, "timestamp") == Some(Str("01/01/2024 10:00"))
    ensures Get(Sale, "total_cost") == Some(Num(100.0))
    ensures Get(Sale, "payment_method") == Some(Str("card"))
  {
    assert UniqueKeys(Sale);
    GetAt(Sale, 0);
    GetAt(Sale, 1);
    GetAt(Sale, 2);
  }

  const NewYear := DateTime(2024, 1, 1, 10, 0)

  lemma NewYearFormat()
    ensures FormatSource(NewYear) == "01/01/2024 10:00"
  {
    YearTexts();
    PairTexts();
    assert Digits(1, 2) == "01";
    assert FormatSource(NewYear) == "01" + "/" + "01" + "/" + "2024" + " " + "10" + ":" + "00";
  }

  lemma NewYearText()
    ensures ParseSource("01/01/2024 10:00") == Some(NewYear)
  {
    NewYearFormat();
    assert Valid(NewYear);
    SourceRoundTrip(NewYear);
  }

  lemma SaleTransaction()
    ensures TransactionAt(Sale, 1) == Success(Transaction(1, 1, Stamp(NewYear), Num(100.0), Str("card")))
  {
    SaleFields();
    NewYearText();
  }

  /** The row of the transactions test: payment id 1 at branch 1, on the first of January
      2024 at 10:00. */
  lemma ExampleTransactions()
    ensures Transactions([Sale]) == Success([Transaction(1, 1, Stamp(NewYear), Num(100.0), Str("card"))])
  {
    MapAllSingle(TransactionAt, Sale);
    SaleTransaction();
  }

  /** The branch table is the same whatever the rows. */
  lemma ExampleBranches()
    ensures NormalizeBranches([[("branch_name", Str("sample"))]]) == [Branch(1, Str("Edinburgh"), Str("Edinburgh"))]
  {
  }

  const Shirt := Item("Shirt", Some("Red"), "L", 25.0)
  const Order: Dict := [("items", Items([Shirt]))]

  lemma OrderItems()
    ensures Flat([Order]) == [(1, Shirt)] && FirstRaised(ItemsError, [Order]).None?
  {
    assert Get(Order, "items") == Some(Items([Shirt]));
    assert [Order][..0] == [];
    assert Flat([Order]) == Flat([]) + Tagged(1, [Shirt]);
  }

  /** One row with one item: one product with id 1 ... */
  lemma ExampleProducts()
    ensures Products([Order]) == Success([Product(1, Shirt)])
  {
    OrderItems();
    assert FlatItems([(1, Shirt)]) == [Shirt];
    assert Dedup([Shirt]) == [Shirt] by { assert [Shirt][..0] == []; }
    assert ProductTable([Shirt]) == [Product(1, Shirt)];
  }

  /** ... and one product transaction pointing at payment 1 and product 1. */
  lemma ExampleProductTransactions()
    ensures AllKnown(Flat([Order]), ProductMap([Product(1, Shirt)]))
    ensures LookedUp(Flat([Order]), ProductMap([Product(1, Shirt)])) == [ProductTransaction(1, 1, 1, 1)]
  {
    OrderItems();
    assert [Product(1, Shirt)][..0] == [];
    assert ProductMap([Product(1, Shirt)]) == map[Shirt := 1];
  }
}
