/** The normaliser of src/etl.py worked through on two sales at one branch. */
module EtlExamples {

  import opened Wrappers
  import opened ItemParser
  import opened Values
  import opened Numbering
  import opened Tables
  import opened EtlNormalize
  import opened Raising

  const Coffee := Item("Coffee", None, "Regular", 2.5)
  const Latte := Item("Latte", Some("Vanilla"), "Large", 3.5)
  const Edinburgh := Str("Edinburgh")

  function Sale(stamp: string, total: real, items: seq<Item>): Dict {
    [("timestamp", Str(stamp)), ("location", Edinburgh), ("items", Items(items)),
     ("total_cost", Num(total)), ("payment_method", Str("CARD"))]
  }

  /** The fields a sale's row holds, read back by key. */
  lemma SaleFields(stamp: string, total: real, items: seq<Item>)
    ensures Location(Sale(stamp, total, items)) == Edinburgh
    ensures RowItems(Sale(stamp, total, items)) == items
    ensures RowError(Sale(stamp, total, items)).None?
  {
    var d := Sale(stamp, total, items);
    assert UniqueKeys(d);
    GetAt(d, 0);
    GetAt(d, 1);
    GetAt(d, 2);
    GetAt(d, 3);
    GetAt(d, 4);
  }

  const First := Sale("25/08/2021 09:00", 2.5, [Coffee])
  const Second := Sale("25/08/2021 09:02", 6.0, [Latte, Coffee])

  lemma SalesPass()
    ensures FirstError([First, Second]).None?
  {
    SaleFields("25/08/2021 09:00", 2.5, [Coffee]);
    SaleFields("25/08/2021 09:02", 6.0, [Latte, Coffee]);
    FirstRaisedNone(RowError, [First, Second]);
  }

  lemma SalesItems()
    ensures Flat([First, Second]) == [(1, Coffee), (2, Latte), (2, Coffee)]
    ensures Dedup(FlatItems(Flat([First, Second]))) == [Coffee, Latte]
  {
    SaleFields("25/08/2021 09:00", 2.5, [Coffee]);
    SaleFields("25/08/2021 09:02", 6.0, [Latte, Coffee]);
    assert [First, Second][..1] == [First] && [First][..0] == [];
    assert Flat([First]) == [(1, Coffee)];
    var flat := [(1, Coffee), (2, Latte), (2, Coffee)];
    assert FlatItems(flat) == [Coffee, Latte, Coffee];
    assert [Coffee, Latte, Coffee][..2] == [Coffee, Latte] && [Coffee, Latte][..1] == [Coffee];
    assert [Coffee][..0] == [];
    assert Dedup([Coffee]) == [Coffee];
    assert Dedup([Coffee, Latte]) == [Coffee, Latte];
    assert Dedup([Coffee, Latte, Coffee]) == [Coffee, Latte];
  }

  lemma SalesBranches()
    ensures Dedup(Locations([First, Second])) == [Edinburgh]
  {
    SaleFields("25/08/2021 09:00", 2.5, [Coffee]);
    SaleFields("25/08/2021 09:02", 6.0, [Latte, Coffee]);
    assert Locations([First, Second]) == [Edinburgh, Edinburgh];
    assert [Edinburgh, Edinburgh][..1] == [Edinburgh] && [Edinburgh][..0] == [];
    assert Dedup([Edinburgh]) == [Edinburgh];
  }

  /** Both sales go to branch 1; the coffee is product 1 in both sales and the latte product 2;
      the second sale's two items both carry payment id 2. */
  lemma SalesTables()
    ensures Reference([First, Second]) == Tables(
      [Branch(1, Edinburgh, Edinburgh)],
      [TransactionOf(First, 1, 1), TransactionOf(Second, 2, 1)],
      [Product(1, Coffee), Product(2, Latte)],
      [ProductTransaction(1, 1, 1, 1), ProductTransaction(2, 2, 2, 1), ProductTransaction(3, 2, 1, 1)])
  {
    var rows := [First, Second];
    SalesBranches();
    SalesItems();
    assert BranchId(rows, 0) == 1 && BranchId(rows, 1) == 1;
    var flat := Flat(rows);
    assert ProductId(flat, 0) == 1 && ProductId(flat, 1) == 2 && ProductId(flat, 2) == 1;
  }
}
