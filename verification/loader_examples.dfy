/** The loaders' statements and call sequences worked through on small tables. */
module LoaderExamples {

  import opened Wrappers
  import opened Text
  import opened Values
  import opened Connection
  import opened SqlUtils
  import opened LoadData

  function TestRow(): Dict {
    [("col1", Str("value1")), ("col2", Str("value2"))]
  }

  /** The statement the loader test expects, pieced together around its two lists. */
  function NamedTestQuery(): string {
    "INSERT INTO test_table (" + "col1, col2" + ") VALUES (" + "%(col1)s, %(col2)s" + ")"
  }

  lemma JoinTwo(a: string, b: string, sep: string)
    ensures Join([a, b], sep) == a + sep + b
  {
    assert [a, b][1..] == [b];
  }

  lemma JoinFour(a: string, b: string, c: string, d: string, sep: string)
    ensures Join([a, b, c, d], sep) == a + sep + b + sep + c + sep + d
  {
    assert [a, b, c, d][1..] == [b, c, d];
    assert [b, c, d][1..] == [c, d];
    JoinTwo(c, d, sep);
  }

  /** The statement the row-by-row loader writes for the test row. */
  lemma ExampleNamedQuery()
    ensures NamedInsertQuery("test_table", TestRow()) == NamedTestQuery()
  {
    var keys := Keys(TestRow());
    assert keys == ["col1", "col2"];
    JoinTwo("col1", "col2", ", ");
    var named := NamedPlaceholders(keys);
    assert named[0] == "%(" + "col1" + ")s" == "%(col1)s";
    assert named[1] == "%(" + "col2" + ")s" == "%(col2)s";
    assert named == ["%(col1)s", "%(col2)s"];
    JoinTwo("%(col1)s", "%(col2)s", ", ");
    assert "INSERT INTO " + "test_table" + " (" == "INSERT INTO test_table (";
  }

  /** One row, every call accepted: its execute, then the commit. */
  lemma OneRowAccepted(table: string, row: Dict)
    ensures InsertTrace(table, [row], {}, 0) == ([Execute(NamedInsertQuery(table, row), row), Commit], None)
  {
    var executes := Executes(table, [row]);
    assert executes == [Execute(NamedInsertQuery(table, row), row)];
    assert executes + [Commit] == [Execute(NamedInsertQuery(table, row), row), Commit];
  }

  /** One row whose execute is refused: the execute, then the rollback, and nothing raised. */
  lemma OneRowRefused(table: string, row: Dict)
    ensures InsertTrace(table, [row], {0}, 0) == ([Execute(NamedInsertQuery(table, row), row), Rollback], None)
  {
    var executes := Executes(table, [row]);
    assert executes == [Execute(NamedInsertQuery(table, row), row)];
    assert executes[..1] + [Rollback] == [Execute(NamedInsertQuery(table, row), row), Rollback];
  }

  /** The loader test's two cases: accepted, one execute with the row as its parameters and
      one commit; refused, the same execute and one rollback, and nothing raised. */
  lemma ExampleInsert()
    ensures InsertTrace("test_table", [TestRow()], {}, 0) ==
      ([Execute(NamedTestQuery(), TestRow()), Commit], None)
    ensures InsertTrace("test_table", [TestRow()], {0}, 0) ==
      ([Execute(NamedTestQuery(), TestRow()), Rollback], None)
  {
    ExampleNamedQuery();
    OneRowAccepted("test_table", TestRow());
    OneRowRefused("test_table", TestRow());
  }

  function ProductsRow(): Dict {
    [("product_id", Int(1)), ("name", Str("Coffee")), ("variant", Null), ("size", Str("Regular")),
     ("price", Num(2.5))]
  }

  function KeptRow(): Dict {
    [("name", Str("Coffee")), ("variant", Null), ("size", Str("Regular")), ("price", Num(2.5))]
  }

  /** The batch statement for the products table, pieced together around its two lists. */
  function ProductsQuery(): string {
    "INSERT INTO products (" + "name, variant, size, price" + ") VALUES (" + "%s, %s, %s, %s" + ")"
  }

  /** The products table loses its identity column before the batch statement is written. */
  lemma ExampleFiltered()
    ensures Filtered([ProductsRow()], ExcludedColumns("products")) == [KeptRow()]
  {
    assert ProductsRow()[1..] == KeptRow();
    NothingExcluded(KeptRow(), ["product_id"]);
    assert FilterRow(ProductsRow(), ["product_id"]) == KeptRow();
  }

  lemma KeptKeys()
    ensures Keys(KeptRow()) == ["name", "variant", "size", "price"]
  {
  }

  lemma KeptColumns()
    ensures Join(Keys(KeptRow()), ", ") == "name, variant, size, price"
  {
    KeptKeys();
    JoinFour("name", "variant", "size", "price", ", ");
    assert "name" + ", " + "variant" == "name, variant";
    assert "size" + ", " + "price" == "size, price";
  }

  lemma FourMarks()
    ensures Join(Repeat("%s", 4), ", ") == "%s, %s, %s, %s"
  {
    assert Repeat("%s", 4) == ["%s", "%s", "%s", "%s"];
    JoinFour("%s", "%s", "%s", "%s", ", ");
  }

  lemma ExampleBatchQuery()
    ensures BatchQuery("products", KeptRow()) == ProductsQuery()
  {
    KeptColumns();
    FourMarks();
    assert "INSERT INTO " + "products" + " (" == "INSERT INTO products (";
  }

  /** One row, every call accepted: the batch, then the commit. Commit refused: a rollback
      follows and the commit's own exception is raised again. */
  lemma OneRowSaved(table: string, row: Dict)
    ensures var kept := FilterRow(row, ExcludedColumns(table));
            var batch := ExecuteMany(BatchQuery(table, kept), [Values.Values(kept)]);
            && SaveTrace(table, [row], {}, 0) == ([batch, Commit], None)
            && SaveTrace(table, [row], {1}, 0) == ([batch, Commit, Rollback], Some(DbError(1)))
  {
    var kept := FilterRow(row, ExcludedColumns(table));
    assert Filtered([row], ExcludedColumns(table)) == [kept];
    assert Rows([kept]) == [Values.Values(kept)];
    var batch := ExecuteMany(BatchQuery(table, kept), [Values.Values(kept)]);
    assert [batch, Commit] + [Rollback] == [batch, Commit, Rollback];
  }

  lemma ExampleSave()
    ensures SaveTrace("products", [ProductsRow()], {}, 0) ==
      ([ExecuteMany(ProductsQuery(), [[Str("Coffee"), Null, Str("Regular"), Num(2.5)]]), Commit], None)
    ensures SaveTrace("products", [ProductsRow()], {1}, 0) ==
      ([ExecuteMany(ProductsQuery(), [[Str("Coffee"), Null, Str("Regular"), Num(2.5)]]), Commit, Rollback],
       Some(DbError(1)))
  {
    ExampleFiltered();
    assert FilterRow(ProductsRow(), ExcludedColumns("products")) == KeptRow();
    ExampleBatchQuery();
    KeptValues();
    OneRowSaved("products", ProductsRow());
  }

  lemma KeptValues()
    ensures Values.Values(KeptRow()) == [Str("Coffee"), Null, Str("Regular"), Num(2.5)]
  {
  }
}
