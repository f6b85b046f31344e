/**
 * `normalize` of the pipeline (src/etl.py): one forward pass over the transformed rows that
 * builds the four tables. Branches are keyed by location and products by the item's (name,
 * variant, size, price); each gets the next 1-based number the first time its key is met.
 *
 * The method `Normalize` keeps the dictionaries and lists of the source; `Reference` says
 * what the tables are without a loop (first-seen deduplication and positions), and the
 * lemmas below state the relational properties of those tables.
 */
module EtlNormalize {

  import opened Wrappers
  import opened ItemParser
  import opened Values
  import opened Numbering
  import opened Tables
  import opened Raising

  /** `row.get("location", "Unknown")` */
  function Location(d: Dict): Value {
    GetOr(d, "location", Str("Unknown"))
  }

  /** The items the inner loop iterates over when the row does not raise. */
  function RowItems(d: Dict): seq<Item> {
    match Get(d, "items")
    case Some(Items(l)) => l
    case _ => []
  }

  /** The exception the loop body raises on a row, in the order the body meets them: a
      location that is a list cannot be a dictionary key; the transaction record reads the
      timestamp, the total cost and the payment method; the inner loop reads the items, and
      iterating a non-empty string (or a value that is not iterable) ends in a TypeError. */
  function RowError(d: Dict): Option<Error> {
    if Location(d).Items? then Some(TypeError)
    else if Get(d, "timestamp").None? then Some(KeyError("timestamp"))
    else if Get(d, "total_cost").None? then Some(KeyError("total_cost"))
    else if Get(d, "payment_method").None? then Some(KeyError("payment_method"))
    else
      match Get(d, "items")
      case None => Some(KeyError("items"))
      case Some(Items(_)) => None
      case Some(Str(s)) => if s == "" then None else Some(TypeError)
      case Some(_) => Some(TypeError)
  }

  /** The exception of the first row that raises; the pass stops there. */
  function FirstError(rows: seq<Dict>): Option<Error> {
    FirstRaised(RowError, rows)
  }

  function Locations(rows: seq<Dict>): seq<Value> {
    seq(|rows|, i requires 0 <= i < |rows| => Location(rows[i]))
  }

  /** The items of one row, each with the payment id of its row. */
  function Tagged(paymentId: nat, items: seq<Item>): seq<(nat, Item)> {
    seq(|items|, j requires 0 <= j < |items| => (paymentId, items[j]))
  }

  /** Every item bought, with the payment id (1-based row number) of its row, in row order. */
  function Flat(rows: seq<Dict>): seq<(nat, Item)> {
    if |rows| == 0 then []
    else Flat(rows[..|rows| - 1]) + Tagged(|rows|, RowItems(rows[|rows| - 1]))
  }

  function FlatItems(flat: seq<(nat, Item)>): seq<Item> {
    seq(|flat|, t requires 0 <= t < |flat| => flat[t].1)
  }

  /** The number of items over all rows. */
  function ItemCount(rows: seq<Dict>): nat {
    if |rows| == 0 then 0 else |RowItems(rows[0])| + ItemCount(rows[1..])
  }

  /** A branch per location, numbered in the given order; name and location are the same value. */
  function BranchTable(order: seq<Value>): seq<Branch> {
    seq(|order|, k requires 0 <= k < |order| => Branch(k + 1, order[k], order[k]))
  }

  function ProductTable(order: seq<Item>): seq<Product> {
    seq(|order|, k requires 0 <= k < |order| => Product(k + 1, order[k]))
  }

  function TransactionOf(d: Dict, paymentId: nat, branchId: nat): Transaction {
    Transaction(paymentId, branchId, GetOr(d, "timestamp", Null), GetOr(d, "total_cost", Null),
      GetOr(d, "payment_method", Null))
  }

  /** The branch id of row `i`: one more than the place of its location among the distinct
      locations in first-seen order. */
  function BranchId(rows: seq<Dict>, i: nat): nat
    requires i < |rows|
  {
    assert Locations(rows)[i] == Location(rows[i]);
    DedupSpec(Locations(rows));
    Position(Dedup(Locations(rows)), Location(rows[i])) + 1
  }

  /** The product id of the `t`-th item bought, likewise. */
  function ProductId(flat: seq<(nat, Item)>, t: nat): nat
    requires t < |flat|
  {
    assert FlatItems(flat)[t] == flat[t].1;
    DedupSpec(FlatItems(flat));
    Position(Dedup(FlatItems(flat)), flat[t].1) + 1
  }

  /** The tables of a pass that raises nothing, stated without the loop: branches and products
      are the distinct keys in first-seen order, and an id is one more than the key's place
      in that order. */
  function Reference(rows: seq<Dict>): Tables {
    Tables(BranchTable(Dedup(Locations(rows))), TransactionTable(rows),
      ProductTable(Dedup(FlatItems(Flat(rows)))), ProductTransactionTable(Flat(rows)))
  }

  /** One transaction per row, with the row's payment id and branch id. */
  function TransactionTable(rows: seq<Dict>): seq<Transaction> {
    seq(|rows|, i requires 0 <= i < |rows| => TransactionOf(rows[i], i + 1, BranchId(rows, i)))
  }

  /** One product transaction per item bought, with its row's payment id and its product id. */
  function ProductTransactionTable(flat: seq<(nat, Item)>): seq<ProductTransaction> {
    seq(|flat|, t requires 0 <= t < |flat| => ProductTransaction(t + 1, flat[t].0, ProductId(flat, t), 1))
  }

  /** The `products` dictionary after meeting the items of `met`: it numbers the distinct
      items in first-seen order, and its values list them in that order. */
  ghost predicate ProductNumbering(productIds: map<Item, nat>, products: seq<Product>, met: seq<Item>) {
    Numbered(productIds, Dedup(met)) && products == ProductTable(Dedup(met))
  }

  /** One product transaction per item of `flat`, pointing at the item's product. */
  ghost predicate ProductsRecorded(productIds: map<Item, nat>, productTransactions: seq<ProductTransaction>,
                                   flat: seq<(nat, Item)>)
  {
    && |productTransactions| == |flat|
    && forall t :: 0 <= t < |flat| ==>
         flat[t].1 in productIds && productTransactions[t] == ProductTransaction(t + 1, flat[t].0, productIds[flat[t].1], 1)
  }

  /** The branch map and branch list after meeting the first `n` rows. */
  ghost predicate BranchNumbering(branchMap: map<Value, nat>, branches: seq<Branch>, rows: seq<Dict>, n: nat)
    requires n <= |rows|
  {
    Numbered(branchMap, Dedup(Locations(rows[..n]))) && branches == BranchTable(Dedup(Locations(rows[..n])))
  }

  /** One transaction per row among the first `n`, pointing at the row's branch. */
  ghost predicate TransactionsRecorded(branchMap: map<Value, nat>, transactions: seq<Transaction>,
                                       rows: seq<Dict>, n: nat)
    requires n <= |rows|
  {
    && |transactions| == n
    && forall j :: 0 <= j < n ==>
         Location(rows[j]) in branchMap && transactions[j] == TransactionOf(rows[j], j + 1, branchMap[Location(rows[j])])
  }

  /** The inner loop of `normalize` over the items of the row with payment id `paymentId`. */
  method AddItems(productIds: map<Item, nat>, products: seq<Product>,
                  productTransactions: seq<ProductTransaction>, ghost flat: seq<(nat, Item)>,
                  paymentId: nat, items: seq<Item>)
    returns (productIds': map<Item, nat>, products': seq<Product>, productTransactions': seq<ProductTransaction>)
    requires ProductNumbering(productIds, products, FlatItems(flat))
    requires ProductsRecorded(productIds, productTransactions, flat)
    ensures ProductNumbering(productIds', products', FlatItems(flat + Tagged(paymentId, items)))
    ensures ProductsRecorded(productIds', productTransactions', flat + Tagged(paymentId, items))
  {
    productIds', products', productTransactions' := productIds, products, productTransactions;
    ghost var met := flat;
    var k := 0;
    while k < |items|
      invariant 0 <= k <= |items|
      invariant met == flat + Tagged(paymentId, items[..k])
      invariant ProductNumbering(productIds', products', FlatItems(met))
      invariant ProductsRecorded(productIds', productTransactions', met)
    {
      var product := items[k];
      assert FlatItems(met + [(paymentId, product)]) == FlatItems(met) + [product];
      ProductStep(productIds', products', FlatItems(met), product);
      ghost var before := productIds';
      if product !in productIds' {
        productIds' := productIds'[product := |products'| + 1];
        products' := products' + [Product(|products'| + 1, product)];
      }
      RecordedStep(before, productIds', productTransactions', met, (paymentId, product));
      productTransactions' := productTransactions' +
        [ProductTransaction(|productTransactions'| + 1, paymentId, productIds'[product], 1)];
      TaggedAppend(paymentId, items, k);
      met := met + [(paymentId, product)];
      k := k + 1;
    }
    assert items[..k] == items;
  }

  /** The reads of the loop body after the branch lookup: the transaction's three fields, in
      the order the record is written, then the items the inner loop iterates over. */
  method ReadFields(row: Dict) returns (r: Result<(Value, Value, Value, seq<Item>), Error>)
    requires !Location(row).Items?
    ensures r.Failure? <==> RowError(row).Some?
    ensures r.Failure? ==> Some(r.error) == RowError(row)
    ensures r.Success? ==> r.value == (GetOr(row, "timestamp", Null), GetOr(row, "total_cost", Null),
                                      GetOr(row, "payment_method", Null), RowItems(row))
  {
    var timestamp := Get(row, "timestamp");
    if timestamp.None? {
      return Failure(KeyError("timestamp"));
    }
    var totalCost := Get(row, "total_cost");
    if totalCost.None? {
      return Failure(KeyError("total_cost"));
    }
    var paymentMethod := Get(row, "payment_method");
    if paymentMethod.None? {
      return Failure(KeyError("payment_method"));
    }
    var itemsField := Get(row, "items");
    if itemsField.None? {
      return Failure(KeyError("items"));
    }
    var items: seq<Item> := [];
    if itemsField.value.Items? {
      items := itemsField.value.items;
    } else if itemsField.value != Str("") {
      return Failure(TypeError);
    }
    RowPasses(row, items);
    r := Success((timestamp.value, totalCost.value, paymentMethod.value, items));
  }

  /** `normalize(data)`: raises the exception of the first row that raises, and otherwise
      returns the four tables. */
  method Normalize(rows: seq<Dict>) returns (r: Result<Tables, Error>)
    ensures r.Failure? <==> FirstError(rows).Some?
    ensures r.Failure? ==> Some(r.error) == FirstError(rows)
    ensures r.Success? ==> r.value == Reference(rows)
  {
    var branchMap: map<Value, nat> := map[];
    var branches: seq<Branch> := [];
    var transactions: seq<Transaction> := [];
    var productIds: map<Item, nat> := map[];   // `products`, keyed by the item, holding its id
    var products: seq<Product> := [];          // `products.values()`, in insertion order
    var productTransactions: seq<ProductTransaction> := [];
    var i := 0;
    assert rows[..0] == [] && Locations(rows[..0]) == [] && FlatItems(Flat(rows[..0])) == [];
    assert Flat(rows[..0]) == [];
    while i < |rows|
      invariant 0 <= i <= |rows|
      invariant FirstError(rows[..i]).None?
      invariant BranchNumbering(branchMap, branches, rows, i)
      invariant TransactionsRecorded(branchMap, transactions, rows, i)
      invariant ProductNumbering(productIds, products, FlatItems(Flat(rows[..i])))
      invariant ProductsRecorded(productIds, productTransactions, Flat(rows[..i]))
    {
      var row := rows[i];
      var name := GetOr(row, "location", Str("Unknown"));
      if name.Items? {
        FirstRaisedAt(RowError, rows, i);
        return Failure(TypeError);
      }
      BranchStep(branchMap, branches, rows, i);
      ghost var mapBefore := branchMap;
      if name !in branchMap {
        var branchId := |branches| + 1;
        branchMap := branchMap[name := branchId];
        branches := branches + [Branch(branchId, name, name)];
      }
      var branchId := branchMap[name];
      var fields := ReadFields(row);
      if fields.Failure? {
        FirstRaisedAt(RowError, rows, i);
        return Failure(fields.error);
      }
      var (timestamp, totalCost, paymentMethod, items) := fields.value;
      TransactionStep(mapBefore, branchMap, transactions, rows, i);
      transactions := transactions + [Transaction(i + 1, branchId, timestamp, totalCost, paymentMethod)];
      FirstRaisedStep(RowError, rows, i);
      FlatStep(rows, i);
      productIds, products, productTransactions :=
        AddItems(productIds, products, productTransactions, Flat(rows[..i]), i + 1, items);
      i := i + 1;
    }
    assert rows[..i] == rows;
    BranchIdsFromState(rows, branchMap, branches);
    TransactionsFromState(rows, branchMap, transactions);
    ProductsFromState(Flat(rows), productIds, products, productTransactions);
    r := Success(Tables(branches, transactions, products, productTransactions));
  }

  /** A row that gets past every lookup of the loop body raises nothing, and its items are
      the list it holds (none, for the empty string). */
  lemma RowPasses(d: Dict, items: seq<Item>)
    requires !Location(d).Items?
    requires Get(d, "timestamp").Some? && Get(d, "total_cost").Some? && Get(d, "payment_method").Some?
    requires Get(d, "items") == Some(Items(items)) || (Get(d, "items") == Some(Str("")) && items == [])
    ensures RowError(d).None? && RowItems(d) == items
  {
  }

  /** The items bought in one more row come after those of the rows before it. */
  lemma FlatStep(rows: seq<Dict>, i: nat)
    requires i < |rows|
    ensures Flat(rows[..i + 1]) == Flat(rows[..i]) + Tagged(i + 1, RowItems(rows[i]))
  {
    assert rows[..i + 1][..i] == rows[..i];
  }

  /** One more row through the branch part of the loop body. */
  lemma BranchStep(branchMap: map<Value, nat>, branches: seq<Branch>, rows: seq<Dict>, i: nat)
    requires i < |rows| && BranchNumbering(branchMap, branches, rows, i)
    ensures var name := Location(rows[i]);
      if name in branchMap then BranchNumbering(branchMap, branches, rows, i + 1)
      else BranchNumbering(branchMap[name := |branches| + 1], branches + [Branch(|branches| + 1, name, name)], rows, i + 1)
  {
    var name := Location(rows[i]);
    var order := Dedup(Locations(rows[..i]));
    assert Locations(rows[..i + 1]) == Locations(rows[..i]) + [name];
    NumberedStep(branchMap, Locations(rows[..i]), name);
    if name !in branchMap {
      BranchTableAppend(order, name);
    }
  }

  /** One more row's transaction, once the branch map knows the row's location and has kept
      every number it gave before. */
  lemma TransactionStep(branchMap: map<Value, nat>, branchMap': map<Value, nat>, transactions: seq<Transaction>,
                        rows: seq<Dict>, i: nat)
    requires i < |rows| && TransactionsRecorded(branchMap, transactions, rows, i)
    requires Location(rows[i]) in branchMap'
    requires forall x :: x in branchMap ==> x in branchMap' && branchMap'[x] == branchMap[x]
    ensures TransactionsRecorded(branchMap', transactions + [TransactionOf(rows[i], i + 1, branchMap'[Location(rows[i])])],
      rows, i + 1)
  {
  }

  /** One more item through the `products` dictionary. */
  lemma ProductStep(productIds: map<Item, nat>, products: seq<Product>, met: seq<Item>, x: Item)
    requires ProductNumbering(productIds, products, met)
    ensures if x in productIds then ProductNumbering(productIds, products, met + [x])
      else ProductNumbering(productIds[x := |products| + 1], products + [Product(|products| + 1, x)], met + [x])
  {
    NumberedStep(productIds, met, x);
    if x !in productIds {
      ProductTableAppend(Dedup(met), x);
    }
  }

  /** One more product transaction, once the dictionary knows the item and has kept every
      number it gave before. */
  lemma RecordedStep(productIds: map<Item, nat>, productIds': map<Item, nat>,
                     productTransactions: seq<ProductTransaction>, flat: seq<(nat, Item)>, entry: (nat, Item))
    requires ProductsRecorded(productIds, productTransactions, flat)
    requires entry.1 in productIds'
    requires forall x :: x in productIds ==> x in productIds' && productIds'[x] == productIds[x]
    ensures ProductsRecorded(productIds',
      productTransactions + [ProductTransaction(|productTransactions| + 1, entry.0, productIds'[entry.1], 1)],
      flat + [entry])
  {
  }

  lemma TaggedAppend(paymentId: nat, items: seq<Item>, k: nat)
    requires k < |items|
    ensures Tagged(paymentId, items[..k + 1]) == Tagged(paymentId, items[..k]) + [(paymentId, items[k])]
  {
  }

  lemma BranchTableAppend(order: seq<Value>, x: Value)
    ensures BranchTable(order + [x]) == BranchTable(order) + [Branch(|order| + 1, x, x)]
  {
  }

  lemma ProductTableAppend(order: seq<Item>, x: Item)
    ensures ProductTable(order + [x]) == ProductTable(order) + [Product(|order| + 1, x)]
  {
  }

  /** At the end of the pass, the branch map's numbers are the places in first-seen order. */
  lemma BranchIdsFromState(rows: seq<Dict>, branchMap: map<Value, nat>, branches: seq<Branch>)
    requires BranchNumbering(branchMap, branches, rows, |rows|)
    ensures branches == BranchTable(Dedup(Locations(rows)))
    ensures forall j :: 0 <= j < |rows| ==> Location(rows[j]) in branchMap && branchMap[Location(rows[j])] == BranchId(rows, j)
  {
    assert rows[..|rows|] == rows;
    DedupSpec(Locations(rows));
    forall j | 0 <= j < |rows| ensures Location(rows[j]) in branchMap && branchMap[Location(rows[j])] == BranchId(rows, j) {
      assert Locations(rows)[j] == Location(rows[j]);
      NumberedPosition(branchMap, Dedup(Locations(rows)), Location(rows[j]));
    }
  }

  /** ... and so the transactions are those of the table. */
  lemma TransactionsFromState(rows: seq<Dict>, branchMap: map<Value, nat>, transactions: seq<Transaction>)
    requires TransactionsRecorded(branchMap, transactions, rows, |rows|)
    requires forall j :: 0 <= j < |rows| ==> Location(rows[j]) in branchMap && branchMap[Location(rows[j])] == BranchId(rows, j)
    ensures transactions == TransactionTable(rows)
  {
  }

  /** At the end of the pass, the product dictionary's numbers are the places in first-seen
      order. */
  lemma ProductsFromState(flat: seq<(nat, Item)>, productIds: map<Item, nat>, products: seq<Product>,
                          productTransactions: seq<ProductTransaction>)
    requires ProductNumbering(productIds, products, FlatItems(flat))
    requires ProductsRecorded(productIds, productTransactions, flat)
    ensures productTransactions == ProductTransactionTable(flat)
  {
    DedupSpec(FlatItems(flat));
    forall u | 0 <= u < |flat| ensures productTransactions[u] == ProductTransactionTable(flat)[u] {
      assert FlatItems(flat)[u] == flat[u].1;
      NumberedPosition(productIds, Dedup(FlatItems(flat)), flat[u].1);
    }
  }

  // ---------------------------------------------------------------- the items bought

  /** Every item bought belongs to an existing row: the one its payment id names. */
  lemma {:induction false} FlatShape(rows: seq<Dict>, u: nat)
    requires u < |Flat(rows)|
    ensures 1 <= Flat(rows)[u].0 <= |rows| && Flat(rows)[u].1 in RowItems(rows[Flat(rows)[u].0 - 1])
  {
    var init := rows[..|rows| - 1];
    if u < |Flat(init)| {
      FlatShape(init, u);
      assert rows[Flat(init)[u].0 - 1] == init[Flat(init)[u].0 - 1];
    } else {
      assert Flat(rows)[u] == (|rows|, RowItems(rows[|rows| - 1])[u - |Flat(init)|]);
    }
  }

  /** Every item of every row is bought once per occurrence, under its row's payment id. */
  lemma {:induction false} FlatIndex(rows: seq<Dict>, i: nat, j: nat) returns (u: nat)
    requires i < |rows| && j < |RowItems(rows[i])|
    ensures u < |Flat(rows)| && Flat(rows)[u] == (i + 1, RowItems(rows[i])[j])
  {
    var init := rows[..|rows| - 1];
    if i == |rows| - 1 {
      u := |Flat(init)| + j;
    } else {
      assert init[i] == rows[i];
      u := FlatIndex(init, i, j);
    }
  }

  /** Items are bought in row order: payment ids never decrease along the list. */
  lemma {:induction false} FlatOrdered(rows: seq<Dict>, u: nat, v: nat)
    requires u <= v < |Flat(rows)|
    ensures Flat(rows)[u].0 <= Flat(rows)[v].0
  {
    var init := rows[..|rows| - 1];
    if v < |Flat(init)| {
      FlatOrdered(init, u, v);
    } else if u < |Flat(init)| {
      FlatShape(init, u);
    }
  }

  /** There is one item bought per item of each row, and no more. */
  lemma {:induction false} FlatLength(rows: seq<Dict>)
    ensures |Flat(rows)| == ItemCount(rows)
  {
    if |rows| > 0 {
      var init := rows[..|rows| - 1];
      FlatLength(init);
      ItemCountLast(rows);
    }
  }

  lemma {:induction false} ItemCountLast(rows: seq<Dict>)
    requires |rows| > 0
    ensures ItemCount(rows) == ItemCount(rows[..|rows| - 1]) + |RowItems(rows[|rows| - 1])|
  {
    if |rows| > 1 {
      assert rows[1..][..|rows| - 2] == rows[..|rows| - 1][1..];
      ItemCountLast(rows[1..]);
    } else {
      assert rows[1..] == [] && rows[..0] == [];
    }
  }

  // ---------------------------------------------------------------- properties of the tables

  /** Each transaction belongs to its row and refers to an existing branch, the one named by
      the row's location. */
  lemma TransactionBranch(rows: seq<Dict>, i: nat)
    requires i < |rows|
    ensures var t := Reference(rows);
      && |t.transactions| == |rows|
      && t.transactions[i].paymentId == i + 1
      && 1 <= t.transactions[i].branchId <= |t.branches|
      && t.branches[t.transactions[i].branchId - 1].branchId == t.transactions[i].branchId
      && t.branches[t.transactions[i].branchId - 1].name == Location(rows[i])
      && t.branches[t.transactions[i].branchId - 1].location == Location(rows[i])
  {
  }

  /** A row without a location is booked at the branch named "Unknown". */
  lemma UnknownBranch(rows: seq<Dict>, i: nat)
    requires i < |rows| && Get(rows[i], "location").None?
    ensures var t := Reference(rows); t.branches[t.transactions[i].branchId - 1].name == Str("Unknown")
  {
    TransactionBranch(rows, i);
  }

  /** Two rows share a branch exactly when they have the same location. */
  lemma SameBranch(rows: seq<Dict>, i: nat, j: nat)
    requires i < |rows| && j < |rows|
    ensures var t := Reference(rows);
      t.transactions[i].branchId == t.transactions[j].branchId <==> Location(rows[i]) == Location(rows[j])
  {
    TransactionBranch(rows, i);
    TransactionBranch(rows, j);
  }

  /** No two branches have the same location, and every branch is some row's location. */
  lemma BranchesDistinct(rows: seq<Dict>)
    ensures var b := Reference(rows).branches;
      && (forall k, l :: 0 <= k < l < |b| ==> b[k].location != b[l].location)
      && (forall k :: 0 <= k < |b| ==> b[k].location in Locations(rows))
  {
    DedupSpec(Locations(rows));
  }

  /** Branches are numbered in the order their locations first occur. */
  lemma BranchFirstSeen(rows: seq<Dict>, i: nat, j: nat)
    requires i < j < |rows|
    requires Location(rows[i]) !in Locations(rows)[..i] && Location(rows[j]) !in Locations(rows)[..j]
    ensures Reference(rows).transactions[i].branchId < Reference(rows).transactions[j].branchId
  {
    DedupOrder(Locations(rows), i, j);
  }

  /** Each product transaction refers to an existing transaction and to an existing product,
      the item being one bought in that transaction's row, and has quantity 1. */
  lemma ProductTransactionRefs(rows: seq<Dict>, u: nat)
    requires u < |Reference(rows).productTransactions|
    ensures var t := Reference(rows); var pt := t.productTransactions[u];
      && pt.id == u + 1 && pt.quantity == 1
      && 1 <= pt.paymentId <= |t.transactions| && t.transactions[pt.paymentId - 1].paymentId == pt.paymentId
      && 1 <= pt.productId <= |t.products| && t.products[pt.productId - 1].productId == pt.productId
      && t.products[pt.productId - 1].item in RowItems(rows[pt.paymentId - 1])
  {
    FlatShape(rows, u);
    DedupSpec(FlatItems(Flat(rows)));
    assert FlatItems(Flat(rows))[u] == Flat(rows)[u].1;
  }

  /** Two items bought share a product exactly when they are the same (name, variant, size,
      price). */
  lemma SameProduct(rows: seq<Dict>, u: nat, v: nat)
    requires u < |Flat(rows)| && v < |Flat(rows)|
    ensures var pts := Reference(rows).productTransactions;
      pts[u].productId == pts[v].productId <==> Flat(rows)[u].1 == Flat(rows)[v].1
  {
    DedupSpec(FlatItems(Flat(rows)));
    assert FlatItems(Flat(rows))[u] == Flat(rows)[u].1 && FlatItems(Flat(rows))[v] == Flat(rows)[v].1;
  }

  /** No two products are the same item, and every item of every row is among the products. */
  lemma ProductsDistinct(rows: seq<Dict>)
    ensures var p := Reference(rows).products; forall k, l :: 0 <= k < l < |p| ==> p[k].item != p[l].item
  {
    DedupSpec(FlatItems(Flat(rows)));
  }

  lemma ProductCovered(rows: seq<Dict>, i: nat, j: nat)
    requires i < |rows| && j < |RowItems(rows[i])|
    ensures exists k :: 0 <= k < |Reference(rows).products| && Reference(rows).products[k].item == RowItems(rows[i])[j]
  {
    var u := FlatIndex(rows, i, j);
    ProductTransactionRefs(rows, u);
    var k := Reference(rows).productTransactions[u].productId - 1;
    assert Reference(rows).products[k].item == RowItems(rows[i])[j];
  }

  /** There is one product transaction per item bought, in row order. */
  lemma ProductTransactionsInOrder(rows: seq<Dict>, u: nat, v: nat)
    requires u <= v < |Reference(rows).productTransactions|
    ensures |Reference(rows).productTransactions| == ItemCount(rows)
    ensures Reference(rows).productTransactions[u].paymentId <= Reference(rows).productTransactions[v].paymentId
  {
    FlatLength(rows);
    FlatOrdered(rows, u, v);
  }
}
