/**
 * The earlier normalisers (src/normalise_data.py), each a separate pass over the prepared
 * rows: a fixed branch table, one transaction per row at that branch, the distinct products
 * numbered by a counter, and the product transactions, whose product ids are looked up in a
 * dictionary built from a product list.
 */
module NormaliseData {

  import opened Wrappers
  import opened ItemParser
  import opened Values
  import opened Timestamps
  import opened Numbering
  import opened Tables
  import opened Raising
  import opened EtlNormalize

  // ---------------------------------------------------------------- normalize_branches

  /** `normalize_branches(data)`: every transaction is taken to be from Edinburgh. */
  function NormalizeBranches(data: seq<Dict>): (branches: seq<Branch>)
    ensures |branches| == 1 && branches[0].branchId == 1
    ensures branches[0].name == Str("Edinburgh") && branches[0].location == Str("Edinburgh")
  {
    [Branch(1, Str("Edinburgh"), Str("Edinburgh"))]
  }

  // ---------------------------------------------------------------- normalize_transactions

  /** `datetime.strptime(row["timestamp"], "%d/%m/%Y %H:%M")` */
  function Strptime(v: Option<Value>): Result<Value, Error> {
    match v
    case None => Failure(KeyError("timestamp"))
    case Some(Str(s)) =>
      (match ParseSource(s)
       case None => Failure(ValueError)
       case Some(dt) => Success(Stamp(dt)))
    case Some(_) => Failure(TypeError)
  }

  /** The record appended for a row, its fields evaluated in the order they are written. */
  function TransactionAt(d: Dict, paymentId: nat): Result<Transaction, Error> {
    match Strptime(Get(d, "timestamp"))
    case Failure(e) => Failure(e)
    case Success(stamp) =>
      match Get(d, "total_cost")
      case None => Failure(KeyError("total_cost"))
      case Some(total) =>
        match Get(d, "payment_method")
        case None => Failure(KeyError("payment_method"))
        case Some(paymentMethod) => Success(Transaction(paymentId, 1, stamp, total, paymentMethod))
  }

  /** The transactions of the rows, or the exception of the first row that raises. */
  function Transactions(data: seq<Dict>): Result<seq<Transaction>, Error> {
    MapAll(TransactionAt, data)
  }

  /** `normalize_transactions(data)` */
  method NormalizeTransactions(data: seq<Dict>) returns (r: Result<seq<Transaction>, Error>)
    ensures r == Transactions(data)
  {
    var transactions: seq<Transaction> := [];
    var i := 0;
    while i < |data|
      invariant 0 <= i <= |data|
      invariant Transactions(data[..i]) == Success(transactions)
    {
      assert data[..i + 1][..i] == data[..i];
      var row := data[i];
      var transaction := TransactionAt(row, i + 1);
      if transaction.Failure? {
        MapAllSticks(TransactionAt, data, i + 1);
        return Failure(transaction.error);
      }
      transactions := transactions + [transaction.value];
      i := i + 1;
    }
    assert data[..i] == data;
    r := Success(transactions);
  }

  // ---------------------------------------------------------------- normalize_products

  /** `for item in row["items"]` and the reads of the item's fields: a missing list is a
      KeyError, and anything but a list of items or the empty string ends in a TypeError. */
  function ItemsError(d: Dict): Option<Error> {
    match Get(d, "items")
    case None => Some(KeyError("items"))
    case Some(Items(_)) => None
    case Some(Str(s)) => if s == "" then None else Some(TypeError)
    case Some(_) => Some(TypeError)
  }

  /** `normalize_products(data)`: the distinct items in first-seen order, numbered 1, 2, ... */
  function Products(data: seq<Dict>): Result<seq<Product>, Error> {
    match FirstRaised(ItemsError, data)
    case Some(e) => Failure(e)
    case None => Success(ProductTable(Dedup(FlatItems(Flat(data)))))
  }

  /** `normalize_products(data)`: `product_set` is kept as the map from an item to its id
      together with the list of its values in insertion order. */
  method NormalizeProducts(data: seq<Dict>) returns (r: Result<seq<Product>, Error>)
    ensures r == Products(data)
  {
    var productSet: map<Item, nat> := map[];
    var products: seq<Product> := [];
    var productId := 1;
    var i := 0;
    assert data[..0] == [] && Flat(data[..0]) == [] && FlatItems([]) == [];
    while i < |data|
      invariant 0 <= i <= |data|
      invariant FirstRaised(ItemsError, data[..i]).None?
      invariant ProductNumbering(productSet, products, FlatItems(Flat(data[..i])))
      invariant productId == |products| + 1
    {
      var row := data[i];
      var field := Get(row, "items");
      var items: seq<Item> := [];
      if field.None? {
        FirstRaisedAt(ItemsError, data, i);
        return Failure(KeyError("items"));
      } else if field.value.Items? {
        items := field.value.items;
      } else if field.value != Str("") {
        FirstRaisedAt(ItemsError, data, i);
        return Failure(TypeError);
      }
      assert RowItems(row) == items && ItemsError(row).None?;
      FirstRaisedStep(ItemsError, data, i);
      FlatStep(data, i);
      productSet, products, productId := AddProducts(productSet, products, productId, Flat(data[..i]), i + 1, items);
      i := i + 1;
    }
    assert data[..i] == data;
    r := Success(products);
  }

  /** The inner loop of `normalize_products` over the items of one row. */
  method AddProducts(productSet: map<Item, nat>, products: seq<Product>, productId: nat,
                     ghost flat: seq<(nat, Item)>, paymentId: nat, items: seq<Item>)
    returns (productSet': map<Item, nat>, products': seq<Product>, productId': nat)
    requires ProductNumbering(productSet, products, FlatItems(flat)) && productId == |products| + 1
    ensures ProductNumbering(productSet', products', FlatItems(flat + Tagged(paymentId, items)))
    ensures productId' == |products'| + 1
  {
    productSet', products', productId' := productSet, products, productId;
    ghost var met := flat;
    var k := 0;
    while k < |items|
      invariant 0 <= k <= |items|
      invariant met == flat + Tagged(paymentId, items[..k])
      invariant ProductNumbering(productSet', products', FlatItems(met))
      invariant productId' == |products'| + 1
    {
      var item := items[k];
      assert FlatItems(met + [(paymentId, item)]) == FlatItems(met) + [item];
      ProductStep(productSet', products', FlatItems(met), item);
      if item !in productSet' {
        productSet' := productSet'[item := productId'];
        products' := products' + [Product(productId', item)];
        productId' := productId' + 1;
      }
      TaggedAppend(paymentId, items, k);
      met := met + [(paymentId, item)];
      k := k + 1;
    }
    assert items[..k] == items;
  }

  // ---------------------------------------------------------------- normalize_product_transactions

  /** The `product_map` comprehension: a later product with the same key overwrites an
      earlier one. */
  function ProductMap(products: seq<Product>): map<Item, nat> {
    if |products| == 0 then map[]
    else ProductMap(products[..|products| - 1])[products[|products| - 1].item := products[|products| - 1].productId]
  }

  /** `product_map[product_key]`: a KeyError naming the key when it is not there. */
  function Lookup(productMap: map<Item, nat>): Item -> Option<Error> {
    item => if item in productMap then None else Some(ProductKeyError(item))
  }

  /** What a row raises: reading its items, or looking one of them up. */
  function RowFailure(productMap: map<Item, nat>): Dict -> Option<Error> {
    d => if ItemsError(d).Some? then ItemsError(d) else FirstRaised(Lookup(productMap), RowItems(d))
  }

  /** Every item bought is a key of the product map. */
  ghost predicate AllKnown(flat: seq<(nat, Item)>, productMap: map<Item, nat>) {
    forall t :: 0 <= t < |flat| ==> flat[t].1 in productMap
  }

  /** One product transaction per item bought, numbered from 1, with the payment id of its
      row and the id the product map gives its item. */
  function LookedUp(flat: seq<(nat, Item)>, productMap: map<Item, nat>): seq<ProductTransaction>
    requires AllKnown(flat, productMap)
  {
    seq(|flat|, t requires 0 <= t < |flat| => ProductTransaction(t + 1, flat[t].0, productMap[flat[t].1], 1))
  }

  /** The inner loop of `normalize_product_transactions` over the items of one row: it raises
      at the first item the product map does not know. */
  method LookUpItems(productMap: map<Item, nat>, productTransactions: seq<ProductTransaction>,
                     productTransactionsId: nat, ghost flat: seq<(nat, Item)>, paymentId: nat, items: seq<Item>)
    returns (productTransactions': seq<ProductTransaction>, productTransactionsId': nat, raised: Option<Error>)
    requires AllKnown(flat, productMap) && productTransactions == LookedUp(flat, productMap)
    requires productTransactionsId == |productTransactions| + 1
    ensures raised == FirstRaised(Lookup(productMap), items)
    ensures raised.None? ==> && AllKnown(flat + Tagged(paymentId, items), productMap)
                             && productTransactions' == LookedUp(flat + Tagged(paymentId, items), productMap)
                             && productTransactionsId' == |productTransactions'| + 1
  {
    ghost var lookup := Lookup(productMap);
    productTransactions', productTransactionsId' := productTransactions, productTransactionsId;
    ghost var met := flat;
    var k := 0;
    while k < |items|
      invariant 0 <= k <= |items|
      invariant met == flat + Tagged(paymentId, items[..k])
      invariant FirstRaised(lookup, items[..k]).None?
      invariant AllKnown(met, productMap)
      invariant productTransactions' == LookedUp(met, productMap)
      invariant productTransactionsId' == |productTransactions'| + 1
    {
      var item := items[k];
      if item !in productMap {
        FirstRaisedAt(lookup, items, k);
        return productTransactions', productTransactionsId', Some(ProductKeyError(item));
      }
      FirstRaisedStep(lookup, items, k);
      productTransactions' := productTransactions' + [ProductTransaction(productTransactionsId', paymentId, productMap[item], 1)];
      productTransactionsId' := productTransactionsId' + 1;
      TaggedAppend(paymentId, items, k);
      met := met + [(paymentId, item)];
      k := k + 1;
    }
    assert items[..k] == items;
    raised := None;
  }

  /** `normalize_product_transactions(data, products)` */
  method NormalizeProductTransactions(data: seq<Dict>, products: seq<Product>)
    returns (r: Result<seq<ProductTransaction>, Error>)
    ensures r.Failure? <==> FirstRaised(RowFailure(ProductMap(products)), data).Some?
    ensures r.Failure? ==> Some(r.error) == FirstRaised(RowFailure(ProductMap(products)), data)
    ensures r.Success? ==> AllKnown(Flat(data), ProductMap(products)) && r.value == LookedUp(Flat(data), ProductMap(products))
  {
    var productMap := ProductMap(products);
    ghost var rowFailure := RowFailure(productMap);
    var productTransactions: seq<ProductTransaction> := [];
    var productTransactionsId := 1;
    var i := 0;
    assert data[..0] == [] && Flat(data[..0]) == [];
    while i < |data|
      invariant 0 <= i <= |data|
      invariant FirstRaised(rowFailure, data[..i]).None?
      invariant AllKnown(Flat(data[..i]), productMap)
      invariant productTransactions == LookedUp(Flat(data[..i]), productMap)
      invariant productTransactionsId == |productTransactions| + 1
    {
      var row := data[i];
      var field := Get(row, "items");
      var items: seq<Item> := [];
      if field.None? {
        FirstRaisedAt(rowFailure, data, i);
        return Failure(KeyError("items"));
      } else if field.value.Items? {
        items := field.value.items;
      } else if field.value != Str("") {
        FirstRaisedAt(rowFailure, data, i);
        return Failure(TypeError);
      }
      assert RowItems(row) == items && ItemsError(row).None?;
      FlatStep(data, i);
      var raised;
      productTransactions, productTransactionsId, raised :=
        LookUpItems(productMap, productTransactions, productTransactionsId, Flat(data[..i]), i + 1, items);
      if raised.Some? {
        FirstRaisedAt(rowFailure, data, i);
        return Failure(raised.value);
      }
      FirstRaisedStep(rowFailure, data, i);
      i := i + 1;
    }
    assert data[..i] == data;
    r := Success(productTransactions);
  }

  // ---------------------------------------------------------------- lemmas

  /** The record of a row that raises nothing: payment id and branch 1, the parsed
      timestamp, and the row's total and payment method as they are. */
  lemma TransactionFields(d: Dict, paymentId: nat)
    requires TransactionAt(d, paymentId).Success?
    ensures var t := TransactionAt(d, paymentId).value;
      && t.paymentId == paymentId && t.branchId == 1
      && Get(d, "total_cost") == Some(t.totalAmount)
      && Get(d, "payment_method") == Some(t.paymentMethod)
      && Get(d, "timestamp").Some? && Get(d, "timestamp").value.Str?
      && t.timestamp.Stamp? && ParseSource(Get(d, "timestamp").value.s) == Some(t.timestamp.dt)
  {
  }

  /** A pass that raises nothing gives one transaction per row: payment id `i + 1` for row
      `i`, branch 1, the parsed timestamp, and the row's total and payment method as they are. */
  lemma TransactionsRecord(data: seq<Dict>, i: nat)
    requires Transactions(data).Success? && i < |data|
    ensures var ts := Transactions(data).value;
      && |ts| == |data|
      && ts[i].paymentId == i + 1 && ts[i].branchId == 1
      && Get(data[i], "total_cost") == Some(ts[i].totalAmount)
      && Get(data[i], "payment_method") == Some(ts[i].paymentMethod)
      && Get(data[i], "timestamp").Some? && Get(data[i], "timestamp").value.Str?
      && ts[i].timestamp.Stamp? && ParseSource(Get(data[i], "timestamp").value.s) == Some(ts[i].timestamp.dt)
  {
    MapAllRecord(TransactionAt, data, i);
    TransactionFields(data[i], i + 1);
  }

  /** No two products are the same item, and the ids are 1, 2, ... in list order. */
  lemma ProductsUnique(data: seq<Dict>)
    requires Products(data).Success?
    ensures var ps := Products(data).value;
      && (forall k :: 0 <= k < |ps| ==> ps[k].productId == k + 1)
      && (forall k, l :: 0 <= k < l < |ps| ==> ps[k].item != ps[l].item)
  {
    DedupSpec(FlatItems(Flat(data)));
  }

  /** Every item of every row is among the products. */
  lemma ProductsCover(data: seq<Dict>, i: nat, j: nat)
    requires Products(data).Success? && i < |data| && j < |RowItems(data[i])|
    ensures exists k :: 0 <= k < |Products(data).value| && Products(data).value[k].item == RowItems(data[i])[j]
  {
    ProductCovered(data, i, j);
  }

  /** Products are numbered in the order their items are first met. */
  lemma ProductsFirstSeen(data: seq<Dict>, u: nat, v: nat)
    requires Products(data).Success?
    requires var met := FlatItems(Flat(data)); u < v < |met| && met[u] !in met[..u] && met[v] !in met[..v]
    ensures var met := FlatItems(Flat(data)); var ps := Products(data).value;
      exists k, l :: 0 <= k < l < |ps| && ps[k].item == met[u] && ps[l].item == met[v]
  {
    var met := FlatItems(Flat(data));
    DedupOrder(met, u, v);
    var k, l := Position(Dedup(met), met[u]), Position(Dedup(met), met[v]);
    assert Products(data).value[k].item == met[u] && Products(data).value[l].item == met[v];
  }

  /** The product map holds exactly the items of the products. */
  lemma {:induction false} ProductMapKeys(products: seq<Product>, x: Item)
    ensures x in ProductMap(products) <==> exists k :: 0 <= k < |products| && products[k].item == x
  {
    if |products| > 0 {
      var init := products[..|products| - 1];
      ProductMapKeys(init, x);
      if x in ProductMap(init) {
        var k :| 0 <= k < |init| && init[k].item == x;
        assert products[k].item == x;
      }
      if exists k :: 0 <= k < |products| && products[k].item == x {
        var k :| 0 <= k < |products| && products[k].item == x;
        if k < |init| {
          assert init[k].item == x;
        }
      }
    }
  }

  /** Of products with the same item, the last one gives the id. */
  lemma {:induction false} ProductMapLast(products: seq<Product>, k: nat)
    requires k < |products| && forall l :: k < l < |products| ==> products[l].item != products[k].item
    ensures products[k].item in ProductMap(products) && ProductMap(products)[products[k].item] == products[k].productId
  {
    var init := products[..|products| - 1];
    if k < |init| {
      assert init[k] == products[k];
      ProductMapLast(init, k);
    }
  }

  /** Built from a product table in which each item occurs once, the product map gives each
      item its product's id. */
  lemma ProductMapOfTable(order: seq<Item>)
    requires Distinct(order)
    ensures Numbered(ProductMap(ProductTable(order)), order)
  {
    var ps := ProductTable(order);
    forall x ensures x in ProductMap(ps) <==> x in order {
      ProductMapKeys(ps, x);
      if x in order {
        var k :| 0 <= k < |order| && order[k] == x;
        assert ps[k].item == x;
      }
    }
    forall k | 0 <= k < |order| ensures ProductMap(ps)[order[k]] == k + 1 {
      ProductMapLast(ps, k);
    }
  }

  /** A row whose item is not among the products makes the pass raise, when nothing raised
      before it. */
  lemma MissingProduct(data: seq<Dict>, products: seq<Product>, i: nat, j: nat)
    requires i < |data| && ItemsError(data[i]).None? && j < |RowItems(data[i])|
    requires forall k :: 0 <= k < |products| ==> products[k].item != RowItems(data[i])[j]
    ensures FirstRaised(RowFailure(ProductMap(products)), data).Some?
  {
    var x := RowItems(data[i])[j];
    ProductMapKeys(products, x);
    FirstRaisedNone(Lookup(ProductMap(products)), RowItems(data[i]));
    FirstRaisedNone(RowFailure(ProductMap(products)), data);
  }

  /** Given the products `normalize_products` returns for the same rows, the product map
      numbers the distinct items in first-seen order. */
  lemma ProductMapOfProducts(data: seq<Dict>)
    requires Products(data).Success?
    ensures Numbered(ProductMap(Products(data).value), Dedup(FlatItems(Flat(data))))
    ensures Distinct(Dedup(FlatItems(Flat(data))))
    ensures forall x :: x in Dedup(FlatItems(Flat(data))) <==> x in FlatItems(Flat(data))
  {
    DedupSpec(FlatItems(Flat(data)));
    ProductMapOfTable(Dedup(FlatItems(Flat(data))));
  }

  /** ... so every lookup of `normalize_product_transactions` succeeds ... */
  lemma LookupsSucceed(data: seq<Dict>)
    requires Products(data).Success?
    ensures AllKnown(Flat(data), ProductMap(Products(data).value))
    ensures FirstRaised(RowFailure(ProductMap(Products(data).value)), data).None?
  {
    var flat := Flat(data);
    var productMap := ProductMap(Products(data).value);
    ProductMapOfProducts(data);
    forall t | 0 <= t < |flat| ensures flat[t].1 in productMap {
      assert FlatItems(flat)[t] == flat[t].1;
    }
    FirstRaisedNone(ItemsError, data);
    forall i | 0 <= i < |data| ensures RowFailure(productMap)(data[i]).None? {
      forall j | 0 <= j < |RowItems(data[i])| ensures Lookup(productMap)(RowItems(data[i])[j]).None? {
        var u := FlatIndex(data, i, j);
      }
      FirstRaisedNone(Lookup(productMap), RowItems(data[i]));
    }
    FirstRaisedNone(RowFailure(productMap), data);
  }

  /** ... and the product transactions are those of `normalize` in src/etl.py. */
  lemma LookupsAgree(data: seq<Dict>)
    requires Products(data).Success?
    ensures AllKnown(Flat(data), ProductMap(Products(data).value))
    ensures LookedUp(Flat(data), ProductMap(Products(data).value)) == Reference(data).productTransactions
  {
    var flat := Flat(data);
    var productMap := ProductMap(Products(data).value);
    LookupsSucceed(data);
    ProductMapOfProducts(data);
    forall t | 0 <= t < |flat| ensures LookedUp(flat, productMap)[t] == ProductTransactionTable(flat)[t] {
      assert FlatItems(flat)[t] == flat[t].1;
      NumberedPosition(productMap, Dedup(FlatItems(flat)), flat[t].1);
    }
  }
}
