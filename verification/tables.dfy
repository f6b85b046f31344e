/**
 * The four relational tables the normalisers build, as records, and the dictionaries they
 * are handed to the loaders as (keys in the order the normalisers write them).
 */
module Tables {

  import opened Wrappers
  import opened ItemParser
  import opened Values

  datatype Branch = Branch(branchId: nat, name: Value, location: Value)

  datatype Transaction =
    Transaction(paymentId: nat, branchId: nat, timestamp: Value, totalAmount: Value, paymentMethod: Value)

  /** A product is an item's (name, variant, size, price) with its surrogate key. */
  datatype Product = Product(productId: nat, item: Item)

  datatype ProductTransaction = ProductTransaction(id: nat, paymentId: nat, productId: nat, quantity: nat)

  datatype Tables = Tables(
    branches: seq<Branch>,
    transactions: seq<Transaction>,
    products: seq<Product>,
    productTransactions: seq<ProductTransaction>)

  function OptionalText(v: Option<string>): Value {
    match v
    case None => Null
    case Some(s) => Str(s)
  }

  function BranchRow(b: Branch): Dict {
    [("branch_id", Int(b.branchId)), ("name", b.name), ("location", b.location)]
  }

  function TransactionRow(t: Transaction): Dict {
    [("payment_id", Int(t.paymentId)), ("branch_id", Int(t.branchId)), ("timestamp", t.timestamp),
     ("total_amount", t.totalAmount), ("payment_method", t.paymentMethod)]
  }

  function ProductRow(p: Product): Dict {
    [("product_id", Int(p.productId)), ("name", Str(p.item.itemName)), ("variant", OptionalText(p.item.variant)),
     ("size", Str(p.item.size)), ("price", Num(p.item.price))]
  }

  function ProductTransactionRow(pt: ProductTransaction): Dict {
    [("product_transactions_id", Int(pt.id)), ("payment_id", Int(pt.paymentId)),
     ("product_id", Int(pt.productId)), ("quantity", Int(pt.quantity))]
  }
}
