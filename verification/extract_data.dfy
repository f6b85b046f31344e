/**
 * The earlier extraction stage (src/extract_data.py): `validate_data` splits raw rows into
 * those whose required fields are all filled in and the rest, and `prepare_data` turns each
 * row into a cleaned dictionary of five fields, dropping a row whose cleaning raises.
 */
module ExtractData {

  import opened Wrappers
  import opened Text
  import opened Decimal
  import opened ItemParser
  import opened Values
  import opened Raising

  /** The fields a row must have filled in, which are also the keys of a cleaned row, in the
      order the cleaned row lists them. */
  const Columns: seq<string> := ["timestamp", "location", "items", "total_cost", "payment_method"]

  /** `row.get(k, default).strip()`: None when the value has no `strip` (an AttributeError). */
  function TextField(d: Dict, k: string, default: string): Option<string> {
    match GetOr(d, k, Str(default))
    case Str(s) => Some(Strip(s))
    case _ => None
  }

  /** The dictionary display of a cleaned row. */
  function Cleaned(timestamp: string, location: string, items: seq<Item>, totalCost: real, paymentMethod: string): (r: Dict)
    ensures Keys(r) == Columns
  {
    [("timestamp", Str(timestamp)), ("location", Str(location)), ("items", Items(items)),
     ("total_cost", Num(totalCost)), ("payment_method", Str(paymentMethod))]
  }

  /** The cleaned row, or None when building it raises (a field without `strip`, or a
      total_cost that `float()` refuses); the exception is caught and the row dropped. */
  function PrepareRow(d: Dict): Option<Dict> {
    var timestamp := TextField(d, "timestamp", "");
    var location := TextField(d, "location", "");
    var items := TextField(d, "items", "");
    var cost := TextField(d, "total_cost", "0");
    var paymentMethod := TextField(d, "payment_method", "");
    if timestamp.None? || location.None? || items.None? || cost.None? || paymentMethod.None? then None
    else
      match PyFloat(cost.value)
      case None => None
      case Some(c) => Some(Cleaned(timestamp.value, location.value, ParsedItems(items.value), c, paymentMethod.value))
  }

  /** The results of `f` on `xs`, in order, leaving out the inputs it gives nothing for. */
  function Collected<T, U>(f: T -> Option<U>, xs: seq<T>): seq<U> {
    if |xs| == 0 then []
    else
      var rest := Collected(f, xs[..|xs| - 1]);
      match f(xs[|xs| - 1])
      case None => rest
      case Some(r) => rest + [r]
  }

  /** What `prepare_data` returns: the cleaned rows of the rows that clean without raising. */
  function Prepared(data: seq<Dict>): seq<Dict> {
    Collected(PrepareRow, data)
  }

  /** `prepare_data(data)`: the loop with a `try` around each row. */
  method PrepareData(data: seq<Dict>) returns (processed: seq<Dict>)
    ensures processed == Prepared(data)
  {
    processed := [];
    var i := 0;
    while i < |data|
      invariant 0 <= i <= |data|
      invariant processed == Prepared(data[..i])
    {
      assert data[..i + 1][..i] == data[..i];
      var row := data[i];
      var timestamp := TextField(row, "timestamp", "");
      var location := TextField(row, "location", "");
      var itemsText := TextField(row, "items", "");
      if timestamp.Some? && location.Some? && itemsText.Some? {
        var items := ParseItems(itemsText.value);
        var costText := TextField(row, "total_cost", "0");
        if costText.Some? {
          var cost := PyFloat(costText.value);
          var paymentMethod := TextField(row, "payment_method", "");
          if cost.Some? && paymentMethod.Some? {
            processed := processed + [Cleaned(timestamp.value, location.value, items, cost.value, paymentMethod.value)];
          }
        }
      }
      i := i + 1;
    }
    assert data[..i] == data;
  }

  // ---------------------------------------------------------------- validate_data

  /** `all(row.get(f, "").strip() for f in fields)`: stops at the first blank field; a value
      without `strip` met before that raises an AttributeError, which is not caught. */
  function FieldsFilled(d: Dict, fields: seq<string>): Result<bool, Error> {
    if |fields| == 0 then Success(true)
    else
      match GetOr(d, fields[0], Str(""))
      case Str(s) => if Strip(s) == "" then Success(false) else FieldsFilled(d, fields[1..])
      case _ => Failure(AttributeError)
  }

  function RowCheck(d: Dict): Result<bool, Error> {
    FieldsFilled(d, Columns)
  }

  /** A required field that is present, a string, and not blank. */
  predicate Filled(d: Dict, k: string) {
    var v := GetOr(d, k, Str(""));
    v.Str? && Strip(v.s) != ""
  }

  /** The exception a row's check raises, if any. */
  function CheckFailure(d: Dict): Option<Error> {
    match RowCheck(d)
    case Failure(e) => Some(e)
    case Success(_) => None
  }

  /** The exception of the first row whose check raises. */
  function CheckError(data: seq<Dict>): Option<Error> {
    FirstRaised(CheckFailure, data)
  }

  /** The rows whose check gives `valid`, in input order. */
  function Filter(data: seq<Dict>, valid: bool): seq<Dict> {
    if |data| == 0 then []
    else
      var rest := Filter(data[..|data| - 1], valid);
      if RowCheck(data[|data| - 1]) == Success(valid) then rest + [data[|data| - 1]] else rest
  }

  /** `validate_data(data)`: the pair (valid rows, invalid rows), or the exception a check raised. */
  method ValidateData(data: seq<Dict>) returns (r: Result<(seq<Dict>, seq<Dict>), Error>)
    ensures r.Failure? <==> CheckError(data).Some?
    ensures r.Failure? ==> Some(r.error) == CheckError(data)
    ensures r.Success? ==> r.value == (Filter(data, true), Filter(data, false))
  {
    var valid: seq<Dict> := [];
    var invalid: seq<Dict> := [];
    var i := 0;
    while i < |data|
      invariant 0 <= i <= |data|
      invariant CheckError(data[..i]).None?
      invariant valid == Filter(data[..i], true) && invalid == Filter(data[..i], false)
    {
      assert data[..i + 1][..i] == data[..i];
      var row := data[i];
      var check := RowCheck(row);
      if check.Failure? {
        FirstRaisedSticks(CheckFailure, data, i + 1);
        return Failure(check.error);
      }
      if check.value {
        valid := valid + [row];
      } else {
        invalid := invalid + [row];
      }
      i := i + 1;
    }
    assert data[..i] == data;
    return Success((valid, invalid));
  }

  // ---------------------------------------------------------------- lemmas

  /** Every cleaned row has exactly the five columns, in order, and so never a customer name
      or a card number. */
  lemma PrepareRowKeys(d: Dict)
    requires PrepareRow(d).Some?
    ensures Keys(PrepareRow(d).value) == Columns
    ensures "customer_name" !in Keys(PrepareRow(d).value) && "credit_card" !in Keys(PrepareRow(d).value)
  {
  }

  /** Every text field of a cleaned row is stripped: stripping it again changes nothing. */
  lemma PrepareRowStripped(d: Dict, k: nat)
    requires PrepareRow(d).Some? && k < |Columns| && k != 2 && k != 3
    ensures var v := PrepareRow(d).value[k].1; v.Str? && Strip(v.s) == v.s
  {
    StripStrip(GetOr(d, Columns[k], Str("")).s);
  }

  /** A row with a total_cost that is not a number is dropped. */
  lemma PrepareRowNotANumber(d: Dict, s: string)
    requires Get(d, "total_cost") == Some(Str(s)) && PyFloat(Strip(s)).None?
    ensures PrepareRow(d).None?
  {
  }

  /** `float("0")`, the value a missing total_cost takes. */
  lemma ZeroCost()
    ensures PyFloat("0") == Some(0.0)
  {
    assert Strip("0") == "0";
    assert Find("0", '.') == None;
    assert AllDigits("0") && DigitsValue("0") == 0 by { assert "0"[..0] == ""; }
  }

  /** A blank items field parses to no items. */
  lemma NoItems()
    ensures ParsedItems("") == []
  {
    SplitOnNoSeparator("", ',');
    NoSeparators("");
  }

  /** A field that is missing or holds text: the two cases `.strip()` accepts. */
  predicate TextOrMissing(d: Dict, k: string) {
    Get(d, k).None? || Get(d, k).value.Str?
  }

  /** In any row that is kept, a missing text field is cleaned to the blank text, a missing
      items field to no items, and a missing total_cost to 0.0. */
  lemma PrepareRowDefaults(d: Dict)
    requires PrepareRow(d).Some?
    ensures Get(d, "timestamp").None? ==> PrepareRow(d).value[0].1 == Str("")
    ensures Get(d, "location").None? ==> PrepareRow(d).value[1].1 == Str("")
    ensures Get(d, "items").None? ==> PrepareRow(d).value[2].1 == Items([])
    ensures Get(d, "total_cost").None? ==> PrepareRow(d).value[3].1 == Num(0.0)
    ensures Get(d, "payment_method").None? ==> PrepareRow(d).value[4].1 == Str("")
  {
    ZeroCost();
    NoItems();
  }

  /** A missing total_cost never drops a row: when the other fields are missing or text, the
      row is kept with 0.0 as its cost. */
  lemma PrepareMissingCost(d: Dict)
    requires Get(d, "total_cost").None?
    requires TextOrMissing(d, "timestamp") && TextOrMissing(d, "location") && TextOrMissing(d, "items")
    requires TextOrMissing(d, "payment_method")
    ensures PrepareRow(d).Some? && PrepareRow(d).value[3].1 == Num(0.0)
  {
    ZeroCost();
  }

  /** The empty row: every field takes its default. */
  lemma PrepareEmptyRow()
    ensures PrepareRow([]) == Some(Cleaned("", "", [], 0.0, ""))
  {
    ZeroCost();
    NoItems();
  }

  /** What `Collected` keeps is an increasing choice of inputs, mapped, which leaves out
      exactly the inputs `f` gives nothing for. */
  lemma {:induction false} CollectedRows<T, U>(f: T -> Option<U>, xs: seq<T>) returns (idx: seq<nat>)
    ensures |idx| == |Collected(f, xs)|
    ensures forall k :: 0 <= k < |idx| ==> idx[k] < |xs| && f(xs[idx[k]]) == Some(Collected(f, xs)[k])
    ensures forall k, l :: 0 <= k < l < |idx| ==> idx[k] < idx[l]
    ensures forall i :: 0 <= i < |xs| ==> (i in idx <==> f(xs[i]).Some?)
  {
    if |xs| == 0 {
      idx := [];
    } else {
      var init, last := xs[..|xs| - 1], xs[|xs| - 1];
      var prior := CollectedRows(f, init);
      forall i | 0 <= i < |init| ensures init[i] == xs[i] { }
      if f(last).Some? {
        idx := prior + [|init|];
        assert Collected(f, xs) == Collected(f, init) + [f(last).value];
        forall i | 0 <= i < |xs| ensures i in idx <==> f(xs[i]).Some? {
          assert i in idx <==> i in prior || i == |init|;
        }
      } else {
        idx := prior;
        assert Collected(f, xs) == Collected(f, init);
        forall i | 0 <= i < |xs| ensures i in idx <==> f(xs[i]).Some? {
          assert i == |init| ==> i !in prior;
        }
      }
    }
  }

  /** The output of `prepare_data` is the input with the failing rows dropped: an increasing
      choice of input rows, cleaned, which leaves out exactly the rows whose cleaning raises. */
  lemma PreparedRows(data: seq<Dict>) returns (idx: seq<nat>)
    ensures |idx| == |Prepared(data)|
    ensures forall k :: 0 <= k < |idx| ==> idx[k] < |data| && PrepareRow(data[idx[k]]) == Some(Prepared(data)[k])
    ensures forall k, l :: 0 <= k < l < |idx| ==> idx[k] < idx[l]
    ensures forall i :: 0 <= i < |data| ==> (i in idx <==> PrepareRow(data[i]).Some?)
  {
    idx := CollectedRows(PrepareRow, data);
  }

  /** Every row `prepare_data` returns carries the five columns and no personal data. */
  lemma PreparedPrivacy(data: seq<Dict>, k: nat)
    requires k < |Prepared(data)|
    ensures Keys(Prepared(data)[k]) == Columns
  {
    var idx := PreparedRows(data);
    PrepareRowKeys(data[idx[k]]);
  }

  /** A row passes exactly when every field in `fields` is filled in. */
  lemma {:induction false} FieldsFilledIff(d: Dict, fields: seq<string>)
    ensures FieldsFilled(d, fields) == Success(true) <==> forall k :: 0 <= k < |fields| ==> Filled(d, fields[k])
  {
    if |fields| > 0 {
      FieldsFilledIff(d, fields[1..]);
      assert forall k :: 1 <= k < |fields| ==> fields[k] == fields[1..][k - 1];
    }
  }

  /** A row is valid exactly when timestamp, location, items, total_cost and payment_method
      are each present and not blank. */
  lemma RowValidIff(d: Dict)
    ensures RowCheck(d) == Success(true) <==>
      Filled(d, "timestamp") && Filled(d, "location") && Filled(d, "items") && Filled(d, "total_cost")
      && Filled(d, "payment_method")
  {
    FieldsFilledIff(d, Columns);
    assert Columns[0] == "timestamp" && Columns[1] == "location" && Columns[2] == "items";
    assert Columns[3] == "total_cost" && Columns[4] == "payment_method";
  }

  /** When no check raises, every row lands in exactly one of the two lists. */
  lemma {:induction false} Partition(data: seq<Dict>)
    requires CheckError(data).None?
    ensures |Filter(data, true)| + |Filter(data, false)| == |data|
    ensures multiset(Filter(data, true)) + multiset(Filter(data, false)) == multiset(data)
  {
    if |data| > 0 {
      var init := data[..|data| - 1];
      var last := data[|data| - 1];
      assert CheckError(init).None? && RowCheck(last).Success?;
      Partition(init);
      assert data == init + [last];
      if RowCheck(last).value {
        assert Filter(data, true) == Filter(init, true) + [last] && Filter(data, false) == Filter(init, false);
      } else {
        assert Filter(data, false) == Filter(init, false) + [last] && Filter(data, true) == Filter(init, true);
      }
    }
  }

  /** Each list keeps its rows in input order, and holds exactly the rows whose check gives
      its verdict. */
  lemma {:induction false} FilterRows(data: seq<Dict>, valid: bool) returns (idx: seq<nat>)
    ensures |idx| == |Filter(data, valid)|
    ensures forall k :: 0 <= k < |idx| ==> idx[k] < |data| && Filter(data, valid)[k] == data[idx[k]]
    ensures forall k, l :: 0 <= k < l < |idx| ==> idx[k] < idx[l]
    ensures forall i :: 0 <= i < |data| ==> (i in idx <==> RowCheck(data[i]) == Success(valid))
  {
    if |data| == 0 {
      idx := [];
    } else {
      var init := data[..|data| - 1];
      idx := FilterRows(init, valid);
      if RowCheck(data[|data| - 1]) == Success(valid) {
        idx := idx + [|data| - 1];
      }
    }
  }
}
