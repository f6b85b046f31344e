/**
 * The first two stages of the pipeline in `etl.py`.
 *
 * `extract` keys each record of the CSV reader by the seven column names, after dropping the
 * header record; the reader itself (tokenising text into records) is not modelled, so the
 * input is the list of records it yields, each a list of field texts. The reader skips
 * records with no fields at all, and fills the columns a short record lacks with None.
 *
 * `transform` rewrites each row in place: the items text becomes the list of parsed items,
 * the total cost becomes a number, the timestamp is rewritten from `DD/MM/YYYY HH:MM` to
 * `YYYY-MM-DD HH:MM:SS`, and the customer's name and card number are removed. An exception
 * leaves the loop at once, so the rows before it are rewritten, the failing row partly, and
 * the rows after it not at all.
 */
module Etl {

  import opened Wrappers
  import opened Text
  import opened Decimal
  import opened Timestamps
  import opened ItemParser
  import opened Values

  const ColumnNames: seq<string> :=
    ["timestamp", "location", "customer_name", "items", "total_cost", "payment_method", "credit_card"]

  // ---------------------------------------------------------------- extract

  /** The records the reader hands out: it passes over the ones with no field. */
  function NonBlank(records: seq<seq<string>>): (r: seq<seq<string>>)
    ensures |r| <= |records|
    ensures Subsequence(r, records)
  {
    if |records| == 0 then []
    else
      var rest := NonBlank(records[1..]);
      if |records[0]| == 0 then rest
      else
        assert ([records[0]] + rest)[1..] == rest;
        [records[0]] + rest
  }

  /** The records handed out are the input's non-empty records, each occurrence once, in
      input order: the j-th comes from place `idx[j]`, and the places are exactly those of
      the records with a field. */
  lemma {:induction false} NonBlankOrder(records: seq<seq<string>>) returns (idx: seq<nat>)
    ensures |idx| == |NonBlank(records)|
    ensures forall j :: 0 <= j < |idx| ==> idx[j] < |records| && records[idx[j]] == NonBlank(records)[j]
    ensures forall j, l :: 0 <= j < l < |idx| ==> idx[j] < idx[l]
    ensures forall i :: 0 <= i < |records| ==> (i in idx <==> |records[i]| > 0)
  {
    idx := NonBlankPlaces(records);
  }

  /** `idx` lists, in increasing order, the places of the records with a field, and `out`
      holds those records. */
  predicate Places(idx: seq<nat>, records: seq<seq<string>>, out: seq<seq<string>>) {
    && |idx| == |out|
    && (forall j :: 0 <= j < |idx| ==> idx[j] < |records| && records[idx[j]] == out[j])
    && (forall j, l :: 0 <= j < l < |idx| ==> idx[j] < idx[l])
    && (forall i :: 0 <= i < |records| ==> (i in idx <==> |records[i]| > 0))
  }

  lemma {:induction false} NonBlankPlaces(records: seq<seq<string>>) returns (idx: seq<nat>)
    ensures Places(idx, records, NonBlank(records))
  {
    if |records| == 0 {
      idx := [];
    } else {
      var prior := NonBlankPlaces(records[1..]);
      if |records[0]| == 0 {
        idx := PlacesAfterBlank(records, prior);
      } else {
        idx := PlacesAfterField(records, prior);
      }
    }
  }

  lemma PlacesAfterBlank(records: seq<seq<string>>, prior: seq<nat>) returns (idx: seq<nat>)
    requires |records| > 0 && |records[0]| == 0
    requires Places(prior, records[1..], NonBlank(records[1..]))
    ensures Places(idx, records, NonBlank(records))
  {
    var tail := records[1..];
    idx := Shifted(prior);
    forall i | 1 <= i < |records| ensures records[i] == tail[i - 1] { }
  }

  lemma PlacesAfterField(records: seq<seq<string>>, prior: seq<nat>) returns (idx: seq<nat>)
    requires |records| > 0 && |records[0]| > 0
    requires Places(prior, records[1..], NonBlank(records[1..]))
    ensures Places(idx, records, NonBlank(records))
  {
    var tail := records[1..];
    var shifted := Shifted(prior);
    forall i | 1 <= i < |records| ensures records[i] == tail[i - 1] { }
    idx := [0] + shifted;
    assert NonBlank(records) == [records[0]] + NonBlank(tail);
    forall j | 1 <= j < |idx| ensures idx[j] == prior[j - 1] + 1 { }
    forall i | 0 <= i < |records| ensures i in idx <==> |records[i]| > 0 {
      assert i in idx <==> i == 0 || i in shifted;
    }
  }

  /** Every place moved one on: how places in the rest of a list become places in the list. */
  lemma Shifted(places: seq<nat>) returns (moved: seq<nat>)
    ensures |moved| == |places|
    ensures forall j :: 0 <= j < |places| ==> moved[j] == places[j] + 1
    ensures forall i: nat :: i in moved <==> i > 0 && i - 1 in places
  {
    moved := seq(|places|, j requires 0 <= j < |places| => places[j] + 1);
    forall i: nat | i in moved ensures i > 0 && i - 1 in places {
      var j :| 0 <= j < |moved| && moved[j] == i;
      assert places[j] == i - 1;
    }
    forall i: nat | i > 0 && i - 1 in places ensures i in moved {
      var j :| 0 <= j < |places| && places[j] == i - 1;
      assert moved[j] == i;
    }
  }

  /** The reader hands out exactly the records that have a field. */
  lemma {:induction false} NonBlankMembers(records: seq<seq<string>>)
    ensures forall rec :: rec in NonBlank(records) <==> rec in records && |rec| > 0
  {
    if |records| > 0 {
      NonBlankMembers(records[1..]);
      assert records == [records[0]] + records[1..];
    }
  }

  /** One record keyed by the column names; a missing field is None. */
  function KeyRecord(record: seq<string>): Dict {
    seq(|ColumnNames|, i requires 0 <= i < |ColumnNames| =>
      (ColumnNames[i], if i < |record| then Str(record[i]) else Null))
  }

  /** `extract`: skip the header, key the rest. On input with no record, `next(reader)`
      raises StopIteration. */
  function Extract(records: seq<seq<string>>): (r: Result<seq<Dict>, Error>)
    ensures r.Failure? <==> NonBlank(records) == []
    ensures r.Failure? ==> r.error == StopIteration
    ensures r.Success? ==> |r.value| == |NonBlank(records)| - 1
  {
    var rows := NonBlank(records);
    if |rows| == 0 then Failure(StopIteration)
    else Success(seq(|rows| - 1, j requires 0 <= j < |rows| - 1 => KeyRecord(rows[j + 1])))
  }

  lemma ColumnNamesUnique(record: seq<string>)
    ensures Keys(KeyRecord(record)) == ColumnNames && UniqueKeys(KeyRecord(record))
  {
    var d := KeyRecord(record);
    assert d[0].0 == "timestamp" && d[1].0 == "location" && d[2].0 == "customer_name";
    assert d[3].0 == "items" && d[4].0 == "total_cost" && d[5].0 == "payment_method";
    assert d[6].0 == "credit_card";
  }

  /** A keyed record holds every column, in the order of the column names, under it the
      record's field, or None where the record is too short. */
  lemma KeyRecordGet(record: seq<string>, c: nat)
    requires c < |ColumnNames|
    ensures Keys(KeyRecord(record)) == ColumnNames
    ensures Get(KeyRecord(record), ColumnNames[c]) == Some(if c < |record| then Str(record[c]) else Null)
  {
    ColumnNamesUnique(record);
    GetAt(KeyRecord(record), c);
  }

  /** Row `j` of the result is the record after the header and `j` further non-empty records,
      keyed by the column names. */
  lemma ExtractRow(records: seq<seq<string>>, j: nat, c: nat)
    requires Extract(records).Success? && j < |Extract(records).value| && c < |ColumnNames|
    ensures Keys(Extract(records).value[j]) == ColumnNames
    ensures var record := NonBlank(records)[j + 1];
      Get(Extract(records).value[j], ColumnNames[c]) == Some(if c < |record| then Str(record[c]) else Null)
  {
    KeyRecordGet(NonBlank(records)[j + 1], c);
  }

  // ---------------------------------------------------------------- transform

  /** `parse_items(row.get("items", ""))`: a value that has no `split` makes parse_items raise
      AttributeError inside its own handler, which returns the empty list. */
  function ItemsOf(v: Option<Value>): seq<Item> {
    match v
    case None => ParsedItems("")
    case Some(Str(s)) => ParsedItems(s)
    case Some(_) => []
  }

  /** `float(row.get("total_cost", 0.0))` */
  function CostOf(v: Option<Value>): (r: Result<Value, Error>)
    ensures r.Success? ==> r.value.Num?
  {
    match v
    case None => Success(Num(0.0))
    case Some(Str(s)) =>
      (match PyFloat(s)
       case None => Failure(ValueError)
       case Some(x) => Success(Num(x)))
    case Some(Num(x)) => Success(Num(x))
    case Some(Int(n)) => Success(Num(n as real))
    case Some(_) => Failure(TypeError)
  }

  /** `datetime.strptime(row["timestamp"], "%d/%m/%Y %H:%M").strftime("%Y-%m-%d %H:%M:%S")` */
  function StampOf(v: Option<Value>): (r: Result<Value, Error>)
    ensures r.Success? ==> r.value.Str?
  {
    match v
    case None => Failure(KeyError("timestamp"))
    case Some(Str(s)) =>
      (match Reformat(s)
       case None => Failure(ValueError)
       case Some(t) => Success(Str(t)))
    case Some(_) => Failure(TypeError)
  }

  /** The statements of the loop body of `transform`, each of which either rewrites the row
      or raises. The body is kept as this list of five statements rather than written out:
      `ExecStmt` runs one statement on the row object in place and `Exec` says what it does
      to a dictionary, so the method `TransformOne` and the reference function `TransformRow`
      share one definition of each statement and are proved equal one statement at a time,
      which keeps each proof small. `Unrolled` states the body written out directly, in
      source order. */
  datatype Stmt =
    | ParseItemsField       // row["items"] = parse_items(row.get("items", ""))
    | ConvertTotal          // row["total_cost"] = float(row.get("total_cost", 0.0))
    | ReformatStamp         // row["timestamp"] = datetime.strptime(...).strftime(...)
    | Discard(key: string)  // row.pop(key, None)

  const LoopBody: seq<Stmt> :=
    [ParseItemsField, ConvertTotal, ReformatStamp, Discard("credit_card"), Discard("customer_name")]

  /** One statement on a row: the row it leaves, or the exception it raises (the right-hand
      side is evaluated before the assignment, so a raising statement changes nothing). */
  function Exec(st: Stmt, d: Dict): Result<Dict, Error> {
    match st
    case ParseItemsField => Success(Put(d, "items", Items(ItemsOf(Get(d, "items")))))
    case ConvertTotal =>
      (match CostOf(Get(d, "total_cost"))
       case Failure(e) => Failure(e)
       case Success(cost) => Success(Put(d, "total_cost", cost)))
    case ReformatStamp =>
      (match StampOf(Get(d, "timestamp"))
       case Failure(e) => Failure(e)
       case Success(stamp) => Success(Put(d, "timestamp", stamp)))
    case Discard(k) => Success(Pop(d, k))
  }

  /** A block of statements on a row: the row as it is left, and the exception raised, if any. */
  function ExecAll(body: seq<Stmt>, d: Dict): (Dict, Option<Error>) {
    if |body| == 0 then (d, None)
    else
      match Exec(body[0], d)
      case Failure(e) => (d, Some(e))
      case Success(d') => ExecAll(body[1..], d')
  }

  /** One pass of the loop body on a row. */
  function TransformRow(d: Dict): (Dict, Option<Error>) {
    ExecAll(LoopBody, d)
  }

  /** A loop over the rows that runs `step` on each in turn until one raises: that row is left
      as the step left it, and the rows after it are untouched. */
  function RunRows(step: Dict -> (Dict, Option<Error>), ds: seq<Dict>): (r: (seq<Dict>, Option<Error>))
    ensures |r.0| == |ds|
  {
    if |ds| == 0 then ([], None)
    else
      var (d, e) := step(ds[0]);
      if e.Some? then ([d] + ds[1..], e)
      else
        var (rest, e') := RunRows(step, ds[1..]);
        ([d] + rest, e')
  }

  /** What `transform` leaves in the rows, and what it raises. */
  function TransformAll(ds: seq<Dict>): (seq<Dict>, Option<Error>) {
    RunRows(TransformRow, ds)
  }

  /** One statement of the loop body, run on a row in place. */
  method ExecStmt(row: Row, st: Stmt) returns (raised: Option<Error>)
    modifies row
    ensures match Exec(st, old(row.fields))
      case Success(d) => row.fields == d && raised.None?
      case Failure(e) => row.fields == old(row.fields) && raised == Some(e)
  {
    raised := None;
    match st
    case ParseItemsField =>
      var v := Get(row.fields, "items");
      var items: seq<Item>;
      if v.None? {
        items := ParseItems("");
      } else if v.value.Str? {
        items := ParseItems(v.value.s);
      } else {
        items := [];
      }
      row.fields := Put(row.fields, "items", Items(items));
    case ConvertTotal =>
      var cost := CostOf(Get(row.fields, "total_cost"));
      if cost.Failure? {
        raised := Some(cost.error);
      } else {
        row.fields := Put(row.fields, "total_cost", cost.value);
      }
    case ReformatStamp =>
      var stamp := StampOf(Get(row.fields, "timestamp"));
      if stamp.Failure? {
        raised := Some(stamp.error);
      } else {
        row.fields := Put(row.fields, "timestamp", stamp.value);
      }
    case Discard(k) =>
      row.fields := Pop(row.fields, k);
  }

  /** The loop body of `transform` on one row: its statements in order, up to the first that
      raises. */
  method TransformOne(row: Row) returns (raised: Option<Error>)
    modifies row
    ensures (row.fields, raised) == TransformRow(old(row.fields))
  {
    ghost var d0 := row.fields;
    raised := ExecStmt(row, ParseItemsField);
    assert ExecAll(LoopBody, d0) == ExecAll(LoopBody[1..], row.fields);
    raised := ExecStmt(row, ConvertTotal);
    if raised.Some? {
      return;
    }
    assert ExecAll(LoopBody, d0) == ExecAll(LoopBody[2..], row.fields) by {
      assert LoopBody[1..][0] == ConvertTotal && LoopBody[1..][1..] == LoopBody[2..];
    }
    raised := ExecStmt(row, ReformatStamp);
    if raised.Some? {
      return;
    }
    assert ExecAll(LoopBody, d0) == ExecAll(LoopBody[3..], row.fields) by {
      assert LoopBody[2..][0] == ReformatStamp && LoopBody[2..][1..] == LoopBody[3..];
    }
    raised := ExecStmt(row, Discard("credit_card"));
    assert ExecAll(LoopBody, d0) == ExecAll(LoopBody[4..], row.fields) by {
      assert LoopBody[3..][0] == Discard("credit_card") && LoopBody[3..][1..] == LoopBody[4..];
    }
    raised := ExecStmt(row, Discard("customer_name"));
    assert ExecAll(LoopBody, d0) == (row.fields, None) by {
      assert LoopBody[4..][0] == Discard("customer_name") && LoopBody[4..][1..] == [];
      assert ExecAll(LoopBody[4..][1..], row.fields) == (row.fields, None);
    }
  }

  /** The rows after the one at place `i` raised: those before it done, it as left, and
      those after it untouched. */
  lemma Spliced(out: seq<Dict>, done: seq<Dict>, x: Dict, before: seq<Dict>, i: nat)
    requires |done| == i < |out| == |before|
    requires forall k :: 0 <= k < i ==> out[k] == done[k]
    requires out[i] == x
    requires forall k :: i < k < |out| ==> out[k] == before[k]
    ensures out == done + [x] + before[i + 1..]
  {
    var expected := done + [x] + before[i + 1..];
    forall k | 0 <= k < |out| ensures out[k] == expected[k] {
      if k > i {
        assert expected[k] == before[i + 1..][k - i - 1];
      }
    }
  }

  /** `transform(data)`: rewrites the rows in place and returns the same list. */
  method Transform(data: seq<Row>) returns (result: seq<Row>, raised: Option<Error>)
    requires forall i, j :: 0 <= i < j < |data| ==> data[i] != data[j]
    modifies set r | r in data
    ensures result == data
    ensures (Contents(data), raised) == TransformAll(old(Contents(data)))
  {
    ghost var before := Contents(data);
    ghost var done: seq<Dict> := [];
    result := data;
    var i := 0;
    while i < |data|
      invariant 0 <= i <= |data| && |done| == i && |before| == |data|
      invariant forall j :: 0 <= j < i ==> data[j].fields == done[j]
      invariant forall j :: i <= j < |data| ==> data[j].fields == before[j]
      invariant forall j :: 0 <= j < i ==> TransformRow(before[j]) == (done[j], None)
    {
      var row := data[i];
      assert forall j :: 0 <= j < |data| && j != i ==> data[j] != row;
      label BeforeRow:
      raised := TransformOne(row);
      assert forall j :: 0 <= j < |data| && j != i ==> data[j].fields == old@BeforeRow(data[j].fields);
      if raised.Some? {
        Spliced(Contents(data), done, row.fields, before, i);
        RunStopsAt(TransformRow, before, done, i);
        return;
      }
      done := done + [data[i].fields];
      i := i + 1;
    }
    raised := None;
    assert Contents(data) == done;
    RunAllPass(TransformRow, before, done);
  }

  // ---------------------------------------------------------------- transform: properties

  /** The loop body statement by statement: each assignment in turn, the first that raises
      ending it. */
  lemma Unrolled(d: Dict)
    ensures TransformRow(d) ==
      var d1 := Put(d, "items", Items(ItemsOf(Get(d, "items"))));
      match CostOf(Get(d1, "total_cost"))
      case Failure(e) => (d1, Some(e))
      case Success(cost) =>
        var d2 := Put(d1, "total_cost", cost);
        match StampOf(Get(d2, "timestamp"))
        case Failure(e) => (d2, Some(e))
        case Success(stamp) =>
          (Pop(Pop(Put(d2, "timestamp", stamp), "credit_card"), "customer_name"), None)
  {
    var d1 := Put(d, "items", Items(ItemsOf(Get(d, "items"))));
    assert TransformRow(d) == ExecAll(LoopBody[1..], d1);
    ConvertThenRest(d1);
    var cost := CostOf(Get(d1, "total_cost"));
    if cost.Success? {
      ReformatThenDiscard(Put(d1, "total_cost", cost.value));
    }
  }

  /** The loop body from the cost conversion on. */
  lemma ConvertThenRest(d1: Dict)
    ensures var cost := CostOf(Get(d1, "total_cost"));
      ExecAll(LoopBody[1..], d1) ==
        if cost.Failure? then (d1, Some(cost.error)) else ExecAll(LoopBody[2..], Put(d1, "total_cost", cost.value))
  {
    assert LoopBody[1..][0] == ConvertTotal && LoopBody[1..][1..] == LoopBody[2..];
  }

  /** The loop body from the timestamp rewrite on. */
  lemma ReformatThenDiscard(d2: Dict)
    ensures var stamp := StampOf(Get(d2, "timestamp"));
      ExecAll(LoopBody[2..], d2) ==
        if stamp.Failure? then (d2, Some(stamp.error))
        else (Pop(Pop(Put(d2, "timestamp", stamp.value), "credit_card"), "customer_name"), None)
  {
    assert LoopBody[2..][0] == ReformatStamp && LoopBody[2..][1..] == LoopBody[3..];
    var stamp := StampOf(Get(d2, "timestamp"));
    if stamp.Success? {
      var d3 := Put(d2, "timestamp", stamp.value);
      var d4 := Pop(d3, "credit_card");
      assert LoopBody[3..][0] == Discard("credit_card") && LoopBody[3..][1..] == LoopBody[4..];
      assert ExecAll(LoopBody[3..], d3) == ExecAll(LoopBody[4..], d4);
      assert LoopBody[4..][0] == Discard("customer_name") && LoopBody[4..][1..] == [];
      assert ExecAll(LoopBody[4..][1..], Pop(d4, "customer_name")) == (Pop(d4, "customer_name"), None);
    }
  }

  /** The exception of the loop body depends only on the row's own total cost and timestamp,
      the total cost being converted first. */
  lemma TransformRowError(d: Dict)
    ensures var cost, stamp := CostOf(Get(d, "total_cost")), StampOf(Get(d, "timestamp"));
      TransformRow(d).1 ==
        if cost.Failure? then Some(cost.error) else if stamp.Failure? then Some(stamp.error) else None
  {
    Unrolled(d);
    var d1 := Put(d, "items", Items(ItemsOf(Get(d, "items"))));
    GetPut(d, "items", Items(ItemsOf(Get(d, "items"))), "total_cost");
    GetPut(d, "items", Items(ItemsOf(Get(d, "items"))), "timestamp");
    var cost := CostOf(Get(d1, "total_cost"));
    if cost.Success? {
      GetPut(d1, "total_cost", cost.value, "timestamp");
    }
  }

  /** A row that comes through the loop body holds the parsed items, the number and the
      rewritten timestamp, has lost the customer's name and card number, and keeps every other
      key as it was. */
  lemma TransformRowGet(d: Dict, k: string)
    requires CostOf(Get(d, "total_cost")).Success? && StampOf(Get(d, "timestamp")).Success?
    ensures Get(TransformRow(d).0, k) ==
      if k == "customer_name" || k == "credit_card" then None
      else if k == "timestamp" then Some(StampOf(Get(d, "timestamp")).value)
      else if k == "total_cost" then Some(CostOf(Get(d, "total_cost")).value)
      else if k == "items" then Some(Items(ItemsOf(Get(d, "items"))))
      else Get(d, k)
  {
    Unrolled(d);
    var d1 := Put(d, "items", Items(ItemsOf(Get(d, "items"))));
    GetPut(d, "items", Items(ItemsOf(Get(d, "items"))), "total_cost");
    GetPut(d, "items", Items(ItemsOf(Get(d, "items"))), k);
    var cost := CostOf(Get(d1, "total_cost"));
    var d2 := Put(d1, "total_cost", cost.value);
    GetPut(d1, "total_cost", cost.value, "timestamp");
    GetPut(d, "items", Items(ItemsOf(Get(d, "items"))), "timestamp");
    GetPut(d1, "total_cost", cost.value, k);
    var stamp := StampOf(Get(d2, "timestamp"));
    var d3 := Put(d2, "timestamp", stamp.value);
    var d4 := Pop(d3, "credit_card");
    GetPut(d2, "timestamp", stamp.value, k);
    GetPop(d3, "credit_card", k);
    GetPop(d4, "customer_name", k);
  }

  /** A row that comes through the loop body carries neither the customer's name nor the card
      number, whether or not it had them. */
  lemma RowPrivacy(d: Dict)
    requires TransformRow(d).1.None?
    ensures "customer_name" !in Keys(TransformRow(d).0) && "credit_card" !in Keys(TransformRow(d).0)
  {
    TransformRowError(d);
    TransformRowGet(d, "customer_name");
    TransformRowGet(d, "credit_card");
    GetKeys(TransformRow(d).0, "customer_name");
    GetKeys(TransformRow(d).0, "credit_card");
  }

  /** When no row raises, every row has been through the step, in order. */
  lemma {:induction false} RunSucceeded(step: Dict -> (Dict, Option<Error>), ds: seq<Dict>)
    requires RunRows(step, ds).1.None?
    ensures forall j :: 0 <= j < |ds| ==> step(ds[j]) == (RunRows(step, ds).0[j], None)
  {
    if |ds| > 0 {
      RunSucceeded(step, ds[1..]);
      var out := RunRows(step, ds).0;
      assert out[1..] == RunRows(step, ds[1..]).0;
      forall j | 0 < j < |ds| ensures step(ds[j]) == (out[j], None) {
        assert ds[j] == ds[1..][j - 1] && out[j] == out[1..][j - 1];
      }
    }
  }

  /** When a row raises, it is the first row whose step raises: the rows before it have been
      through the step, it is left as the step left it, and the rows after it are untouched. */
  lemma {:induction false} RunFailed(step: Dict -> (Dict, Option<Error>), ds: seq<Dict>) returns (p: nat)
    requires RunRows(step, ds).1.Some?
    ensures p < |ds|
    ensures forall j :: 0 <= j < p ==> step(ds[j]) == (RunRows(step, ds).0[j], None)
    ensures step(ds[p]) == (RunRows(step, ds).0[p], RunRows(step, ds).1)
    ensures RunRows(step, ds).0[p + 1..] == ds[p + 1..]
  {
    var out := RunRows(step, ds).0;
    if step(ds[0]).1.Some? {
      p := 0;
    } else {
      var q := RunFailed(step, ds[1..]);
      p := q + 1;
      assert out[1..] == RunRows(step, ds[1..]).0;
      forall j | 0 <= j < p ensures step(ds[j]) == (out[j], None) {
        if j > 0 {
          assert ds[j] == ds[1..][j - 1] && out[j] == out[1..][j - 1];
        }
      }
      assert out[p + 1..] == out[1..][q + 1..];
    }
  }

  /** Conversely, when every row passes the step, the loop has put every row through it and
      raises nothing. */
  lemma {:induction false} RunAllPass(step: Dict -> (Dict, Option<Error>), ds: seq<Dict>, outs: seq<Dict>)
    requires |outs| == |ds|
    requires forall j :: 0 <= j < |ds| ==> step(ds[j]) == (outs[j], None)
    ensures RunRows(step, ds) == (outs, None)
  {
    if |ds| > 0 {
      forall j | 0 <= j < |ds| - 1 ensures step(ds[1..][j]) == (outs[1..][j], None) {
        assert ds[1..][j] == ds[j + 1];
      }
      RunAllPass(step, ds[1..], outs[1..]);
      assert [outs[0]] + outs[1..] == outs;
    }
  }

  /** Conversely, when the rows before place `p` pass the step and the row at `p` raises, the
      loop stops there: the rows before it done, it as the step left it, the rest untouched. */
  lemma {:induction false} RunStopsAt(step: Dict -> (Dict, Option<Error>), ds: seq<Dict>, outs: seq<Dict>, p: nat)
    requires p < |ds| && |outs| == p
    requires forall j :: 0 <= j < p ==> step(ds[j]) == (outs[j], None)
    requires step(ds[p]).1.Some?
    ensures RunRows(step, ds) == (outs + [step(ds[p]).0] + ds[p + 1..], step(ds[p]).1)
  {
    if p == 0 {
      assert [] + [step(ds[0]).0] + ds[1..] == [step(ds[0]).0] + ds[1..];
    } else {
      forall j | 0 <= j < p - 1 ensures step(ds[1..][j]) == (outs[1..][j], None) {
        assert ds[1..][j] == ds[j + 1];
      }
      assert ds[1..][p - 1] == ds[p] && ds[1..][p..] == ds[p + 1..];
      RunStopsAt(step, ds[1..], outs[1..], p - 1);
      assert [outs[0]] + (outs[1..] + [step(ds[p]).0] + ds[p + 1..]) == outs + [step(ds[p]).0] + ds[p + 1..];
    }
  }

  /** The privacy boundary: after a transform that raises nothing, no row holds a customer's
      name or a card number. */
  lemma TransformPrivacy(ds: seq<Dict>)
    requires TransformAll(ds).1.None?
    ensures forall j :: 0 <= j < |ds| ==>
      "customer_name" !in Keys(TransformAll(ds).0[j]) && "credit_card" !in Keys(TransformAll(ds).0[j])
  {
    RunSucceeded(TransformRow, ds);
    forall j | 0 <= j < |ds|
      ensures "customer_name" !in Keys(TransformAll(ds).0[j]) && "credit_card" !in Keys(TransformAll(ds).0[j])
    {
      RowPrivacy(ds[j]);
    }
  }
}
