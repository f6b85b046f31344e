/**
 * The data the pipeline passes around: the values stored in a row, the row dictionary (an
 * insertion-ordered mapping from keys to values, as a Python `dict`), the mutable row object,
 * and the exceptions that the pipeline raises or catches.
 */
module Values {

  import opened Wrappers
  import opened Text
  import opened ItemParser
  import opened Timestamps

  /** A value held under a key of a row. */
  datatype Value =
    | Null                      // None, the CSV reader's filler for missing fields
    | Str(s: string)
    | Int(i: int)
    | Num(x: real)              // a float, read exactly
    | Items(items: seq<Item>)   // the list of item dictionaries of parse_items
    | Stamp(dt: DateTime)       // a datetime object

  /** The exceptions raised along the pipeline. `ProductKeyError` is the KeyError raised with
      an item's (name, variant, size, price) tuple as its key; `DbError` is whatever the
      database driver raises, named by the position of the refused call in the trace. */
  datatype Error =
    | KeyError(key: string)
    | ProductKeyError(product: Item)
    | TypeError
    | ValueError
    | AttributeError
    | StopIteration
    | DbError(position: nat)

  /** A dictionary: its entries in insertion order. */
  type Dict = seq<(string, Value)>

  /** `d.keys()` */
  function Keys(d: Dict): seq<string> {
    seq(|d|, i requires 0 <= i < |d| => d[i].0)
  }

  /** `d.values()` */
  function Values(d: Dict): seq<Value> {
    seq(|d|, i requires 0 <= i < |d| => d[i].1)
  }

  /** No key occurs twice, as in every real dictionary. */
  predicate UniqueKeys(d: Dict) {
    forall i, j :: 0 <= i < j < |d| ==> d[i].0 != d[j].0
  }

  /** `d.get(k)`: the value under `k`, if any. */
  function Get(d: Dict, k: string): Option<Value> {
    if |d| == 0 then None
    else if d[0].0 == k then Some(d[0].1)
    else Get(d[1..], k)
  }

  /** `d.get(k, default)` */
  function GetOr(d: Dict, k: string, default: Value): Value {
    match Get(d, k)
    case Some(v) => v
    case None => default
  }

  /** `d[k] = v`: an existing key keeps its place, a new key goes last. */
  function Put(d: Dict, k: string, v: Value): Dict {
    if |d| == 0 then [(k, v)]
    else if d[0].0 == k then [(k, v)] + d[1..]
    else [d[0]] + Put(d[1..], k, v)
  }

  /** `d.pop(k, None)`: the entry under `k` goes, if there is one. */
  function Pop(d: Dict, k: string): Dict {
    if |d| == 0 then []
    else if d[0].0 == k then Pop(d[1..], k)
    else [d[0]] + Pop(d[1..], k)
  }

  /** A row dictionary that the transformer updates in place. */
  class Row {
    var fields: Dict

    constructor (fields: Dict)
      ensures this.fields == fields
    {
      this.fields := fields;
    }
  }

  /** The dictionaries held by a list of rows. */
  function Contents(rows: seq<Row>): (ds: seq<Dict>)
    reads set r | r in rows
    ensures |ds| == |rows|
    ensures forall i :: 0 <= i < |rows| ==> ds[i] == rows[i].fields
  {
    seq(|rows|, i requires 0 <= i < |rows| reads rows => rows[i].fields)
  }

  // ---------------------------------------------------------------- lemmas

  /** Assignment stores the value, and reading any other key sees what was there before. */
  lemma {:induction false} GetPut(d: Dict, k: string, v: Value, k': string)
    ensures Get(Put(d, k, v), k') == if k' == k then Some(v) else Get(d, k')
  {
    if |d| > 0 && d[0].0 != k {
      GetPut(d[1..], k, v, k');
      assert Put(d, k, v)[1..] == Put(d[1..], k, v);
    }
  }

  /** A lookup finds a value exactly when the key is among the keys, and what it finds is
      stored under that key. */
  lemma {:induction false} GetKeys(d: Dict, k: string)
    ensures Get(d, k).Some? <==> k in Keys(d)
    ensures Get(d, k).Some? ==> exists i :: 0 <= i < |d| && d[i] == (k, Get(d, k).value)
  {
    if |d| > 0 {
      assert Keys(d) == [d[0].0] + Keys(d[1..]);
      if d[0].0 == k {
        assert d[0] == (k, Get(d, k).value);
      } else {
        GetKeys(d[1..], k);
        if Get(d, k).Some? {
          var i :| 0 <= i < |d[1..]| && d[1..][i] == (k, Get(d, k).value);
          assert d[i + 1] == (k, Get(d, k).value);
        }
      }
    }
  }

  /** In a dictionary whose keys are unique, each entry is what a lookup of its key finds. */
  lemma {:induction false} GetAt(d: Dict, i: nat)
    requires UniqueKeys(d) && i < |d|
    ensures Get(d, d[i].0) == Some(d[i].1)
  {
    if i > 0 {
      assert d[0].0 != d[i].0;
      assert UniqueKeys(d[1..]) && d[1..][i - 1] == d[i];
      GetAt(d[1..], i - 1);
    }
  }

  /** Assignment keeps the order of the keys, adding a new key at the end. */
  lemma {:induction false} KeysPut(d: Dict, k: string, v: Value)
    ensures Keys(Put(d, k, v)) == if k in Keys(d) then Keys(d) else Keys(d) + [k]
  {
    if |d| > 0 {
      assert Keys(d) == [d[0].0] + Keys(d[1..]);
      if d[0].0 == k {
        assert Keys(Put(d, k, v)) == [k] + Keys(d[1..]);
      } else {
        KeysPut(d[1..], k, v);
        assert Keys([d[0]] + Put(d[1..], k, v)) == [d[0].0] + Keys(Put(d[1..], k, v));
      }
    }
  }

  /** Removing a key leaves no entry under it and every other entry as it was, in order. */
  lemma {:induction false} GetPop(d: Dict, k: string, k': string)
    ensures Get(Pop(d, k), k') == if k' == k then None else Get(d, k')
  {
    if |d| > 0 {
      GetPop(d[1..], k, k');
      if d[0].0 != k {
        assert Pop(d, k)[1..] == Pop(d[1..], k);
      }
    }
  }

  /** `pop(k, None)` on a key that is not there changes nothing, so it never fails. */
  lemma {:induction false} PopAbsent(d: Dict, k: string)
    requires k !in Keys(d)
    ensures Pop(d, k) == d
  {
    if |d| > 0 {
      assert Keys(d) == [d[0].0] + Keys(d[1..]);
      PopAbsent(d[1..], k);
    }
  }

  /** The keys left after removal are the old keys other than `k`, in order. */
  lemma {:induction false} KeysPop(d: Dict, k: string)
    ensures forall k' :: k' in Keys(Pop(d, k)) <==> k' in Keys(d) && k' != k
  {
    if |d| > 0 {
      KeysPop(d[1..], k);
      assert Keys(d) == [d[0].0] + Keys(d[1..]);
      if d[0].0 != k {
        assert Keys(Pop(d, k)) == [d[0].0] + Keys(Pop(d[1..], k));
      }
    }
  }
}
