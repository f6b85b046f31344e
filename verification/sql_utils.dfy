/**
 * The batch loader: one parameterised INSERT for a whole table, the identity column left for
 * the database to fill, committed as one unit and rolled back, with the error raised again,
 * when the database refuses it.
 */
module SqlUtils {

  import opened Wrappers
  import opened Text
  import opened Values
  import opened Connection

  /** The identity column of each known table, which the database numbers itself. */
  function ExcludedColumns(table: string): seq<string> {
    if table == "branches" then ["branch_id"]
    else if table == "transactions" then ["payment_id"]
    else if table == "products" then ["product_id"]
    else if table == "product_transactions" then ["product_transactions_id"]
    else []
  }

  /** The row without the entries whose keys are excluded, the others kept in order. */
  function FilterRow(row: Dict, excluded: seq<string>): (kept: Dict)
    ensures |kept| <= |row|
    ensures forall k :: k in Keys(kept) <==> k in Keys(row) && k !in excluded
    ensures Subsequence(kept, row)
  {
    if |row| == 0 then []
    else
      var rest := FilterRow(row[1..], excluded);
      assert Keys(row) == [row[0].0] + Keys(row[1..]);
      if row[0].0 in excluded then rest
      else
        assert Keys([row[0]] + rest) == [row[0].0] + Keys(rest);
        assert ([row[0]] + rest)[1..] == rest;
        [row[0]] + rest
  }

  /** Every row of the batch with the excluded columns removed. */
  function Filtered(data: seq<Dict>, excluded: seq<string>): (filtered: seq<Dict>)
    ensures |filtered| == |data|
    ensures forall i :: 0 <= i < |data| ==> filtered[i] == FilterRow(data[i], excluded)
  {
    seq(|data|, i requires 0 <= i < |data| => FilterRow(data[i], excluded))
  }

  /** The value tuple of every row, in its key order, as handed to the driver. */
  function Rows(filtered: seq<Dict>): (rows: seq<seq<Value>>)
    ensures |rows| == |filtered|
    ensures forall i :: 0 <= i < |filtered| ==> rows[i] == Values.Values(filtered[i])
  {
    seq(|filtered|, i requires 0 <= i < |filtered| => Values.Values(filtered[i]))
  }

  /** `INSERT INTO table (columns) VALUES (placeholders)`, each list joined with ", ". */
  function InsertQuery(table: string, columns: seq<string>, placeholders: seq<string>): string {
    "INSERT INTO " + table + " (" + Join(columns, ", ") + ") VALUES (" + Join(placeholders, ", ") + ")"
  }

  /** The batch statement: the first filtered row's columns, one positional `%s` for each. */
  function BatchQuery(table: string, first: Dict): string {
    InsertQuery(table, Keys(first), Repeat("%s", |first|))
  }

  /** The calls the batch loader makes, on a connection whose record holds `n` calls and which
      refuses the calls at the places in `refused`, and what it raises. */
  function SaveTrace(table: string, data: seq<Dict>, refused: set<nat>, n: nat): (r: (seq<Call>, Option<Error>))
    ensures |data| == 0 ==> r == ([], None)
    ensures |data| > 0 ==>
      && |r.0| >= 2 && r.0[0].ExecuteMany?
      && r.0[0].query == BatchQuery(table, Filtered(data, ExcludedColumns(table))[0])
      && r.0[0].rows == Rows(Filtered(data, ExcludedColumns(table)))
    ensures r.1.None? <==> |data| == 0 || (n !in refused && n + 1 !in refused)
    ensures r.1.None? && |data| > 0 ==> r.0[1..] == [Commit]
    ensures r.1.Some? ==>
      && r.0[|r.0| - 1] == Rollback
      && r.1 == (if n + |r.0| - 1 in refused then Outcome(refused, n + |r.0| - 1)
                 else Outcome(refused, n + |r.0| - 2))
  {
    if |data| == 0 then ([], None)
    else
      var filtered := Filtered(data, ExcludedColumns(table));
      var insert := ExecuteMany(BatchQuery(table, filtered[0]), Rows(filtered));
      var calls := if n in refused then [insert] else [insert, Commit];
      if n !in refused && n + 1 !in refused then (calls, None)
      else
        var raised := if n + |calls| in refused then Outcome(refused, n + |calls|)
                      else Outcome(refused, n + |calls| - 1);
        (calls + [Rollback], raised)
  }

  /** `save_data_in_db`: nothing for an empty batch; otherwise one `executemany` of every
      row's values under the batch statement and a commit. If the database refuses either,
      the connection is rolled back and the same exception raised again, unless the rollback
      itself is refused, whose exception then escapes instead. */
  method SaveDataInDb(conn: Connection, table: string, data: seq<Dict>) returns (raised: Option<Error>)
    modifies conn
    ensures conn.log == old(conn.log) + SaveTrace(table, data, conn.refused, |old(conn.log)|).0
    ensures raised == SaveTrace(table, data, conn.refused, |old(conn.log)|).1
  {
    if |data| == 0 {
      return None;
    }
    var filtered := Filtered(data, ExcludedColumns(table));
    var query := BatchQuery(table, filtered[0]);
    raised := conn.Perform(ExecuteMany(query, Rows(filtered)));
    if raised.None? {
      raised := conn.Perform(Commit);
    }
    if raised.Some? {
      var again := conn.Perform(Rollback);
      if again.Some? {
        raised := again;
      }
    }
  }

  // ---------------------------------------------------------------- lemmas

  /** A filtered row answers every lookup as the row does, except under an excluded key. */
  lemma {:induction false} FilterGet(row: Dict, excluded: seq<string>, k: string)
    ensures Get(FilterRow(row, excluded), k) == if k in excluded then None else Get(row, k)
  {
    if |row| > 0 {
      FilterGet(row[1..], excluded, k);
      if row[0].0 !in excluded {
        assert ([row[0]] + FilterRow(row[1..], excluded))[1..] == FilterRow(row[1..], excluded);
      }
    }
  }

  /** The keys of a subsequence of a row are a subsequence of the row's keys. */
  lemma {:induction false} KeysOfSubsequence(a: Dict, b: Dict)
    requires Subsequence(a, b)
    ensures Subsequence(Keys(a), Keys(b))
    decreases |b|
  {
    if |a| > 0 {
      assert Keys(b) == [b[0].0] + Keys(b[1..]);
      assert Keys(a) == [a[0].0] + Keys(a[1..]);
      if a[0] == b[0] && Subsequence(a[1..], b[1..]) {
        KeysOfSubsequence(a[1..], b[1..]);
        assert Keys(a)[1..] == Keys(a[1..]);
      } else {
        KeysOfSubsequence(a, b[1..]);
      }
    }
  }

  /** Filtering keeps the keys unique and in the row's order, and rows with the same keys in the same order keep
      the same keys in the same order. */
  lemma {:induction false} FilterKeys(a: Dict, b: Dict, excluded: seq<string>)
    requires Keys(a) == Keys(b)
    ensures Keys(FilterRow(a, excluded)) == Keys(FilterRow(b, excluded))
    ensures UniqueKeys(a) ==> UniqueKeys(FilterRow(a, excluded))
    ensures Subsequence(Keys(FilterRow(a, excluded)), Keys(a))
  {
    FilterSameKeys(a, b, excluded);
    if UniqueKeys(a) {
      FilterUnique(a, excluded);
    }
    KeysOfSubsequence(FilterRow(a, excluded), a);
  }

  lemma {:induction false} FilterSameKeys(a: Dict, b: Dict, excluded: seq<string>)
    requires Keys(a) == Keys(b)
    ensures Keys(FilterRow(a, excluded)) == Keys(FilterRow(b, excluded))
  {
    if |a| > 0 {
      assert |b| == |Keys(b)| == |Keys(a)| == |a|;
      assert Keys(a) == [a[0].0] + Keys(a[1..]);
      assert Keys(b) == [b[0].0] + Keys(b[1..]);
      assert Keys(a[1..]) == Keys(a)[1..] == Keys(b)[1..] == Keys(b[1..]);
      FilterSameKeys(a[1..], b[1..], excluded);
      var ra, rb := FilterRow(a[1..], excluded), FilterRow(b[1..], excluded);
      if a[0].0 !in excluded {
        assert Keys([a[0]] + ra) == [a[0].0] + Keys(ra);
        assert Keys([b[0]] + rb) == [b[0].0] + Keys(rb);
      }
    }
  }

  lemma {:induction false} FilterUnique(a: Dict, excluded: seq<string>)
    requires UniqueKeys(a)
    ensures UniqueKeys(FilterRow(a, excluded))
  {
    if |a| > 0 {
      assert Keys(a) == [a[0].0] + Keys(a[1..]);
      assert UniqueKeys(a[1..]);
      FilterUnique(a[1..], excluded);
      var ra := FilterRow(a[1..], excluded);
      if a[0].0 !in excluded {
        assert Keys([a[0]] + ra) == [a[0].0] + Keys(ra);
        assert a[0].0 !in Keys(ra);
        var f := [a[0]] + ra;
        forall i, j | 0 <= i < j < |f| ensures f[i].0 != f[j].0 {
          if i == 0 {
            assert f[j].0 == Keys(ra)[j - 1];
          } else {
            assert f[i] == ra[i - 1] && f[j] == ra[j - 1];
          }
        }
      }
    }
  }

  /** Each known table loses exactly its identity column, and every other key stays. */
  lemma IdentityExcluded(row: Dict, table: string, k: string)
    requires table in ["branches", "transactions", "products", "product_transactions"]
    ensures var identity := if table == "branches" then "branch_id"
                            else if table == "transactions" then "payment_id"
                            else if table == "products" then "product_id"
                            else "product_transactions_id";
            Get(FilterRow(row, ExcludedColumns(table)), k) == if k == identity then None else Get(row, k)
  {
    FilterGet(row, ExcludedColumns(table), k);
  }

  /** A row none of whose keys is excluded is kept whole; in particular any table other
      than the four known ones keeps its rows whole. */
  lemma {:induction false} NothingExcluded(row: Dict, excluded: seq<string>)
    requires forall i :: 0 <= i < |row| ==> row[i].0 !in excluded
    ensures FilterRow(row, excluded) == row
  {
    if |row| > 0 {
      NothingExcluded(row[1..], excluded);
    }
  }

  /** When every row has the first row's keys in the first row's order, the value at place
      `j` of row `i`'s tuple is that row's value for the statement's `j`-th column, so
      `executemany` puts every value in its own column. */
  lemma RowsMatchColumns(table: string, data: seq<Dict>, i: nat, j: nat)
    requires 0 < |data| && i < |data|
    requires UniqueKeys(data[i]) && Keys(data[i]) == Keys(data[0])
    requires j < |FilterRow(data[0], ExcludedColumns(table))|
    ensures var filtered := Filtered(data, ExcludedColumns(table));
            var column := Keys(filtered[0])[j];
            && |Rows(filtered)[i]| == |filtered[0]|
            && column !in ExcludedColumns(table)
            && Some(Rows(filtered)[i][j]) == Get(data[i], column)
  {
    var excluded := ExcludedColumns(table);
    var filtered := Filtered(data, excluded);
    var f := filtered[i];
    FilterKeys(data[i], data[0], excluded);
    assert |f| == |Keys(f)| == |Keys(filtered[0])| == |filtered[0]|;
    var column := Keys(filtered[0])[j];
    assert column == f[j].0;
    assert column in Keys(FilterRow(data[0], excluded));
    GetAt(f, j);
    FilterGet(data[i], excluded, column);
  }

  /** When no column name holds a comma, the column list and the placeholder list of the
      statement read back, split at the commas, as one piece per column, each naming its
      column and each a `%s`: the statement has as many placeholders as columns. */
  lemma BatchPlaceholders(first: Dict)
    requires |first| > 0
    requires forall k :: 0 <= k < |first| ==> ',' !in first[k].0
    ensures var columns := SplitOn(Join(Keys(first), ", "), ',');
            var placeholders := SplitOn(Join(Repeat("%s", |first|), ", "), ',');
            && |columns| == |placeholders| == |first|
            && columns[0] == first[0].0 && placeholders[0] == "%s"
            && forall k :: 0 < k < |first| ==> columns[k] == " " + first[k].0 && placeholders[k] == " %s"
  {
    assert ", " == [','] + " ";
    SplitJoinPadded(Keys(first), ',', " ");
    SplitJoinPadded(Repeat("%s", |first|), ',', " ");
  }
}
