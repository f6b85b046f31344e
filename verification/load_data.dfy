/**
 * The row-by-row loader: one INSERT with named parameters for each row, a commit after the
 * last, and on any refusal a rollback whose cause is reported and not raised.
 */
module LoadData {

  import opened Wrappers
  import opened Text
  import opened Values
  import opened Connection
  import opened SqlUtils

  /** `%(key)s` for each key, in order: the driver takes each value from the row by name. */
  function NamedPlaceholders(keys: seq<string>): (placeholders: seq<string>)
    ensures |placeholders| == |keys|
    ensures forall k :: 0 <= k < |keys| ==> placeholders[k] == "%(" + keys[k] + ")s"
  {
    seq(|keys|, k requires 0 <= k < |keys| => "%(" + keys[k] + ")s")
  }

  /** The statement for one row: its keys as the columns, each bound to the row's own value. */
  function NamedInsertQuery(table: string, row: Dict): string {
    InsertQuery(table, Keys(row), NamedPlaceholders(Keys(row)))
  }

  /** The `execute` call for every row, in order. */
  function Executes(table: string, data: seq<Dict>): (calls: seq<Call>)
    ensures |calls| == |data|
    ensures forall i :: 0 <= i < |data| ==> calls[i] == Execute(NamedInsertQuery(table, data[i]), data[i])
  {
    seq(|data|, i requires 0 <= i < |data| => Execute(NamedInsertQuery(table, data[i]), data[i]))
  }

  /** How many of the next `count` calls, from place `n` on, the database accepts before the
      first it refuses. */
  function FirstRefused(refused: set<nat>, n: nat, count: nat): (k: nat)
    ensures k <= count
    ensures forall p :: n <= p < n + k ==> p !in refused
    ensures k < count ==> n + k in refused
  {
    if count == 0 then 0
    else
      var k := FirstRefused(refused, n, count - 1);
      if k < count - 1 then k
      else if n + count - 1 in refused then count - 1
      else count
  }

  /** The calls the row-by-row loader makes, on a connection whose record holds `n` calls and
      which refuses the calls at the places in `refused`, and what escapes it. */
  function InsertTrace(table: string, data: seq<Dict>, refused: set<nat>, n: nat): (r: (seq<Call>, Option<Error>))
    ensures |r.0| >= 1 && r.0[|r.0| - 1] in {Commit, Rollback}
    ensures |r.0| <= |data| + 2
    ensures r.0[|r.0| - 1] == Commit <==> (forall p :: n <= p <= n + |data| ==> p !in refused)
    ensures r.0[|r.0| - 1] == Commit ==> r.0 == Executes(table, data) + [Commit] && r.1 == None
    ensures r.0[|r.0| - 1] == Rollback ==>
      && |r.0| >= 2
      && r.0[..|r.0| - 2] == Executes(table, data)[..|r.0| - 2]
      && n + |r.0| - 2 in refused
      && (forall p :: n <= p < n + |r.0| - 2 ==> p !in refused)
      && r.1 == Outcome(refused, n + |r.0| - 1)
  {
    var executes := Executes(table, data);
    var k := FirstRefused(refused, n, |data|);
    if k < |data| then
      var calls := executes[..k + 1] + [Rollback];
      assert calls[..|calls| - 2] == executes[..k];
      (calls, Outcome(refused, n + k + 1))
    else if n + |data| in refused then
      var calls := executes + [Commit, Rollback];
      assert calls[..|calls| - 2] == executes;
      (calls, Outcome(refused, n + |data| + 1))
    else
      (executes + [Commit], None)
  }

  /** `insert_data`: each row inserted in turn under its own statement, then one commit. The
      first refusal ends the inserts; the connection is then rolled back and the exception
      reported and swallowed, so only a refused rollback raises. */
  method InsertData(conn: Connection, table: string, data: seq<Dict>) returns (raised: Option<Error>)
    modifies conn
    ensures conn.log == old(conn.log) + InsertTrace(table, data, conn.refused, |old(conn.log)|).0
    ensures raised == InsertTrace(table, data, conn.refused, |old(conn.log)|).1
  {
    ghost var n := |conn.log|;
    ghost var k := FirstRefused(conn.refused, n, |data|);
    var i := 0;
    raised := None;
    while i < |data| && raised.None?
      invariant 0 <= i <= |data|
      invariant conn.log == old(conn.log) + Executes(table, data)[..i]
      invariant raised.None? ==> i <= k
      invariant raised.Some? ==> i == k + 1 && k < |data|
      decreases |data| - i
    {
      raised := conn.Perform(Execute(NamedInsertQuery(table, data[i]), data[i]));
      assert Executes(table, data)[..i + 1] == Executes(table, data)[..i] + [Executes(table, data)[i]];
      i := i + 1;
    }
    if raised.None? {
      assert Executes(table, data)[..i] == Executes(table, data);
      raised := conn.Perform(Commit);
    }
    if raised.Some? {
      raised := conn.Perform(Rollback);
    }
  }

  // ---------------------------------------------------------------- lemmas

  /** A refusal at any point is never raised: whatever escapes comes from the rollback, and
      a rollback happens exactly when some insert or the commit was refused. */
  lemma Swallowed(table: string, data: seq<Dict>, refused: set<nat>, n: nat)
    ensures var (calls, raised) := InsertTrace(table, data, refused, n);
            && (Rollback in calls <==> exists p :: n <= p <= n + |data| && p in refused)
            && (raised.Some? ==> calls[|calls| - 1] == Rollback && n + |calls| - 1 in refused)
  {
    var (calls, raised) := InsertTrace(table, data, refused, n);
    var executes := Executes(table, data);
    if calls[|calls| - 1] == Commit {
      assert calls == executes + [Commit];
      assert Rollback !in executes;
    }
  }

  /** When no key holds a comma, the column list and the placeholder list of a row's
      statement read back, split at the commas, as one piece per key, in the row's order:
      the `j`-th placeholder names the `j`-th column. */
  lemma NamedPlaceholdersMatch(row: Dict)
    requires |row| > 0
    requires forall k :: 0 <= k < |row| ==> ',' !in row[k].0
    ensures var columns := SplitOn(Join(Keys(row), ", "), ',');
            var placeholders := SplitOn(Join(NamedPlaceholders(Keys(row)), ", "), ',');
            && |columns| == |placeholders| == |row|
            && columns[0] == row[0].0 && placeholders[0] == "%(" + row[0].0 + ")s"
            && forall k :: 0 < k < |row| ==>
                 columns[k] == " " + row[k].0 && placeholders[k] == " %(" + row[k].0 + ")s"
  {
    var keys := Keys(row);
    assert ", " == [','] + " ";
    SplitJoinPadded(keys, ',', " ");
    var named := NamedPlaceholders(keys);
    forall k | 0 <= k < |keys| ensures ',' !in named[k] {
      assert named[k] == "%(" + keys[k] + ")s";
    }
    SplitJoinPadded(named, ',', " ");
  }
}
