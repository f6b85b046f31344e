/**
 * The database connection and its cursor, seen from the loaders: every call they make is
 * recorded, in order, and the database may refuse any of them. Which calls it refuses is
 * fixed when the connection is made, by their places in the record; a refused call is still
 * recorded, and raises an exception naming its place.
 */
module Connection {

  import opened Wrappers
  import opened Values

  /** A call on the connection or its cursor. */
  datatype Call =
    | Execute(query: string, params: Dict)              // cursor.execute(query, params)
    | ExecuteMany(query: string, rows: seq<seq<Value>>) // cursor.executemany(query, rows)
    | Commit                                           // connection.commit()
    | Rollback                                         // connection.rollback()

  /** What the call at place `p` of the record raises. */
  function Outcome(refused: set<nat>, p: nat): (raised: Option<Error>)
    ensures raised.Some? <==> p in refused
    ensures raised.Some? ==> raised.value == DbError(p)
  {
    if p in refused then Some(DbError(p)) else None
  }

  class Connection {
    /** The calls made so far, in order. */
    var log: seq<Call>
    /** The places in the record of the calls the database refuses. */
    const refused: set<nat>

    constructor (refused: set<nat>)
      ensures log == [] && this.refused == refused
    {
      log := [];
      this.refused := refused;
    }

    /** Records a call and raises if the database refuses it. */
    method Perform(call: Call) returns (raised: Option<Error>)
      modifies this
      ensures log == old(log) + [call]
      ensures raised == Outcome(refused, |old(log)|)
    {
      raised := Outcome(refused, |log|);
      log := log + [call];
    }
  }
}
