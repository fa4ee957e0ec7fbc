/** The one SQLite connection every asyncio task shares.

    aiosqlite runs raw operations on one worker thread in the order they are dispatched, so an operation
    takes effect at its dispatch; only its result is delivered later. A table is a map of rows; `pending`
    is the log of writes since the last commit or rollback, each with the task that issued it; `units` is
    the log of commits that had something to commit; `issued` is every raw operation ever dispatched.
    `open` is whether a transaction is open. Python's sqlite3 module opens one on its own in front of a statement
    that begins with INSERT, UPDATE, DELETE or REPLACE; any other write outside a transaction commits itself. */
module Sqlite {
  type TaskId = nat

  type Table = map<string, int>

  /** One INSERT/UPDATE/DELETE. `Copy` reads one row to write another, so the order of writes matters. */
  datatype Dml = Put(key: string, value: int) | Delete(key: string) | Copy(source: string, target: string)

  datatype Authored = Authored(author: TaskId, write: Dml)

  datatype RawOp = Begin | Execute(write: Dml) | Commit | Rollback

  datatype Issued = Issued(task: TaskId, op: RawOp)

  datatype Connection = Connection(
    durable: Table,
    view: Table,
    pending: seq<Authored>,
    open: bool,
    units: seq<seq<Authored>>,
    issued: seq<Issued>)

  function Apply(d: Dml, t: Table): Table {
    match d
    case Put(k, v) => t[k := v]
    case Delete(k) => t - {k}
    case Copy(a, b) => if a in t then t[b := t[a]] else t
  }

  /** Runs a log of writes, oldest first. */
  function Replay(log: seq<Authored>, t: Table): Table {
    if log == [] then t else Apply(log[|log| - 1].write, Replay(log[..|log| - 1], t))
  }

  /** Runs whole units one at a time, oldest first. */
  function RunUnits(units: seq<seq<Authored>>, t: Table): Table {
    if units == [] then t else Replay(units[|units| - 1], RunUnits(units[..|units| - 1], t))
  }

  function Fresh(t: Table): Connection {
    Connection(t, t, [], false, [], [])
  }

  function RawBegin(c: Connection, t: TaskId, ok: bool): Connection {
    c.(open := c.open || ok, issued := c.issued + [Issued(t, Begin)])
  }

  /** A failing statement leaves the rows alone; `begins` says whether the statement makes the module open a
      transaction. */
  function RawExecute(c: Connection, t: TaskId, d: Dml, begins: bool, ok: bool): Connection {
    var c' := c.(open := c.open || begins, issued := c.issued + [Issued(t, Execute(d))]);
    if !ok then c'
    else if c'.open then c'.(view := Apply(d, c.view), pending := c.pending + [Authored(t, d)])
    else c'.(view := Apply(d, c.view), durable := Apply(d, c.view), units := c.units + [[Authored(t, d)]])
  }

  function RawCommit(c: Connection, t: TaskId): Connection {
    c.(durable := c.view, pending := [], open := false,
    units := if c.pending == [] then c.units else c.units + [c.pending],
    issued := c.issued + [Issued(t, Commit)])
  }

  function RawRollback(c: Connection, t: TaskId): Connection {
    c.(view := c.durable, pending := [], open := false, issued := c.issued + [Issued(t, Rollback)])
  }

  /** What a read dispatched now can see: the durable rows and the uncommitted writes on top of them. */
  datatype Snapshot = Snapshot(committed: nat, uncommitted: seq<Authored>)

  function Look(c: Connection): Snapshot {
    Snapshot(|c.units|, c.pending)
  }

  predicate AllBy(log: seq<Authored>, t: TaskId) {
    forall i :: 0 <= i < |log| ==> log[i].author == t
  }

  /** `log` is task t executing `ds` in order, and nothing else. */
  predicate Mirrors(log: seq<Authored>, t: TaskId, ds: seq<Dml>) {
    |log| == |ds| && forall i :: 0 <= i < |log| ==> log[i] == Authored(t, ds[i])
  }

  /** Rows agree with the logs: the durable rows are the committed units run serially from `start`, and the
      view is the pending writes run on top. */
  ghost predicate Consistent(c: Connection, start: Table) {
    && c.durable == RunUnits(c.units, start)
    && c.view == Replay(c.pending, c.durable)
    && (!c.open ==> c.pending == [])
  }

  lemma RawOpsKeepConsistent(c: Connection, start: Table, t: TaskId, d: Dml, begins: bool, ok: bool)
    requires Consistent(c, start)
    ensures Consistent(RawBegin(c, t, ok), start)
    ensures Consistent(RawExecute(c, t, d, begins, ok), start)
    ensures Consistent(RawCommit(c, t), start)
    ensures Consistent(RawRollback(c, t), start)
  {
    assert (c.pending + [Authored(t, d)])[..|c.pending|] == c.pending;
    assert (c.units + [c.pending])[..|c.units|] == c.units;
    var one := [Authored(t, d)];
    assert one[..0] == [] && Replay(one, c.durable) == Apply(d, c.durable);
    assert (c.units + [one])[..|c.units|] == c.units;
  }
}
