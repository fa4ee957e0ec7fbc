/** The `Database` object of `db/database.py` and the event loop that runs its tasks.

    Each method is the code one task runs between two suspension points, on the object's own fields. Its
    contract ties the new fields to one step of the protocol, whose properties are the lemmas of
    `DatabaseProtocol`. */
module DatabaseObject {
  import opened Base
  import opened Sqlite
  import P = DatabaseProtocol

  class Database {
    var transactionLocked: bool
    var transactionOwner: Option<TaskId>
    var transactionDepth: int
    var implicitWriteOwner: Option<TaskId>
    var implicitWriteDepth: int
    var conn: Connection
    var tasks: map<TaskId, P.Task>

    ghost function Abs(): P.State
      reads this
    {
      P.State(transactionLocked, transactionOwner, transactionDepth, implicitWriteOwner,
          implicitWriteDepth, conn, tasks)
    }

    ghost predicate Can(t: TaskId, a: P.Action)
      reads this
    {
      P.Enabled(Abs(), P.Event(t, a))
    }

    constructor (rows: Table)
      ensures Abs() == P.Init(rows) && P.Safe(Abs()) && Consistent(conn, rows)
    {
      transactionLocked, transactionOwner, transactionDepth := false, None, 0;
      implicitWriteOwner, implicitWriteDepth := None, 0;
      conn := Fresh(rows);
      tasks := map[0 := P.Task(P.Running, [], false, [])];
    }

    method SetPhase(t: TaskId, phase: P.Phase)
      requires t in tasks
      modifies this`tasks
      ensures tasks == old(tasks)[t := old(tasks)[t].(phase := phase)]
    {
      tasks := tasks[t := tasks[t].(phase := phase)];
    }

    method ClearImplicitWriteOwner()
      modifies this`implicitWriteOwner, this`implicitWriteDepth, this`transactionLocked
      ensures Abs() == P.ClearImplicit(old(Abs()))
    {
      if implicitWriteOwner.Some? {
        implicitWriteOwner := None;
        implicitWriteDepth := 0;
        if transactionLocked {
          transactionLocked := false;
        }
      }
    }

    /** `async with transaction()` up to the lock: joins the task's own block, refuses after an uncommitted
        implicit write, or queues for the lock. */
    method EnterTransaction(t: TaskId) returns (refused: bool)
      requires Can(t, P.Enter)
      modifies this
      ensures Abs() == P.Next(old(Abs()), P.Event(t, P.Enter))
      ensures refused <==> old(transactionOwner) != Some(t) && old(implicitWriteOwner) == Some(t)
    {
      refused := false;
      var outermost := transactionOwner != Some(t);
      if outermost {
        if implicitWriteOwner == Some(t) {
          refused := true;
          return;
        }
        SetPhase(t, P.WaitBegin);
        return;
      }
      transactionDepth := transactionDepth + 1;
      tasks := tasks[t := tasks[t].(frames := tasks[t].frames + [P.Frame(false, false)])];
    }

    /** The lock was granted inside `transaction()`: take ownership and dispatch BEGIN. */
    method BeginTransaction(t: TaskId, ok: bool)
      requires Can(t, P.LockGranted(ok)) && tasks[t].phase.WaitBegin?
      modifies this
      ensures Abs() == P.Next(old(Abs()), P.Event(t, P.LockGranted(ok)))
    {
      transactionLocked := true;
      transactionOwner := Some(t);
      transactionDepth := 0;
      conn := RawBegin(conn, t, ok);
      tasks := tasks[t := tasks[t].(phase := P.AwaitBegin(ok), executed := [])];
    }

    /** BEGIN returned: run the block, or give everything back and re-raise. */
    method TransactionBegan(t: TaskId, ok: bool) returns (began: bool)
      requires Can(t, P.Resume(ok)) && tasks[t].phase.AwaitBegin?
      modifies this
      ensures Abs() == P.Next(old(Abs()), P.Event(t, P.Resume(ok)))
      ensures began == old(tasks[t].phase.ok)
    {
      began := tasks[t].phase.ok;
      var saved := tasks[t].inContext;
      SetPhase(t, P.Running);
      if !began {
        transactionOwner := None;
        transactionDepth := 0;
        transactionLocked := false;
        return;
      }
      transactionDepth := transactionDepth + 1;
      tasks := tasks[t := tasks[t].(frames := tasks[t].frames + [P.Frame(true, saved)], inContext := true)];
    }

    /** Leaving a block: only the outermost one dispatches COMMIT, or ROLLBACK when an exception leaves it. */
    method ExitTransaction(t: TaskId, raised: bool)
      requires Can(t, P.Exit(raised))
      modifies this
      ensures Abs() == P.Next(old(Abs()), P.Event(t, P.Exit(raised)))
    {
      var frames := tasks[t].frames;
      var frame := frames[|frames| - 1];
      tasks := tasks[t := tasks[t].(frames := frames[..|frames| - 1])];
      transactionDepth := transactionDepth - 1;
      if frame.outermost {
        if raised {
          conn := RawRollback(conn, t);
        } else {
          conn := RawCommit(conn, t);
        }
        tasks := tasks[t := tasks[t].(phase := P.AwaitExit(frame.saved), executed := [])];
      }
    }

    /** The outermost COMMIT or ROLLBACK returned: reset the ContextVar, disown and unlock. */
    method TransactionEnded(t: TaskId, ok: bool)
      requires Can(t, P.Resume(ok)) && tasks[t].phase.AwaitExit?
      modifies this
      ensures Abs() == P.Next(old(Abs()), P.Event(t, P.Resume(ok)))
    {
      tasks := tasks[t := tasks[t].(phase := P.Running, inContext := tasks[t].phase.saved)];
      transactionOwner := None;
      transactionLocked := false;
    }

    method DispatchWrite(t: TaskId, d: Dml, begins: bool, ok: bool, implicitWrite: bool)
      requires t in tasks
      modifies this`conn, this`tasks
      ensures Abs() == P.DispatchWrite(old(Abs()), t, d, begins, ok, implicitWrite)
    {
      var joins := ok && (conn.open || begins);
      conn := RawExecute(conn, t, d, begins, ok);
      if joins {
        tasks := tasks[t := tasks[t].(executed := tasks[t].executed + [d])];
      }
      SetPhase(t, P.AwaitWrite(implicitWrite, ok));
    }

    /** `execute` of a DML statement up to its dispatch, or up to the lock. */
    method ExecuteWrite(t: TaskId, d: Dml, begins: bool, ok: bool)
      requires Can(t, P.Write(d, begins, ok))
      modifies this
      ensures Abs() == P.Next(old(Abs()), P.Event(t, P.Write(d, begins, ok)))
    {
      if transactionOwner == Some(t) {
        DispatchWrite(t, d, begins, ok, false);
      } else if implicitWriteOwner == Some(t) {
        implicitWriteDepth := implicitWriteDepth + 1;
        DispatchWrite(t, d, begins, ok, true);
      } else {
        SetPhase(t, P.WaitWrite(d, begins));
      }
    }

    /** The lock was granted to an implicit writer. */
    method WriteGranted(t: TaskId, ok: bool)
      requires Can(t, P.LockGranted(ok)) && tasks[t].phase.WaitWrite?
      modifies this
      ensures Abs() == P.Next(old(Abs()), P.Event(t, P.LockGranted(ok)))
    {
      var d, begins := tasks[t].phase.write, tasks[t].phase.begins;
      transactionLocked := true;
      implicitWriteOwner := Some(t);
      implicitWriteDepth := 1;
      tasks := tasks[t := tasks[t].(executed := [])];
      DispatchWrite(t, d, begins, ok, true);
    }

    method DispatchMisread(t: TaskId, d: Dml, ok: bool)
      requires t in tasks
      modifies this`conn, this`tasks
      ensures Abs() == P.DispatchMisread(old(Abs()), t, d, ok)
    {
      var holder := if transactionOwner.Some? then transactionOwner else implicitWriteOwner;
      var joins := ok && conn.open && holder == Some(t);
      conn := RawExecute(conn, t, d, false, ok);
      if joins {
        tasks := tasks[t := tasks[t].(executed := tasks[t].executed + [d])];
      }
      SetPhase(t, P.AwaitMisread);
    }

    /** `execute` of a write that `_is_write_statement` takes for a read: the read branch of the gate. */
    method ExecuteMisread(t: TaskId, d: Dml, ok: bool)
      requires Can(t, P.Misread(d, ok))
      modifies this
      ensures Abs() == P.Next(old(Abs()), P.Event(t, P.Misread(d, ok)))
    {
      if transactionOwner == Some(t) || tasks[t].inContext || implicitWriteOwner == Some(t) {
        DispatchMisread(t, d, ok);
      } else if transactionLocked {
        SetPhase(t, P.WaitTurn(P.ForMisread(d)));
      } else {
        DispatchMisread(t, d, ok);
      }
    }

    /** `_rollback_implicit_write_owner` up to its raw ROLLBACK. */
    method DispatchUndo(t: TaskId)
      requires t in tasks
      modifies this`conn, this`tasks
      ensures Abs() == P.DispatchEnd(old(Abs()), t, false, P.AwaitUndo)
    {
      conn := RawRollback(conn, t);
      tasks := tasks[t := tasks[t].(phase := P.AwaitUndo, executed := [])];
    }

    /** A statement returned or raised: a failed implicit write drops the whole implicit unit. */
    method WriteReturned(t: TaskId, ok: bool)
      requires Can(t, P.Resume(ok)) && tasks[t].phase.AwaitWrite?
      modifies this
      ensures Abs() == P.Next(old(Abs()), P.Event(t, P.Resume(ok)))
    {
      if !tasks[t].phase.ok && tasks[t].phase.implicitWrite {
        DispatchUndo(t);
      } else {
        SetPhase(t, P.Running);
      }
    }

    method UndoReturned(t: TaskId, ok: bool)
      requires Can(t, P.Resume(ok)) && tasks[t].phase.AwaitUndo?
      modifies this
      ensures Abs() == P.Next(old(Abs()), P.Event(t, P.Resume(ok)))
    {
      SetPhase(t, P.Running);
      ClearImplicitWriteOwner();
    }

    /** `execute` of a SELECT up to its dispatch, or up to waiting for a turn. */
    method ExecuteRead(t: TaskId)
      requires Can(t, P.Read)
      modifies this
      ensures Abs() == P.Next(old(Abs()), P.Event(t, P.Read))
    {
      if transactionOwner == Some(t) || tasks[t].inContext || implicitWriteOwner == Some(t) {
        SetPhase(t, P.AwaitRead(Look(conn)));
      } else if transactionLocked {
        SetPhase(t, P.WaitTurn(P.ForRead));
      } else {
        SetPhase(t, P.AwaitRead(Look(conn)));
      }
    }

    /** `cursor.fetchall()`, by the caller or inside `execute_fetchall`; nothing gates it. */
    method FetchRows(t: TaskId, wrapped: bool)
      requires Can(t, P.Fetch(wrapped))
      modifies this
      ensures Abs() == P.Next(old(Abs()), P.Event(t, P.Fetch(wrapped)))
    {
      SetPhase(t, P.AwaitFetch(Look(conn), wrapped));
    }

    /** A SELECT or a fetch returned; when `execute_fetchall` fails to fetch, the implicit owner's unit is dropped. */
    method ReadReturned(t: TaskId, ok: bool)
      requires Can(t, P.Resume(ok))
      requires tasks[t].phase.AwaitRead? || tasks[t].phase.AwaitFetch? || tasks[t].phase.AwaitMisread?
      modifies this
      ensures Abs() == P.Next(old(Abs()), P.Event(t, P.Resume(ok)))
    {
      if tasks[t].phase.AwaitFetch? && tasks[t].phase.wrapped && !ok && implicitWriteOwner == Some(t) {
        DispatchUndo(t);
      } else {
        SetPhase(t, P.Running);
      }
    }

    /** `commit()` and `rollback()`: a no-op inside the task's own block, the end of its own implicit unit, or
        an unowned call that waits its turn. */
    method EndUnit(t: TaskId, commit: bool)
      requires Can(t, if commit then P.CommitCall else P.RollbackCall)
      modifies this
      ensures Abs() == P.Next(old(Abs()), P.Event(t, if commit then P.CommitCall else P.RollbackCall))
    {
      if transactionOwner == Some(t) && transactionDepth > 0 {
        return;
      }
      if implicitWriteOwner != Some(t) && transactionLocked {
        SetPhase(t, P.WaitTurn(if commit then P.ForCommit else P.ForRollback));
        return;
      }
      DispatchEnd(t, commit, implicitWriteOwner == Some(t));
    }

    method DispatchEnd(t: TaskId, commit: bool, owned: bool)
      requires t in tasks
      modifies this`conn, this`tasks
      ensures Abs() == P.DispatchEnd(old(Abs()), t, commit, P.AwaitEnd(owned))
    {
      if commit {
        conn := RawCommit(conn, t);
      } else {
        conn := RawRollback(conn, t);
      }
      tasks := tasks[t := tasks[t].(phase := P.AwaitEnd(owned), executed := [])];
    }

    /** A waiting reader or unowned `commit()`/`rollback()` got its turn: it takes and releases the lock and
        dispatches in one go. */
    method TurnGranted(t: TaskId, ok: bool)
      requires Can(t, P.LockGranted(ok)) && tasks[t].phase.WaitTurn?
      modifies this
      ensures Abs() == P.Next(old(Abs()), P.Event(t, P.LockGranted(ok)))
    {
      transactionLocked := true;
      transactionLocked := false;
      match tasks[t].phase.turn
      case ForRead => SetPhase(t, P.AwaitRead(Look(conn)));
      case ForMisread(d) => DispatchMisread(t, d, ok);
      case ForCommit => DispatchEnd(t, true, false);
      case ForRollback => DispatchEnd(t, false, false);
    }

    method EndReturned(t: TaskId, ok: bool)
      requires Can(t, P.Resume(ok)) && tasks[t].phase.AwaitEnd?
      modifies this
      ensures Abs() == P.Next(old(Abs()), P.Event(t, P.Resume(ok)))
    {
      var owned := tasks[t].phase.owned;
      SetPhase(t, P.Running);
      if owned {
        ClearImplicitWriteOwner();
      }
    }
  }
}
