/** No request is dropped on its way to SQLite. */
module DatabaseLedger {
  import opened Base
  import opened Sqlite
  import opened DatabaseProtocol

  // What a task asks of the connection, what it holds while it waits for the lock, and what was sent: the three
  // accounts agree along every run (`db/database.py`). A step that forgot a waiting statement, or sent another one,
  // would leave them unequal.

  // ---------------------------------------------------------------- the accounts

  /** The raw operations a step of a task asks for, whether or not it has to wait for the lock first. */
  function Asked(s: State, e: Event): seq<RawOp>
    requires Enabled(s, e)
  {
    var t, task := e.task, s.tasks[e.task];
    match e.action
    case Write(d, _, _) => [Execute(d)]
    case Misread(d, _) => [Execute(d)]
    case Enter => if Some(t) in {s.owner, s.implicitOwner} then [] else [Begin]
    case Exit(raised) =>
      if !task.frames[|task.frames| - 1].outermost then [] else if raised then [Rollback] else [Commit]
    case CommitCall => if s.owner == Some(t) && s.depth > 0 then [] else [Commit]
    case RollbackCall => if s.owner == Some(t) && s.depth > 0 then [] else [Rollback]
    case Resume(ok) => if Fails(s, t, ok) then [Rollback] else []
    case _ => []
  }

  /** A statement of the task comes back with an error that costs it its implicit unit. */
  predicate Fails(s: State, t: TaskId, ok: bool)
    requires t in s.tasks
  {
    match s.tasks[t].phase
    case AwaitWrite(implicitWrite, wrote) => implicitWrite && !wrote
    case AwaitFetch(_, wrapped) => wrapped && !ok && s.implicitOwner == Some(t)
    case _ => false
  }

  /** The operation a task holds back while it waits for the lock. */
  function Held(s: State, t: TaskId): seq<RawOp> {
    if t !in s.tasks then []
    else
      match s.tasks[t].phase
      case WaitBegin => [Begin]
      case WaitWrite(d, _) => [Execute(d)]
      case WaitTurn(ForMisread(d)) => [Execute(d)]
      case WaitTurn(ForCommit) => [Commit]
      case WaitTurn(ForRollback) => [Rollback]
      case _ => []
  }

  /** The operations of one task among all that were sent. */
  function SentBy(issued: seq<Issued>, t: TaskId): seq<RawOp> {
    if issued == [] then []
    else
      var last := issued[|issued| - 1];
      SentBy(issued[..|issued| - 1], t) + (if last.task == t then [last.op] else [])
  }

  function AskedAlong(s: State, es: seq<Event>, t: TaskId): seq<RawOp>
    requires IsRun(s, es)
    decreases |es|
  {
    if es == [] then []
    else (if es[0].task == t then Asked(s, es[0]) else []) + AskedAlong(Next(s, es[0]), es[1..], t)
  }

  // ---------------------------------------------------------------- one step

  lemma SentMore(issued: seq<Issued>, u: TaskId, op: RawOp, t: TaskId)
    ensures SentBy(issued + [Issued(u, op)], t) == SentBy(issued, t) + (if u == t then [op] else [])
  {
    assert (issued + [Issued(u, op)])[..|issued|] == issued;
  }

  /** From s to s' task t sent the one operation it held or asked for, or holds it still. */
  predicate Moves(s: State, s': State, t: TaskId, asked: seq<RawOp>) {
    var all := Held(s, t) + asked;
    || (s'.conn.issued == s.conn.issued && Held(s', t) == all)
    || (|all| == 1 && s'.conn.issued == s.conn.issued + [Issued(t, all[0])] && Held(s', t) == [])
  }

  lemma EndMoves(s: State, t: TaskId, commit: bool)
    requires t in s.tasks && s.tasks[t].phase.Running?
    ensures Moves(s, OnEnd(s, t, commit), t,
                  if s.owner == Some(t) && s.depth > 0 then [] else if commit then [Commit] else [Rollback])
  {
  }

  lemma WriteMoves(s: State, t: TaskId, d: Dml, begins: bool, ok: bool)
    requires t in s.tasks && s.tasks[t].phase.Running?
    ensures Moves(s, OnWrite(s, t, d, begins, ok), t, [Execute(d)])
    ensures Moves(s, OnMisread(s, t, d, ok), t, [Execute(d)])
  {
    hide RawExecute;
    ExecuteFacts(s.conn, t, d, begins, ok);
    ExecuteFacts(s.conn, t, d, false, ok);
  }

  lemma GrantMoves(s: State, t: TaskId, ok: bool)
    requires t in s.tasks && Waiting(s.tasks[t].phase)
    ensures Moves(s, OnGranted(s, t, ok), t, []) && Held(OnGranted(s, t, ok), t) == []
  {
    assert Held(s, t) + [] == Held(s, t);
  }

  lemma ResumeMoves(s: State, t: TaskId, ok: bool)
    requires t in s.tasks && !s.tasks[t].phase.Running? && !Waiting(s.tasks[t].phase)
    ensures Moves(s, OnResume(s, t, ok), t, if Fails(s, t, ok) then [Rollback] else [])
  {
  }

  lemma ExitMoves(s: State, t: TaskId, raised: bool)
    requires Enabled(s, Event(t, Exit(raised)))
    ensures Moves(s, OnExit(s, t, raised), t, Asked(s, Event(t, Exit(raised))))
  {
  }

  lemma StepMoves(s: State, e: Event)
    requires Enabled(s, e)
    ensures e.task in Next(s, e).tasks && Moves(s, Next(s, e), e.task, Asked(s, e))
  {
    StaysThere(s, e);
    hide OnEnd, OnWrite, OnMisread, OnGranted, OnResume, OnExit, Fails, Moves;
    match e.action
    case Write(d, begins, ok) => WriteMoves(s, e.task, d, begins, ok);
    case Misread(d, ok) => WriteMoves(s, e.task, d, false, ok);
    case CommitCall => EndMoves(s, e.task, true);
    case RollbackCall => EndMoves(s, e.task, false);
    case LockGranted(ok) => GrantMoves(s, e.task, ok);
    case Resume(ok) => ResumeMoves(s, e.task, ok);
    case Exit(raised) => ExitMoves(s, e.task, raised);
    case _ => RestMoves(s, e);
  }

  lemma RestMoves(s: State, e: Event)
    requires Enabled(s, e)
    requires e.action.Start? || e.action.Spawn? || e.action.Enter? || e.action.Read? || e.action.Fetch?
    ensures Moves(s, Next(s, e), e.task, Asked(s, e))
  {
    assert [] + [Begin] == [Begin];
  }

  lemma StaysThere(s: State, e: Event)
    requires Enabled(s, e)
    ensures e.task in Next(s, e).tasks
  {
  }

  /** What a step of a task sends is the operation the task held or asks for; otherwise it holds it. */
  lemma StepSends(s: State, e: Event) returns (ops: seq<RawOp>)
    requires Enabled(s, e)
    ensures |ops| <= 1
    ensures ops + Held(Next(s, e), e.task) == Held(s, e.task) + Asked(s, e)
    ensures Next(s, e).conn.issued == s.conn.issued + (if ops == [] then [] else [Issued(e.task, ops[0])])
  {
    hide Next, Enabled, Held, Asked;
    StepMoves(s, e);
    var all := Held(s, e.task) + Asked(s, e);
    ops := if Next(s, e).conn.issued == s.conn.issued then [] else all;
  }

  lemma OthersHold(s: State, e: Event, t: TaskId)
    requires Enabled(s, e) && e.task != t
    ensures Held(Next(s, e), t) == Held(s, t)
  {
  }

  lemma StepBalances(s: State, e: Event, t: TaskId)
    requires Enabled(s, e)
    ensures SentBy(Next(s, e).conn.issued, t) + Held(Next(s, e), t)
            == SentBy(s.conn.issued, t) + Held(s, t) + (if e.task == t then Asked(s, e) else [])
  {
    hide Next, Enabled, Held, Asked, SentBy;
    var ops := StepSends(s, e);
    if ops != [] {
      SentMore(s.conn.issued, e.task, ops[0], t);
      assert ops == [ops[0]];
    } else {
      assert s.conn.issued + [] == s.conn.issued;
    }
    if e.task == t {
      Regroup(SentBy(s.conn.issued, t), ops, Held(Next(s, e), t));
      Regroup(SentBy(s.conn.issued, t), Held(s, t), Asked(s, e));
    } else {
      OthersHold(s, e, t);
      assert SentBy(s.conn.issued, t) + [] == SentBy(s.conn.issued, t);
      assert SentBy(s.conn.issued, t) + Held(s, t) + [] == SentBy(s.conn.issued, t) + Held(s, t);
    }
  }

  lemma Regroup(a: seq<RawOp>, b: seq<RawOp>, c: seq<RawOp>)
    ensures a + (b + c) == (a + b) + c
  {
  }

  // ---------------------------------------------------------------- runs

  lemma {:induction false} RunBalances(s: State, es: seq<Event>, t: TaskId)
    requires IsRun(s, es)
    ensures SentBy(Run(s, es).conn.issued, t) + Held(Run(s, es), t)
            == SentBy(s.conn.issued, t) + Held(s, t) + AskedAlong(s, es, t)
    decreases |es|
  {
    hide Next, Enabled, Held, Asked, SentBy;
    var before := SentBy(s.conn.issued, t) + Held(s, t);
    if es == [] {
      assert before + [] == before;
    } else {
      var own := if es[0].task == t then Asked(s, es[0]) else [];
      StepBalances(s, es[0], t);
      RunBalances(Next(s, es[0]), es[1..], t);
      Regroup(before, own, AskedAlong(Next(s, es[0]), es[1..], t));
    }
  }

  /** Along every run from a fresh connection and for every task: the operations sent for it, followed by the one it
      holds while it waits, are exactly those it asked for, in order. */
  lemma EveryRequestIsSentOrHeld(start: Table, es: seq<Event>, t: TaskId)
    requires IsRun(Init(start), es)
    ensures SentBy(Run(Init(start), es).conn.issued, t) + Held(Run(Init(start), es), t)
            == AskedAlong(Init(start), es, t)
  {
    RunBalances(Init(start), es, t);
    hide Next, Enabled, Asked, IsRun, Run, AskedAlong;
    assert SentBy(Init(start).conn.issued, t) == [] && Held(Init(start), t) == [];
    assert [] + [] + AskedAlong(Init(start), es, t) == AskedAlong(Init(start), es, t);
  }

  /** The granted lock sends the very operation the task waited with. */
  lemma GrantSendsHeld(s: State, t: TaskId, ok: bool)
    requires Enabled(s, Event(t, LockGranted(ok)))
    ensures var s' := Next(s, Event(t, LockGranted(ok)));
            && Held(s', t) == [] && !Waiting(s'.tasks[t].phase)
            && SentBy(s'.conn.issued, t) == SentBy(s.conn.issued, t) + Held(s, t)
  {
    var e := Event(t, LockGranted(ok));
    Granted(s, t, ok);
    hide SentBy, Next, Enabled, Held, Asked, Waiting;
    StepBalances(s, e, t);
    var sent := SentBy(Next(s, e).conn.issued, t);
    assert sent + [] == sent;
    assert SentBy(s.conn.issued, t) + Held(s, t) + [] == SentBy(s.conn.issued, t) + Held(s, t);
  }

  lemma Granted(s: State, t: TaskId, ok: bool)
    requires Enabled(s, Event(t, LockGranted(ok)))
    ensures var e := Event(t, LockGranted(ok));
            && Asked(s, e) == [] && t in Next(s, e).tasks && Held(Next(s, e), t) == []
            && !Waiting(Next(s, e).tasks[t].phase)
  {
    GrantMoves(s, t, ok);
  }

  // ---------------------------------------------------------------- who waits, and what becomes of a call

  predicate OwnsUnit(s: State, t: TaskId) {
    s.owner == Some(t) || s.implicitOwner == Some(t)
  }

  /** When a call has to queue for the lock. */
  predicate MustWait(s: State, e: Event)
    requires Enabled(s, e)
  {
    match e.action
    case Enter => !OwnsUnit(s, e.task)
    case Write(_, _, _) => !OwnsUnit(s, e.task)
    case Misread(_, _) => s.locked && !OwnsUnit(s, e.task) && !s.tasks[e.task].inContext
    case Read => s.locked && !OwnsUnit(s, e.task) && !s.tasks[e.task].inContext
    case CommitCall => s.locked && s.implicitOwner != Some(e.task) && !(s.owner == Some(e.task) && s.depth > 0)
    case RollbackCall => s.locked && s.implicitOwner != Some(e.task) && !(s.owner == Some(e.task) && s.depth > 0)
    case _ => false
  }

  /** A step leaves its task waiting for the lock exactly when the call must wait, and then changes nothing else. */
  lemma WhoWaits(s: State, e: Event)
    requires Enabled(s, e)
    ensures !e.action.Start? ==> (Waiting(Next(s, e).tasks[e.task].phase) <==> MustWait(s, e))
    ensures MustWait(s, e) ==> Next(s, e) == s.(tasks := s.tasks[e.task := Next(s, e).tasks[e.task]])
  {
    if MustWait(s, e) {
      var s' := Next(s, e);
      assert s'.tasks == s.tasks[e.task := s'.tasks[e.task]];
      assert s' == s.(tasks := s'.tasks);
    }
  }

  /** A block is joined, refused or queued for, and nothing else happens. */
  lemma EnterOutcome(s: State, t: TaskId)
    requires Enabled(s, Event(t, Enter))
    ensures var s' := Next(s, Event(t, Enter));
            && (s.owner == Some(t) ==>
                  && s'.tasks[t] == s.tasks[t].(frames := s.tasks[t].frames + [Frame(false, false)])
                  && s' == s.(depth := s.depth + 1, tasks := s'.tasks))
            && (s.owner != Some(t) && s.implicitOwner == Some(t) ==> s' == s)
            && (!OwnsUnit(s, t) ==> s' == s.(tasks := s.tasks[t := s.tasks[t].(phase := WaitBegin)]))
  {
  }

  /** A write runs in the unit its task owns, or waits as it is until the lock makes it the first of a new one; when it
      fails in an implicit unit, the task learns that it has to undo that unit. */
  lemma WriteOutcome(s: State, t: TaskId, d: Dml, begins: bool, ok: bool)
    requires Enabled(s, Event(t, Write(d, begins, ok)))
    ensures var s' := Next(s, Event(t, Write(d, begins, ok)));
            && (s.owner == Some(t) ==>
                 s'.tasks[t].phase == AwaitWrite(false, ok) && s'.conn == RawExecute(s.conn, t, d, begins, ok))
            && (s.owner != Some(t) && s.implicitOwner == Some(t) ==>
                  s'.tasks[t].phase == AwaitWrite(true, ok) && s'.conn == RawExecute(s.conn, t, d, begins, ok))
            && (!OwnsUnit(s, t) ==> s'.tasks[t].phase == WaitWrite(d, begins) && s'.conn == s.conn)
  {
    hide RawExecute;
  }

  lemma WriteStarts(s: State, t: TaskId, ok: bool)
    requires Enabled(s, Event(t, LockGranted(ok))) && s.tasks[t].phase.WaitWrite?
    ensures var s', waiting := Next(s, Event(t, LockGranted(ok))), s.tasks[t].phase;
            && s'.tasks[t].phase == AwaitWrite(true, ok) && s'.implicitOwner == Some(t) && s'.locked
            && s'.conn == RawExecute(s.conn, t, waiting.write, waiting.begins, ok)
  {
    hide RawExecute;
  }

  /** A read or a fetch looks at the connection as it is, at once or when its turn comes, and changes nothing. */
  lemma ReadOutcome(s: State, e: Event)
    requires Enabled(s, e)
    requires e.action.Read? || e.action.Fetch?
             || (e.action.LockGranted? && s.tasks[e.task].phase == WaitTurn(ForRead))
    ensures var s' := Next(s, e);
            && s' == s.(tasks := s'.tasks)
            && s'.tasks == s.tasks[e.task := s.tasks[e.task].(phase := s'.tasks[e.task].phase)]
            && s'.tasks[e.task].phase == match e.action
                                         case Fetch(wrapped) => AwaitFetch(Look(s.conn), wrapped)
                                         case _ => if MustWait(s, e) then WaitTurn(ForRead) else AwaitRead(Look(s.conn))
  {
  }

  lemma FailedFetchUndoes(s: State, t: TaskId)
    requires Safe(s) && t in s.tasks && s.tasks[t].phase.AwaitFetch? && s.tasks[t].phase.wrapped
    requires s.implicitOwner == Some(t)
    ensures Enabled(s, Event(t, Resume(false)))
    ensures var s1 := Next(s, Event(t, Resume(false)));
            && Holder(s1) == Some(t) == s1.implicitOwner && t in s1.tasks && s1.tasks[t].phase == AwaitUndo
            && s1.conn == RawRollback(s.conn, t)
  {
  }

  /** A failing fetch inside `execute_fetchall` costs the implicit owner its unit, like a failing write. */
  lemma FailedFetchDropsUnit(s: State, t: TaskId, others: seq<Event>, second: bool)
    requires Safe(s) && t in s.tasks && s.tasks[t].phase.AwaitFetch? && s.tasks[t].phase.wrapped
    requires s.implicitOwner == Some(t)
    requires Foreign(others, t) && IsRun(s, InFlight(Event(t, Resume(false)), others, second))
    requires Unslipped(s, InFlight(Event(t, Resume(false)), others, second), t)
    ensures var s' := Run(s, InFlight(Event(t, Resume(false)), others, second));
            && s'.conn == RawRollback(s.conn, t)
            && !s'.locked && s'.implicitOwner == None && s'.implicitDepth == 0 && s'.owner == None
  {
    hide Safe, Next, IsRun, Run, InFlight, Foreign, Unslipped, Leaks;
    var e := Event(t, Resume(false));
    FlightRuns(s, e, others, second);
    OnlyMisreadsLeak(s, e);
    SafeNext(s, e);
    FailedFetchUndoes(s, t);
    ForeignRun(Next(s, e), others, t);
    UndoReturns(Run(Next(s, e), others), t, second);
  }
}
