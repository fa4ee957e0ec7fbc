/** The transaction protocol. */
module DatabaseProtocol {
  import opened Base
  import opened Sqlite

  // `Database.transaction/commit/rollback` and the connection proxy as a state machine.
  //
  // Every step runs one task from one suspension point to the next. `Wait*` phases are tasks inside
  // `lock.acquire()`, `Await*` phases are tasks whose raw operation is on the worker thread. A granted lock may go
  // to any waiter, so every fair and unfair order of the real asyncio queue is covered.

  /** An open `async with transaction()`; `saved` is what the ContextVar token restores. */
  datatype Frame = Frame(outermost: bool, saved: bool)

  datatype Turn = ForRead | ForMisread(write: Dml) | ForCommit | ForRollback

  datatype Phase =
    | Running
    | WaitBegin
    | WaitWrite(write: Dml, begins: bool)
    | WaitTurn(turn: Turn)
    | AwaitBegin(ok: bool)
    | AwaitWrite(implicitWrite: bool, ok: bool)
    | AwaitUndo
    | AwaitRead(seen: Snapshot)
    | AwaitMisread
    | AwaitFetch(seen: Snapshot, wrapped: bool)
    | AwaitEnd(owned: bool)
    | AwaitExit(saved: bool)

  /** `inContext` is whether the task's ContextVar holds this database; `executed` is the task's own account
      of the writes that succeeded since its current unit began. */
  datatype Task = Task(phase: Phase, frames: seq<Frame>, inContext: bool, executed: seq<Dml>)

  datatype State = State(
    locked: bool,
    owner: Option<TaskId>,
    depth: int,
    implicitOwner: Option<TaskId>,
    implicitDepth: int,
    conn: Connection,
    tasks: map<TaskId, Task>)

  /** What a task can do next. The `ok` of a raw operation is decided when it is dispatched. A fetch is `wrapped` when
      `execute_fetchall` or `execute_fetchone` makes it, and raw when the caller steps a cursor itself. A write `begins`
      when it makes the sqlite3 module open a transaction. `Misread` is a write that `_is_write_statement` takes for a
      read; all of those start with WITH, so none of them begins. A read taken for a write is a `Write` that changes
      nothing. */
  datatype Action =
    | Start(child: TaskId)
    | Spawn(child: TaskId)
    | Enter
    | Exit(raised: bool)
    | Write(write: Dml, begins: bool, ok: bool)
    | Misread(write: Dml, ok: bool)
    | Read
    | Fetch(wrapped: bool)
    | CommitCall
    | RollbackCall
    | LockGranted(ok: bool)
    | Resume(ok: bool)

  datatype Event = Event(task: TaskId, action: Action)

  function Init(t: Table): State {
    State(false, None, 0, None, 0, Fresh(t), map[0 := Task(Running, [], false, [])])
  }

  function WithTask(s: State, t: TaskId, task: Task): State {
    s.(tasks := s.tasks[t := task])
  }

  predicate Waiting(p: Phase) {
    p.WaitBegin? || p.WaitWrite? || p.WaitTurn?
  }

  predicate Enabled(s: State, e: Event) {
    e.task in s.tasks &&
    var task := s.tasks[e.task];
    match e.action
    case Start(child) => child !in s.tasks
    case Spawn(child) => task.phase.Running? && child !in s.tasks
    case Exit(_) => task.phase.Running? && task.frames != []
    case LockGranted(_) => Waiting(task.phase) && !s.locked
    case Resume(_) => !task.phase.Running? && !Waiting(task.phase)
    case _ => task.phase.Running?
  }

  function ClearImplicit(s: State): State {
    if s.implicitOwner.Some? then s.(implicitOwner := None, implicitDepth := 0, locked := false) else s
  }

  /** The write joins a unit when a transaction is open by then; otherwise it commits itself. */
  function DispatchWrite(s: State, t: TaskId, d: Dml, begins: bool, ok: bool, implicitWrite: bool): State
    requires t in s.tasks
  {
    var task := s.tasks[t];
    var joins := ok && (s.conn.open || begins);
    WithTask(s.(conn := RawExecute(s.conn, t, d, begins, ok)), t,
        task.(phase := AwaitWrite(implicitWrite, ok), executed := if joins then task.executed + [d] else task.executed))
  }

  /** A write taken for a read, whoever holds the lock. */
  function DispatchMisread(s: State, t: TaskId, d: Dml, ok: bool): State
    requires t in s.tasks
  {
    var task := s.tasks[t];
    var joins := ok && s.conn.open && Holder(s) == Some(t);
    WithTask(s.(conn := RawExecute(s.conn, t, d, false, ok)), t,
        task.(phase := AwaitMisread, executed := if joins then task.executed + [d] else task.executed))
  }

  function DispatchEnd(s: State, t: TaskId, commit: bool, phase: Phase): State
    requires t in s.tasks
  {
    WithTask(s.(conn := if commit then RawCommit(s.conn, t) else RawRollback(s.conn, t)), t,
        s.tasks[t].(phase := phase, executed := []))
  }

  function DispatchRead(s: State, t: TaskId): State
    requires t in s.tasks
  {
    WithTask(s, t, s.tasks[t].(phase := AwaitRead(Look(s.conn))))
  }

  function OnEnter(s: State, t: TaskId): State
    requires t in s.tasks
  {
    var task := s.tasks[t];
    if s.owner == Some(t) then
      WithTask(s.(depth := s.depth + 1), t, task.(frames := task.frames + [Frame(false, false)]))
    else if s.implicitOwner == Some(t) then
      s
    else
      WithTask(s, t, task.(phase := WaitBegin))
  }

  function OnExit(s: State, t: TaskId, raised: bool): State
    requires t in s.tasks && s.tasks[t].frames != []
  {
    var task := s.tasks[t];
    var frame := task.frames[|task.frames| - 1];
    var s' := WithTask(s.(depth := s.depth - 1), t, task.(frames := task.frames[..|task.frames| - 1]));
    if frame.outermost then DispatchEnd(s', t, !raised, AwaitExit(frame.saved)) else s'
  }

  function OnWrite(s: State, t: TaskId, d: Dml, begins: bool, ok: bool): State
    requires t in s.tasks
  {
    if s.owner == Some(t) then
      DispatchWrite(s, t, d, begins, ok, false)
    else if s.implicitOwner == Some(t) then
      DispatchWrite(s.(implicitDepth := s.implicitDepth + 1), t, d, begins, ok, true)
    else
      WithTask(s, t, s.tasks[t].(phase := WaitWrite(d, begins)))
  }

  /** A statement taken for a read goes ahead at once. */
  predicate PassesAsRead(s: State, t: TaskId)
    requires t in s.tasks
  {
    s.owner == Some(t) || s.tasks[t].inContext || s.implicitOwner == Some(t) || !s.locked
  }

  function OnRead(s: State, t: TaskId): State
    requires t in s.tasks
  {
    if PassesAsRead(s, t) then DispatchRead(s, t) else WithTask(s, t, s.tasks[t].(phase := WaitTurn(ForRead)))
  }

  function OnMisread(s: State, t: TaskId, d: Dml, ok: bool): State
    requires t in s.tasks
  {
    if PassesAsRead(s, t) then DispatchMisread(s, t, d, ok)
    else WithTask(s, t, s.tasks[t].(phase := WaitTurn(ForMisread(d))))
  }

  function OnEnd(s: State, t: TaskId, commit: bool): State
    requires t in s.tasks
  {
    if s.owner == Some(t) && s.depth > 0 then
      s
    else if s.implicitOwner == Some(t) then
      DispatchEnd(s, t, commit, AwaitEnd(true))
    else if s.locked then
      WithTask(s, t, s.tasks[t].(phase := WaitTurn(if commit then ForCommit else ForRollback)))
    else
      DispatchEnd(s, t, commit, AwaitEnd(false))
  }

  function OnGranted(s: State, t: TaskId, ok: bool): State
    requires t in s.tasks && Waiting(s.tasks[t].phase)
  {
    var task := s.tasks[t];
    match task.phase
    case WaitBegin =>
      WithTask(s.(locked := true, owner := Some(t), depth := 0, conn := RawBegin(s.conn, t, ok)), t,
      task.(phase := AwaitBegin(ok), executed := []))
    case WaitWrite(d, begins) =>
      DispatchWrite(WithTask(s.(locked := true, implicitOwner := Some(t), implicitDepth := 1),
          t, task.(executed := [])),
                    t, d, begins, ok, true)
    case WaitTurn(ForRead) => DispatchRead(s, t)
    case WaitTurn(ForMisread(d)) => DispatchMisread(s, t, d, ok)
    case WaitTurn(ForCommit) => DispatchEnd(s, t, true, AwaitEnd(false))
    case WaitTurn(ForRollback) => DispatchEnd(s, t, false, AwaitEnd(false))
  }

  function OnResume(s: State, t: TaskId, ok: bool): State
    requires t in s.tasks && !s.tasks[t].phase.Running? && !Waiting(s.tasks[t].phase)
  {
    var task := s.tasks[t];
    var running := task.(phase := Running);
    match task.phase
    case AwaitBegin(began) =>
      if began then
        WithTask(s.(depth := s.depth + 1), t,
            running.(frames := task.frames + [Frame(true, task.inContext)], inContext := true))
      else
        WithTask(s.(owner := None, depth := 0, locked := false), t, running)
    case AwaitWrite(implicitWrite, wrote) =>
      if !wrote && implicitWrite then DispatchEnd(s, t, false, AwaitUndo) else WithTask(s, t, running)
    case AwaitUndo => ClearImplicit(WithTask(s, t, running))
    case AwaitRead(_) => WithTask(s, t, running)
    case AwaitMisread => WithTask(s, t, running)
    case AwaitFetch(_, wrapped) =>
      if wrapped && !ok && s.implicitOwner == Some(t) then DispatchEnd(s, t, false, AwaitUndo)
      else WithTask(s, t, running)
    case AwaitEnd(owned) => if owned then ClearImplicit(WithTask(s, t, running)) else WithTask(s, t, running)
    case AwaitExit(saved) => WithTask(s.(owner := None, locked := false), t, running.(inContext := saved))
  }

  function Next(s: State, e: Event): State
    requires Enabled(s, e)
  {
    var t := e.task;
    match e.action
    case Start(child) => WithTask(s, child, Task(Running, [], false, []))
    case Spawn(child) => WithTask(s, child, Task(Running, [], s.tasks[t].inContext, []))
    case Enter => OnEnter(s, t)
    case Exit(raised) => OnExit(s, t, raised)
    case Write(d, begins, ok) => OnWrite(s, t, d, begins, ok)
    case Misread(d, ok) => OnMisread(s, t, d, ok)
    case Read => OnRead(s, t)
    case Fetch(wrapped) => WithTask(s, t, s.tasks[t].(phase := AwaitFetch(Look(s.conn), wrapped)))
    case CommitCall => OnEnd(s, t, true)
    case RollbackCall => OnEnd(s, t, false)
    case LockGranted(ok) => OnGranted(s, t, ok)
    case Resume(ok) => OnResume(s, t, ok)
  }

  // ---------------------------------------------------------------- the invariant

  function Holder(s: State): Option<TaskId> {
    if s.owner.Some? then s.owner else s.implicitOwner
  }

  /** A task that does not hold the lock has no open block and no owned operation in flight. */
  predicate OutsiderOk(task: Task) {
    && task.frames == []
    && match task.phase
       case AwaitBegin(_) => false
       case AwaitWrite(_, _) => false
       case AwaitUndo => false
       case AwaitExit(_) => false
       case AwaitEnd(owned) => !owned
       case _ => true
  }

  /** The task inside `transaction()`: depth counts its blocks, the first of which alone is outermost. */
  predicate ExplicitOk(task: Task, depth: int, clean: bool, open: bool) {
    && depth == |task.frames|
    && (forall i :: 0 <= i < |task.frames| ==> (task.frames[i].outermost <==> i == 0))
    && (task.frames != [] ==> task.inContext && open)
    && match task.phase
       case AwaitBegin(ok) => task.frames == [] && clean && open == ok
       case AwaitExit(_) => task.frames == [] && clean && !open
       case AwaitWrite(implicitWrite, _) => task.frames != [] && !implicitWrite
       case Running => task.frames != []
       case AwaitRead(_) => task.frames != []
       case AwaitMisread => task.frames != []
       case AwaitFetch(_, _) => task.frames != []
       case _ => false
  }

  /** The task that wrote outside any block and has not committed or rolled back yet. */
  predicate ImplicitOk(task: Task, clean: bool, open: bool) {
    && task.frames == []
    && match task.phase
       case AwaitWrite(implicitWrite, _) => implicitWrite
       case AwaitUndo => clean && !open
       case AwaitEnd(owned) => owned && clean && !open
       case Running => true
       case AwaitRead(_) => true
       case AwaitMisread => true
       case AwaitFetch(_, _) => true
       case _ => false
  }

  predicate TaskOk(s: State, t: TaskId)
    requires t in s.tasks
  {
    if s.owner == Some(t) then ExplicitOk(s.tasks[t], s.depth, s.conn.pending == [], s.conn.open)
    else if s.implicitOwner == Some(t) then ImplicitOk(s.tasks[t], s.conn.pending == [], s.conn.open)
    else OutsiderOk(s.tasks[t])
  }

  predicate LockOk(s: State) {
    && !(s.owner.Some? && s.implicitOwner.Some?)
    && (s.locked <==> Holder(s).Some?)
    && (s.owner.None? ==> s.depth == 0)
    && (if s.implicitOwner.Some? then s.implicitDepth > 0 else s.implicitDepth == 0)
  }

  /** Uncommitted writes are exactly what the lock holder executed in its current unit. */
  predicate PendingOk(s: State) {
    && (!s.conn.open ==> s.conn.pending == [])
    && match Holder(s)
       case None => !s.conn.open
       case Some(t) => t in s.tasks && Mirrors(s.conn.pending, t, s.tasks[t].executed)
  }

  /** Every committed unit is the work of one task. */
  predicate UnitsOk(c: Connection) {
    forall i :: 0 <= i < |c.units| ==> c.units[i] != [] && AllBy(c.units[i], c.units[i][0].author)
  }

  predicate TasksOk(s: State) {
    forall t :: t in s.tasks ==> TaskOk(s, t)
  }

  predicate Safe(s: State) {
    LockOk(s) && PendingOk(s) && UnitsOk(s.conn) && TasksOk(s)
  }

  lemma SafeStart(s: State, child: TaskId, task: Task)
    requires Safe(s) && child !in s.tasks && task.phase.Running? && task.frames == []
    ensures Safe(WithTask(s, child, task))
  {
  }

  lemma SafeEnter(s: State, t: TaskId)
    requires Safe(s) && t in s.tasks && s.tasks[t].phase.Running?
    ensures Safe(OnEnter(s, t))
  {
  }

  lemma SafeExit(s: State, t: TaskId, raised: bool)
    requires Safe(s) && t in s.tasks && s.tasks[t].phase.Running? && s.tasks[t].frames != []
    ensures Safe(OnExit(s, t, raised))
  {
    assert TaskOk(s, t);
  }

  lemma OneTask(s: State, t: TaskId)
    requires TasksOk(s) && t in s.tasks
    ensures TaskOk(s, t)
  {
  }

  lemma ExecuteFacts(c: Connection, t: TaskId, d: Dml, begins: bool, ok: bool)
    ensures var c' := RawExecute(c, t, d, begins, ok);
            && c'.open == (c.open || begins)
            && c'.pending == (if ok && c'.open then c.pending + [Authored(t, d)] else c.pending)
            && (UnitsOk(c) ==> UnitsOk(c'))
            && c'.issued == c.issued + [Issued(t, Execute(d))]
            && c.units <= c'.units
            && (c'.open ==> c'.durable == c.durable && c'.units == c.units)
  {
  }

  lemma MirrorsMore(log: seq<Authored>, t: TaskId, ds: seq<Dml>, d: Dml)
    requires Mirrors(log, t, ds)
    ensures Mirrors(log + [Authored(t, d)], t, ds + [d])
  {
  }

  lemma SafeWrite(s: State, t: TaskId, d: Dml, begins: bool, ok: bool)
    requires Safe(s) && t in s.tasks && s.tasks[t].phase.Running?
    ensures Safe(OnWrite(s, t, d, begins, ok))
  {
    hide RawExecute, TasksOk, UnitsOk, Mirrors;
    OneTask(s, t);
    ExecuteFacts(s.conn, t, d, begins, ok);
    if Holder(s) == Some(t) {
      MirrorsMore(s.conn.pending, t, s.tasks[t].executed, d);
    }
    OthersKept(s, OnWrite(s, t, d, begins, ok), t);
  }

  lemma SafeRead(s: State, t: TaskId, wrapped: bool)
    requires Safe(s) && t in s.tasks && s.tasks[t].phase.Running?
    ensures Safe(OnRead(s, t))
    ensures Safe(WithTask(s, t, s.tasks[t].(phase := AwaitFetch(Look(s.conn), wrapped))))
  {
    assert TaskOk(s, t);
  }

  /** A write taken for a read reaches the connection inside another task's open transaction, past the lock. */
  predicate Leaks(s: State, e: Event) {
    && e.task in s.tasks && e.action.Misread? && e.action.ok
    && Holder(s).Some? && Holder(s) != Some(e.task) && s.tasks[e.task].inContext && s.conn.open
  }

  /** A write taken for a read keeps the invariant exactly when it does not slip into another task's transaction. */
  lemma SafeMisread(s: State, t: TaskId, d: Dml, ok: bool)
    requires Safe(s) && t in s.tasks && s.tasks[t].phase.Running?
    ensures Safe(OnMisread(s, t, d, ok)) <==> !Leaks(s, Event(t, Misread(d, ok)))
  {
    hide RawExecute, TasksOk, UnitsOk, Mirrors;
    OneTask(s, t);
    ExecuteFacts(s.conn, t, d, false, ok);
    var s' := OnMisread(s, t, d, ok);
    if Leaks(s, Event(t, Misread(d, ok))) {
      var h := Holder(s).value;
      MirrorsLength(s.conn.pending, h, s.tasks[h].executed);
      MirrorsLength(s'.conn.pending, h, s.tasks[h].executed);
    } else {
      if Holder(s) == Some(t) {
        MirrorsMore(s.conn.pending, t, s.tasks[t].executed, d);
      }
      OthersKept(s, s', t);
    }
  }

  lemma MirrorsLength(log: seq<Authored>, t: TaskId, ds: seq<Dml>)
    ensures Mirrors(log, t, ds) ==> |log| == |ds|
  {
  }

  lemma SafeEnd(s: State, t: TaskId, commit: bool)
    requires Safe(s) && t in s.tasks && s.tasks[t].phase.Running?
    ensures Safe(OnEnd(s, t, commit))
  {
    assert TaskOk(s, t);
    OthersKept(s, OnEnd(s, t, commit), t);
  }

  lemma MirrorsNothing(t: TaskId)
    ensures Mirrors([], t, [])
  {
  }

  lemma SafeGranted(s: State, t: TaskId, ok: bool)
    requires Safe(s) && t in s.tasks && Waiting(s.tasks[t].phase) && !s.locked
    ensures Safe(OnGranted(s, t, ok))
  {
    hide RawExecute, TasksOk, UnitsOk, Mirrors;
    OneTask(s, t);
    MirrorsNothing(t);
    match s.tasks[t].phase {
      case WaitWrite(d, begins) =>
        ExecuteFacts(s.conn, t, d, begins, ok);
        MirrorsMore([], t, [], d);
        assert [] + [Authored(t, d)] == [Authored(t, d)] && [] + [d] == [d];
      case WaitTurn(ForMisread(d)) => ExecuteFacts(s.conn, t, d, false, ok);
      case WaitTurn(ForCommit) => CommitUnits(s.conn, t);
      case WaitBegin => SameUnitsOk(s.conn, OnGranted(s, t, ok).conn);
      case WaitTurn(ForRead) => SameUnitsOk(s.conn, OnGranted(s, t, ok).conn);
      case WaitTurn(ForRollback) => SameUnitsOk(s.conn, OnGranted(s, t, ok).conn);
    }
    OthersKept(s, OnGranted(s, t, ok), t);
  }

  lemma SameUnitsOk(c: Connection, c': Connection)
    requires c'.units == c.units
    ensures UnitsOk(c') <==> UnitsOk(c)
  {
  }

  lemma CommitUnits(c: Connection, t: TaskId)
    requires c.pending == []
    ensures RawCommit(c, t).units == c.units
    ensures UnitsOk(c) ==> UnitsOk(RawCommit(c, t))
  {
  }

  /** Tasks other than t stay as they should be when t's step touches the lock only if t holds it. */
  lemma OthersKept(s: State, s': State, t: TaskId)
    requires TasksOk(s) && t in s.tasks && t in s'.tasks && s'.tasks == s.tasks[t := s'.tasks[t]] && TaskOk(s', t)
    requires (s'.owner == s.owner && s'.implicitOwner == s.implicitOwner && s'.depth == s.depth
              && s'.conn.pending == s.conn.pending && s'.conn.open == s.conn.open)
             || (s.owner in {None, Some(t)} && s.implicitOwner in {None, Some(t)}
                 && s'.owner in {None, Some(t)} && s'.implicitOwner in {None, Some(t)})
    ensures TasksOk(s')
  {
    forall u | u in s'.tasks ensures TaskOk(s', u) {
      if u != t {
        assert TaskOk(s, u);
      }
    }
  }

  lemma ResumedTask(s: State, t: TaskId, ok: bool)
    requires Safe(s) && t in s.tasks && !s.tasks[t].phase.Running? && !Waiting(s.tasks[t].phase)
    ensures LockOk(OnResume(s, t, ok)) && PendingOk(OnResume(s, t, ok)) && UnitsOk(OnResume(s, t, ok).conn)
    ensures TaskOk(OnResume(s, t, ok), t)
  {
    hide TasksOk, UnitsOk, Mirrors;
    OneTask(s, t);
    MirrorsNothing(t);
    SameUnitsOk(s.conn, OnResume(s, t, ok).conn);
  }

  lemma SafeResume(s: State, t: TaskId, ok: bool)
    requires Safe(s) && t in s.tasks && !s.tasks[t].phase.Running? && !Waiting(s.tasks[t].phase)
    ensures Safe(OnResume(s, t, ok))
  {
    hide TasksOk, UnitsOk, Mirrors, PendingOk;
    OneTask(s, t);
    ResumedTask(s, t, ok);
    OthersKept(s, OnResume(s, t, ok), t);
  }

  /** Every step of every task keeps the invariant, except a write that is taken for a read and so slips into another
      task's open transaction. */
  lemma SafeNext(s: State, e: Event)
    requires Safe(s) && Enabled(s, e)
    ensures Safe(Next(s, e)) <==> !Leaks(s, e)
  {
    match e.action
    case Start(child) => SafeStart(s, child, Task(Running, [], false, []));
    case Spawn(child) => SafeStart(s, child, Task(Running, [], s.tasks[e.task].inContext, []));
    case Enter => SafeEnter(s, e.task);
    case Exit(raised) => SafeExit(s, e.task, raised);
    case Write(d, begins, ok) => SafeWrite(s, e.task, d, begins, ok);
    case Misread(d, ok) => SafeMisread(s, e.task, d, ok);
    case Read => SafeRead(s, e.task, false);
    case Fetch(wrapped) => SafeRead(s, e.task, wrapped);
    case CommitCall => SafeEnd(s, e.task, true);
    case RollbackCall => SafeEnd(s, e.task, false);
    case LockGranted(ok) => SafeGranted(s, e.task, ok);
    case Resume(ok) => SafeResume(s, e.task, ok);
  }

  /** The write a step may dispatch. */
  function Dispatched(s: State, e: Event): (Dml, bool)
    requires Enabled(s, e)
  {
    match e.action
    case Write(d, begins, _) => (d, begins)
    case Misread(d, _) => (d, false)
    case LockGranted(_) =>
      (match s.tasks[e.task].phase
       case WaitWrite(d, begins) => (d, begins)
       case WaitTurn(ForMisread(d)) => (d, false)
       case _ => (Delete(""), false))
    case _ => (Delete(""), false)
  }

  /** A step reaches the connection by at most one raw operation. */
  lemma OneRawOp(s: State, e: Event)
    requires Enabled(s, e)
    ensures var (d, begins) := Dispatched(s, e);
            var (t, c) := (e.task, Next(s, e).conn);
            || c == s.conn || c == RawBegin(s.conn, t, true) || c == RawBegin(s.conn, t, false)
            || c == RawCommit(s.conn, t) || c == RawRollback(s.conn, t)
            || c == RawExecute(s.conn, t, d, begins, true) || c == RawExecute(s.conn, t, d, begins, false)
  {
    hide RawBegin, RawCommit, RawRollback, RawExecute;
  }

  lemma ConsistentNext(s: State, e: Event, start: Table)
    requires Consistent(s.conn, start) && Enabled(s, e)
    ensures Consistent(Next(s, e).conn, start)
  {
    hide Consistent, Next, RawBegin, RawCommit, RawRollback, RawExecute;
    OneRawOp(s, e);
    var (d, begins) := Dispatched(s, e);
    RawOpsKeepConsistent(s.conn, start, e.task, d, begins, true);
    RawOpsKeepConsistent(s.conn, start, e.task, d, begins, false);
  }

  // ---------------------------------------------------------------- runs

  predicate IsRun(s: State, es: seq<Event>)
    decreases |es|
  {
    es == [] || (Enabled(s, es[0]) && IsRun(Next(s, es[0]), es[1..]))
  }

  function Run(s: State, es: seq<Event>): State
    requires IsRun(s, es)
    decreases |es|
  {
    if es == [] then s else Run(Next(s, es[0]), es[1..])
  }

  lemma UnitsGrow(s: State, e: Event)
    requires Enabled(s, e)
    ensures s.conn.units <= Next(s, e).conn.units
  {
    hide Next;
    OneRawOp(s, e);
  }

  /** No step of the run slips a write into another task's open transaction. */
  predicate Leakless(s: State, es: seq<Event>)
    requires IsRun(s, es)
    decreases |es|
  {
    es == [] || (!Leaks(s, es[0]) && Leakless(Next(s, es[0]), es[1..]))
  }

  lemma StepKeeps(s: State, e: Event, start: Table)
    requires Safe(s) && Consistent(s.conn, start) && Enabled(s, e)
    ensures Safe(Next(s, e)) <==> !Leaks(s, e)
    ensures Consistent(Next(s, e).conn, start)
    ensures s.conn.units <= Next(s, e).conn.units
  {
    hide *;
    SafeNext(s, e);
    ConsistentNext(s, e, start);
    UnitsGrow(s, e);
  }

  lemma {:induction false} RunKeeps(s: State, es: seq<Event>, start: Table)
    requires Safe(s) && Consistent(s.conn, start) && IsRun(s, es) && Leakless(s, es)
    ensures Safe(Run(s, es)) && Consistent(Run(s, es).conn, start)
    ensures s.conn.units <= Run(s, es).conn.units
    decreases |es|
  {
    hide Next, Safe, Enabled, Leaks, Consistent;
    if es != [] {
      StepKeeps(s, es[0], start);
      RunKeeps(Next(s, es[0]), es[1..], start);
    }
  }

  /** The durable rows are whole single-task units run one at a time in commit order, and whatever is not durable yet is
      the lock holder's own work. */
  ghost predicate Serial(s: State, start: Table) {
    && s.conn.durable == RunUnits(s.conn.units, start)
    && UnitsOk(s.conn)
    && !(s.owner.Some? && s.implicitOwner.Some?)
    && (s.locked <==> Holder(s).Some?)
    && (if Holder(s).Some?
        then Holder(s).value in s.tasks
             && Mirrors(s.conn.pending, Holder(s).value, s.tasks[Holder(s).value].executed)
             && !Waiting(s.tasks[Holder(s).value].phase)
        else s.conn.pending == [] && s.conn.view == s.conn.durable)
  }

  ghost predicate SerialAlong(s: State, es: seq<Event>, start: Table)
    requires IsRun(s, es)
    decreases |es|
  {
    Serial(s, start) && (es == [] || SerialAlong(Next(s, es[0]), es[1..], start))
  }

  lemma SafeIsSerial(s: State, start: Table)
    requires Safe(s) && Consistent(s.conn, start)
    ensures Serial(s, start)
  {
    if Holder(s).Some? {
      assert TaskOk(s, Holder(s).value);
    }
  }

  lemma LeakIsNotSerial(s: State, e: Event, start: Table)
    requires Safe(s) && Enabled(s, e) && Leaks(s, e)
    ensures !Serial(Next(s, e), start)
  {
    var h := Holder(s).value;
    assert |Next(s, e).conn.pending| == |s.conn.pending| + 1 && Next(s, e).tasks[h] == s.tasks[h];
  }

  lemma {:induction false} RunIsSerial(s: State, es: seq<Event>, start: Table)
    requires Safe(s) && Consistent(s.conn, start) && IsRun(s, es)
    ensures SerialAlong(s, es, start) <==> Leakless(s, es)
    decreases |es|
  {
    hide Next, Safe, Enabled, Leaks, Consistent, Serial;
    SafeIsSerial(s, start);
    if es != [] {
      StepKeeps(s, es[0], start);
      if Leaks(s, es[0]) {
        LeakIsNotSerial(s, es[0], start);
      } else {
        RunIsSerial(Next(s, es[0]), es[1..], start);
      }
    }
  }

  /** An interleaving from a fresh connection is serial at every moment exactly when no write that is taken for a read
      slips into another task's open transaction. */
  lemma InterleavingsAreSerial(start: Table, es: seq<Event>)
    requires IsRun(Init(start), es)
    ensures SerialAlong(Init(start), es, start) <==> Leakless(Init(start), es)
    ensures Leakless(Init(start), es) ==> Serial(Run(Init(start), es), start)
  {
    InitIsSafe(start);
    hide *;
    RunIsSerial(Init(start), es, start);
    if Leakless(Init(start), es) {
      RunKeeps(Init(start), es, start);
      SafeIsSerial(Run(Init(start), es), start);
    }
  }

  lemma InitIsSafe(start: Table)
    ensures Safe(Init(start)) && Consistent(Init(start).conn, start)
  {
  }

  // ---------------------------------------------------------------- who can touch a unit

  predicate SameUnit(s: State, s': State) {
    && s'.conn == s.conn
    && s'.locked == s.locked
    && s'.owner == s.owner
    && s'.depth == s.depth
    && s'.implicitOwner == s.implicitOwner
    && s'.implicitDepth == s.implicitDepth
  }

  /** Another task than h sends a write that is taken for a read past the lock, because it inherited the ContextVar. */
  predicate Slips(s: State, e: Event, h: TaskId) {
    e.task in s.tasks && e.task != h && e.action.Misread? && s.tasks[e.task].inContext
  }

  /** While somebody holds the lock, another task's step changes the connection or the ownership exactly when it sends a
      write that is taken for a read past the lock. */
  lemma OutsidersCannotTouchUnit(s: State, e: Event, h: TaskId)
    requires Safe(s) && Enabled(s, e) && Holder(s) == Some(h) && e.task != h
    ensures SameUnit(s, Next(s, e)) <==> !Slips(s, e, h)
    ensures h in s.tasks && h in Next(s, e).tasks && Next(s, e).tasks[h] == s.tasks[h]
  {
    assert TaskOk(s, e.task);
    assert TaskOk(s, h);
    if Slips(s, e, h) {
      assert |Next(s, e).conn.issued| == |s.conn.issued| + 1;
    }
  }

  lemma OnlyMisreadsLeak(s: State, e: Event)
    requires !e.action.Misread?
    ensures !Leaks(s, e)
  {
  }

  lemma SlipIsNoLeak(s: State, e: Event, h: TaskId)
    requires Holder(s) == Some(h) && !Slips(s, e, h)
    ensures !Leaks(s, e)
  {
  }

  /** A transaction of task 0, a task that task 0 spawned in it, and a write of that task that is taken for a read. */
  function Slipping(write: Dml): seq<Event> {
    [Event(0, Enter), Event(0, LockGranted(true)), Event(0, Resume(true)), Event(0, Spawn(1)),
        Event(1, Misread(write, true))]
  }

  function Slipped(start: Table, write: Dml): State {
    var inside := [Frame(true, false)];
    State(true, Some(0), 1, None, 0,
          Connection(start, Apply(write, start), [Authored(1, write)], true, [],
                     [Issued(0, Begin), Issued(1, Execute(write))]),
          map[0 := Task(Running, inside, true, []), 1 := Task(AwaitMisread, [], true, [])])
  }

  lemma RunIs(s: State, es: seq<Event>)
    ensures es == [] ==> IsRun(s, es) && Run(s, es) == s && Leakless(s, es)
    ensures es != [] && Enabled(s, es[0]) && IsRun(Next(s, es[0]), es[1..]) ==>
              IsRun(s, es) && Run(s, es) == Run(Next(s, es[0]), es[1..])
              && (Leakless(s, es) <==> !Leaks(s, es[0]) && Leakless(Next(s, es[0]), es[1..]))
  {
    hide Next, Enabled, Leaks;
  }

  /** Such a run: the child's write is in the parent's transaction, and task 1 never waited for the lock. */
  lemma MisreadSlipsIn(start: Table, write: Dml)
    ensures var es := Slipping(write);
            && IsRun(Init(start), es) && Run(Init(start), es) == Slipped(start, write) && !Leakless(Init(start), es)
            && !Serial(Slipped(start, write), start)
  {
    SlippingSteps(start, write);
    hide Next, Enabled, Leaks, Init, Serial, Slipped, IsRun, Run, Leakless;
    var es := Slipping(write);
    var s0 := Init(start);
    var s1 := Next(s0, es[0]);
    var s2 := Next(s1, es[1]);
    var s3 := Next(s2, es[2]);
    var s4 := Next(s3, es[3]);
    Tails(es);
    RunIs(Next(s4, es[4]), []);
    RunIs(s4, es[4..]);
    RunIs(s3, es[3..]);
    RunIs(s2, es[2..]);
    RunIs(s1, es[1..]);
    RunIs(s0, es);
  }

  lemma Tails(es: seq<Event>)
    requires |es| == 5
    ensures es[1..][1..] == es[2..] && es[2..][1..] == es[3..] && es[3..][1..] == es[4..] && es[4..][1..] == []
    ensures es[1..][0] == es[1] && es[2..][0] == es[2] && es[3..][0] == es[3] && es[4..][0] == es[4]
  {
  }

  /** The parent alone, inside its transaction. */
  function InBlock(start: Table): State {
    State(true, Some(0), 1, None, 0, Connection(start, start, [], true, [], [Issued(0, Begin)]),
          map[0 := Task(Running, [Frame(true, false)], true, [])])
  }

  lemma SlippingSteps(start: Table, write: Dml)
    ensures var es := Slipping(write);
            var s0 := Init(start);
            && Enabled(s0, es[0])
            && var s1 := Next(s0, es[0]);
               && Enabled(s1, es[1])
               && var s2 := Next(s1, es[1]);
                  && Enabled(s2, es[2])
                  && var s3 := Next(s2, es[2]);
                     && Enabled(s3, es[3])
                     && var s4 := Next(s3, es[3]);
                        && Enabled(s4, es[4]) && Leaks(s4, es[4]) && Next(s4, es[4]) == Slipped(start, write)
    ensures !Serial(Slipped(start, write), start)
  {
    var es := Slipping(write);
    var s2 := Next(Next(Init(start), es[0]), es[1]);
    assert [] + [Issued(0, Begin)] == [Issued(0, Begin)] && [] + [Frame(true, false)] == [Frame(true, false)];
    assert s2.tasks == map[0 := Task(AwaitBegin(true), [], false, [])];
    var s3 := Next(s2, es[2]);
    assert s3.tasks == InBlock(start).tasks;
    assert s3 == InBlock(start);
    SlippingIn(start, write);
  }

  lemma SlippingIn(start: Table, write: Dml)
    ensures var s3 := InBlock(start);
            var (spawn, slip) := (Event(0, Spawn(1)), Event(1, Misread(write, true)));
            && Enabled(s3, spawn) && Enabled(Next(s3, spawn), slip) && Leaks(Next(s3, spawn), slip)
            && Next(Next(s3, spawn), slip) == Slipped(start, write)
    ensures !Serial(Slipped(start, write), start)
  {
    var s4 := Next(InBlock(start), Event(0, Spawn(1)));
    var s5 := Next(s4, Event(1, Misread(write, true)));
    assert s5.tasks == Slipped(start, write).tasks;
    assert [Issued(0, Begin)] + [Issued(1, Execute(write))] == [Issued(0, Begin), Issued(1, Execute(write))];
    assert [] + [Authored(1, write)] == [Authored(1, write)];
    assert s5.conn == Slipped(start, write).conn;
    assert |Slipped(start, write).conn.pending| == 1;
  }

  /** `commit()` or `rollback()` from a task that owns nothing ends nobody's unit: it waits, or it runs on
      a connection with nothing pending. */
  lemma UnownedEndIsHarmless(s: State, e: Event, start: Table)
    requires Safe(s) && Consistent(s.conn, start) && Enabled(s, e) && Holder(s) != Some(e.task)
    requires e.action.CommitCall? || e.action.RollbackCall?
             || (e.action.LockGranted? && s.tasks[e.task].phase in {WaitTurn(ForCommit), WaitTurn(ForRollback)})
    ensures SameUnit(s.(conn := s.conn.(issued := Next(s, e).conn.issued)), Next(s, e))
    ensures Next(s, e).conn != s.conn ==> !s.locked && s.conn.pending == []
  {
    assert TaskOk(s, e.task);
  }

  // ---------------------------------------------------------------- what reads see

  /** Another task holds an open unit in which a write has succeeded. A caller sees it as: some other task is between
      its first successful statement and its COMMIT or ROLLBACK. */
  predicate ForeignWrites(s: State, t: TaskId) {
    Holder(s).Some? && Holder(s).value != t && Holder(s).value in s.tasks && s.tasks[Holder(s).value].executed != []
  }

  /** The read's statement is dispatched by this step. */
  predicate DispatchesRead(s: State, e: Event)
    requires Enabled(s, e)
  {
    (e.action.Read? || (e.action.LockGranted? && s.tasks[e.task].phase == WaitTurn(ForRead)))
    && Next(s, e).tasks[e.task].phase.AwaitRead?
  }

  /** A read sees a committed prefix plus the reader's own writes, unless the reader inherited the ContextVar
      of a block that is not its own; then, and only then, it sees the holder's uncommitted writes. */
  lemma ReadIsCleanIff(s: State, e: Event)
    requires Safe(s) && Enabled(s, e) && DispatchesRead(s, e)
    ensures var seen := Next(s, e).tasks[e.task].phase.seen;
            && seen.committed == |s.conn.units|
            && (AllBy(seen.uncommitted, e.task) <==> !(s.tasks[e.task].inContext && ForeignWrites(s, e.task)))
            && (AllBy(seen.uncommitted, e.task) ==>
                  Mirrors(seen.uncommitted, e.task,
                          if Holder(s) == Some(e.task) then s.tasks[e.task].executed else []))
  {
    assert TaskOk(s, e.task);
    if ForeignWrites(s, e.task) {
      assert s.conn.pending[0].author == Holder(s).value;
    }
  }

  /** A non-inheriting task's read is always clean. */
  lemma IndependentReadIsClean(s: State, e: Event)
    requires Safe(s) && Enabled(s, e) && DispatchesRead(s, e)
    requires !s.tasks[e.task].inContext
    ensures AllBy(Next(s, e).tasks[e.task].phase.seen.uncommitted, e.task)
  {
    ReadIsCleanIff(s, e);
  }

  /** `cursor.fetchall()` is a second operation the lock does not gate: rows stepped then are clean exactly
      when no other task has uncommitted writes at that moment. */
  lemma FetchIsCleanIff(s: State, t: TaskId, wrapped: bool)
    requires Safe(s) && Enabled(s, Event(t, Fetch(wrapped)))
    ensures var phase := Next(s, Event(t, Fetch(wrapped))).tasks[t].phase;
            phase.AwaitFetch? && (AllBy(phase.seen.uncommitted, t) <==> !ForeignWrites(s, t))
  {
    if ForeignWrites(s, t) {
      assert s.conn.pending[0].author == Holder(s).value;
    }
  }

  lemma RunCons(s: State, e: Event, es: seq<Event>)
    requires Enabled(s, e) && IsRun(Next(s, e), es)
    ensures IsRun(s, [e] + es) && Run(s, [e] + es) == Run(Next(s, e), es)
  {
    hide Next, Enabled;
    assert ([e] + es)[1..] == es;
  }

  lemma RunThree(s: State, e0: Event, e1: Event, e2: Event, es: seq<Event>)
    requires Enabled(s, e0) && Enabled(Next(s, e0), e1) && Enabled(Next(Next(s, e0), e1), e2)
    requires IsRun(Next(Next(Next(s, e0), e1), e2), es)
    ensures IsRun(s, [e0] + ([e1] + ([e2] + es)))
    ensures Run(s, [e0] + ([e1] + ([e2] + es))) == Run(Next(Next(Next(s, e0), e1), e2), es)
  {
    hide *;
    RunCons(Next(Next(s, e0), e1), e2, es);
    RunCons(Next(s, e0), e1, [e2] + es);
    RunCons(s, e0, [e1] + ([e2] + es));
  }

  /** Task 0 has executed a SELECT and been resumed; task 1 is running. */
  function SelectDone(start: Table): State {
    Init(start).(tasks := map[0 := Task(Running, [], false, []), 1 := Task(Running, [], false, [])])
  }

  lemma FetchAfterForeignWrite(start: Table, write: Dml)
    ensures var es := [Event(1, Write(write, true, true))]
            + ([Event(1, LockGranted(true))] + ([Event(0, Fetch(false))] + []));
            && IsRun(SelectDone(start), es)
            && 0 in Run(SelectDone(start), es).tasks
            && Run(SelectDone(start), es).tasks[0].phase == AwaitFetch(Snapshot(0, [Authored(1, write)]), false)
  {
    var s := SelectDone(start);
    var e0, e1, e2 := Event(1, Write(write, true, true)), Event(1, LockGranted(true)), Event(0, Fetch(false));
    assert Enabled(s, e0) && Enabled(Next(s, e0), e1) && Enabled(Next(Next(s, e0), e1), e2);
    RunThree(s, e0, e1, e2, []);
  }

  lemma SelectSteps(start: Table)
    ensures var (s, e0, e1, e2) := (Init(start), Event(0, Start(1)), Event(0, Read), Event(0, Resume(true)));
            && Enabled(s, e0) && Enabled(Next(s, e0), e1) && Enabled(Next(Next(s, e0), e1), e2)
            && Next(Next(Next(s, e0), e1), e2) == SelectDone(start)
  {
  }

  /** Task 0 executes a SELECT, task 1 writes, and task 0 then fetches the remaining rows. */
  lemma FetchCanSeeUncommitted(start: Table, write: Dml)
    ensures exists es :: IsRun(Init(start), es) && 0 in Run(Init(start), es).tasks
                         && Run(Init(start), es).tasks[0].phase == AwaitFetch(Snapshot(0, [Authored(1, write)]), false)
  {
    hide *;
    SelectSteps(start);
    FetchAfterForeignWrite(start, write);
    var es := [Event(1, Write(write, true, true))] + ([Event(1, LockGranted(true))] + ([Event(0, Fetch(false))] + []));
    RunThree(Init(start), Event(0, Start(1)), Event(0, Read), Event(0, Resume(true)), es);
  }

  // ---------------------------------------------------------------- one transaction, any interleaving

  /** t's blocks nest in `es`, which starts `depth` blocks deep, never leaves the outermost one, and ends in it. */
  predicate NestsInside(es: seq<Event>, t: TaskId, depth: nat)
    decreases |es|
  {
    if es == [] then depth == 1
    else if es[0].task != t then NestsInside(es[1..], t, depth)
    else
      match es[0].action
      case Enter => NestsInside(es[1..], t, depth + 1)
      case Exit(_) => depth > 1 && NestsInside(es[1..], t, depth - 1)
      case _ => NestsInside(es[1..], t, depth)
  }

  function DepthAfter(e: Event, t: TaskId, depth: nat): nat {
    if e.task != t then depth
    else if e.action.Enter? then depth + 1
    else if e.action.Exit? && depth > 0 then depth - 1
    else depth
  }

  predicate IsWrite(a: Action) {
    a.Write? || a.Misread?
  }

  /** The writes of t that succeeded, in order. */
  function OwnWrites(es: seq<Event>, t: TaskId): seq<Dml> {
    if es == [] then []
    else (if es[0].task == t && IsWrite(es[0].action) && es[0].action.ok then [es[0].action.write] else [])
         + OwnWrites(es[1..], t)
  }

  /** The statements t sent, in order, whether they succeeded or not. */
  function OwnStatements(es: seq<Event>, t: TaskId): seq<Issued> {
    if es == [] then []
    else (if es[0].task == t && IsWrite(es[0].action) then [Issued(t, Execute(es[0].action.write))] else [])
         + OwnStatements(es[1..], t)
  }

  /** From s to s' task t stayed inside, executed `ds` more, and `ops` is all the connection was sent. */
  predicate Advanced(s: State, s': State, t: TaskId, ds: seq<Dml>, ops: seq<Issued>)
    requires t in s.tasks && s.tasks[t].frames != []
  {
    && t in s'.tasks && s'.owner == Some(t) && s'.tasks[t].frames != [] && s'.tasks[t].frames[0] == s.tasks[t].frames[0]
    && s'.tasks[t].executed == s.tasks[t].executed + ds
    && s'.conn.durable == s.conn.durable && s'.conn.units == s.conn.units
    && s'.conn.issued == s.conn.issued + ops
  }

  lemma AdvancedTwice(s: State, s1: State, s2: State, t: TaskId, ds1: seq<Dml>, ds2: seq<Dml>,
                      ops1: seq<Issued>, ops2: seq<Issued>)
    requires t in s.tasks && s.tasks[t].frames != []
    requires Advanced(s, s1, t, ds1, ops1) && Advanced(s1, s2, t, ds2, ops2)
    ensures Advanced(s, s2, t, ds1 + ds2, ops1 + ops2)
  {
    assert s.tasks[t].executed + (ds1 + ds2) == (s.tasks[t].executed + ds1) + ds2;
    assert s.conn.issued + (ops1 + ops2) == (s.conn.issued + ops1) + ops2;
  }

  /** The rows a step of t leaves alone inside its block. */
  lemma InsideOwn(s: State, e: Event, t: TaskId)
    requires Safe(s) && Enabled(s, e) && e.task == t
    requires s.owner == Some(t) && s.tasks[t].frames != [] && DepthAfter(e, t, |s.tasks[t].frames|) > 0
    ensures Advanced(s, Next(s, e), t, OwnWrites([e], t), OwnStatements([e], t))
    ensures |Next(s, e).tasks[t].frames| == DepthAfter(e, t, |s.tasks[t].frames|)
  {
    hide TasksOk, UnitsOk, Mirrors, RawExecute;
    OneTask(s, t);
    if IsWrite(e.action) {
      ExecuteFacts(s.conn, t, e.action.write, if e.action.Write? then e.action.begins else false, e.action.ok);
    }
    assert [e][1..] == [] && s.conn.issued + [] == s.conn.issued && s.tasks[t].executed + [] == s.tasks[t].executed;
  }

  lemma InsideOther(s: State, e: Event, t: TaskId)
    requires Safe(s) && Enabled(s, e) && e.task != t
    requires t in s.tasks && s.owner == Some(t) && s.tasks[t].frames != [] && !Slips(s, e, t)
    ensures Advanced(s, Next(s, e), t, OwnWrites([e], t), OwnStatements([e], t))
    ensures |Next(s, e).tasks[t].frames| == |s.tasks[t].frames|
  {
    OutsidersCannotTouchUnit(s, e, t);
    hide Next, Safe;
    assert [e][1..] == [] && s.conn.issued + [] == s.conn.issued && s.tasks[t].executed + [] == s.tasks[t].executed;
  }

  lemma InsideStep(s: State, e: Event, t: TaskId)
    requires Safe(s) && Enabled(s, e)
    requires t in s.tasks && s.owner == Some(t) && s.tasks[t].frames != []
    requires DepthAfter(e, t, |s.tasks[t].frames|) > 0 && !Slips(s, e, t)
    ensures Advanced(s, Next(s, e), t, OwnWrites([e], t), OwnStatements([e], t))
    ensures |Next(s, e).tasks[t].frames| == DepthAfter(e, t, |s.tasks[t].frames|)
  {
    hide Next, Safe, Enabled, Advanced, OwnWrites, OwnStatements;
    if e.task == t {
      InsideOwn(s, e, t);
    } else {
      InsideOther(s, e, t);
    }
  }

  lemma OwnStep(es: seq<Event>, t: TaskId)
    requires es != []
    ensures OwnWrites(es, t) == OwnWrites([es[0]], t) + OwnWrites(es[1..], t)
    ensures OwnStatements(es, t) == OwnStatements([es[0]], t) + OwnStatements(es[1..], t)
  {
    assert [es[0]][1..] == [];
  }

  lemma NestStep(es: seq<Event>, t: TaskId, depth: nat)
    requires es != [] && depth > 0 && NestsInside(es, t, depth)
    ensures DepthAfter(es[0], t, depth) > 0 && NestsInside(es[1..], t, DepthAfter(es[0], t, depth))
  {
  }

  /** No other task sends a write past the lock in the run. */
  predicate Unslipped(s: State, es: seq<Event>, h: TaskId)
    requires IsRun(s, es)
    decreases |es|
  {
    es == [] || (!Slips(s, es[0], h) && Unslipped(Next(s, es[0]), es[1..], h))
  }

  lemma {:induction false} InsideRun(s: State, es: seq<Event>, t: TaskId)
    requires Safe(s) && IsRun(s, es) && Unslipped(s, es, t)
    requires t in s.tasks && s.owner == Some(t) && s.tasks[t].frames != [] && NestsInside(es, t, |s.tasks[t].frames|)
    ensures Advanced(s, Run(s, es), t, OwnWrites(es, t), OwnStatements(es, t))
    ensures Safe(Run(s, es)) && Leakless(s, es) && t in Run(s, es).tasks
    ensures |Run(s, es).tasks[t].frames| == 1 && Run(s, es).tasks[t].frames[0] == s.tasks[t].frames[0]
    decreases |es|
  {
    if es == [] {
      assert s.conn.issued + [] == s.conn.issued;
    } else {
      hide Next, Safe, Enabled, OwnWrites, OwnStatements, NestsInside, DepthAfter, Leaks, Slips;
      var s1 := Next(s, es[0]);
      SlipIsNoLeak(s, es[0], t);
      NestStep(es, t, |s.tasks[t].frames|);
      InsideStep(s, es[0], t);
      SafeNext(s, es[0]);
      InsideRun(s1, es[1..], t);
      AdvancedTwice(s, s1, Run(s, es), t, OwnWrites([es[0]], t), OwnWrites(es[1..], t),
                    OwnStatements([es[0]], t), OwnStatements(es[1..], t));
      OwnStep(es, t);
    }
  }

  // ---------------------------------------------------------------- BEGIN, COMMIT and ROLLBACK in flight

  predicate Foreign(es: seq<Event>, t: TaskId) {
    forall i :: 0 <= i < |es| ==> es[i].task != t
  }

  /** While t holds the lock, nothing any number of other tasks do reaches the connection, the ownership or t. */
  lemma {:induction false} ForeignRun(s: State, es: seq<Event>, t: TaskId)
    requires Safe(s) && IsRun(s, es) && Foreign(es, t) && Holder(s) == Some(t) && Unslipped(s, es, t)
    ensures SameUnit(s, Run(s, es)) && Safe(Run(s, es)) && Leakless(s, es)
    ensures t in s.tasks && t in Run(s, es).tasks && Run(s, es).tasks[t] == s.tasks[t]
    decreases |es|
  {
    if es != [] {
      hide Next, Safe, Enabled, Slips, Leaks;
      OutsidersCannotTouchUnit(s, es[0], t);
      SlipIsNoLeak(s, es[0], t);
      SafeNext(s, es[0]);
      assert Holder(Next(s, es[0])) == Some(t);
      ForeignRun(Next(s, es[0]), es[1..], t);
    }
  }

  lemma {:induction false} RunConcat(s: State, a: seq<Event>, b: seq<Event>)
    requires IsRun(s, a + b)
    ensures IsRun(s, a) && IsRun(Run(s, a), b) && Run(s, a + b) == Run(Run(s, a), b)
    ensures forall h :: Unslipped(s, a + b, h) ==> Unslipped(s, a, h) && Unslipped(Run(s, a), b, h)
    ensures Leakless(s, a + b) <==> Leakless(s, a) && Leakless(Run(s, a), b)
    decreases |a|
  {
    hide Next, Enabled, Slips, Leaks;
    if a == [] {
      assert a + b == b;
    } else {
      assert (a + b)[1..] == a[1..] + b;
      RunConcat(Next(s, a[0]), a[1..], b);
    }
  }

  /** One step and then the rest. */
  lemma RunFirst(s: State, e: Event, es: seq<Event>)
    requires IsRun(s, [e] + es)
    ensures Enabled(s, e) && IsRun(Next(s, e), es) && Run(s, [e] + es) == Run(Next(s, e), es)
    ensures forall h :: Unslipped(s, [e] + es, h) ==> Unslipped(Next(s, e), es, h)
    ensures Leakless(s, [e] + es) <==> !Leaks(s, e) && Leakless(Next(s, e), es)
  {
    hide Next, Enabled, Slips, Leaks;
    assert ([e] + es)[1..] == es;
  }

  /** A step of t, then steps of other tasks only, then t's raw operation returns. */
  function InFlight(e: Event, others: seq<Event>, ok: bool): seq<Event> {
    [e] + (others + [Event(e.task, Resume(ok))])
  }

  lemma FlightRuns(s: State, e: Event, others: seq<Event>, ok: bool)
    requires IsRun(s, InFlight(e, others, ok))
    ensures Enabled(s, e) && IsRun(Next(s, e), others)
    ensures Enabled(Run(Next(s, e), others), Event(e.task, Resume(ok)))
    ensures Run(s, InFlight(e, others, ok)) == Next(Run(Next(s, e), others), Event(e.task, Resume(ok)))
    ensures forall h :: Unslipped(s, InFlight(e, others, ok), h) ==> Unslipped(Next(s, e), others, h)
    ensures !Leaks(s, e) && Leakless(Next(s, e), others) ==> Leakless(s, InFlight(e, others, ok))
  {
    hide Next, Enabled, Leaks, Slips;
    RunFirst(s, e, others + [Event(e.task, Resume(ok))]);
    RunConcat(Next(s, e), others, [Event(e.task, Resume(ok))]);
    OnlyMisreadsLeak(Run(Next(s, e), others), Event(e.task, Resume(ok)));
    RunFirst(Run(Next(s, e), others), Event(e.task, Resume(ok)), []);
    assert [Event(e.task, Resume(ok))] + [] == [Event(e.task, Resume(ok))];
  }

  lemma GrantBegins(s: State, t: TaskId, ok: bool)
    requires Safe(s) && Enabled(s, Event(t, LockGranted(ok))) && s.tasks[t].phase.WaitBegin?
    ensures var s1 := Next(s, Event(t, LockGranted(ok)));
            && Holder(s1) == Some(t) == s1.owner && s1.implicitOwner == None && s1.implicitDepth == s.implicitDepth
            && s1.conn == RawBegin(s.conn, t, ok) && s1.conn.pending == []
            && s1.depth == 0 == s.depth && s.owner == None == s.implicitOwner && !s.locked
            && s1.tasks[t] == s.tasks[t].(phase := AwaitBegin(ok), executed := []) && s.tasks[t].frames == []
  {
    assert TaskOk(s, t);
  }

  /** A transaction starts by one BEGIN on a connection with nothing pending, whatever other tasks do while it is on its
      way, and remembers the ContextVar it restores at the end. A BEGIN that fails leaves rows, ownership and
      lock as they were. */
  lemma TransactionBegins(s: State, t: TaskId, ok: bool, others: seq<Event>, resumed: bool)
    requires Safe(s) && t in s.tasks && s.tasks[t].phase.WaitBegin? && Foreign(others, t)
    requires IsRun(s, InFlight(Event(t, LockGranted(ok)), others, resumed))
    requires Unslipped(s, InFlight(Event(t, LockGranted(ok)), others, resumed), t)
    ensures var s' := Run(s, InFlight(Event(t, LockGranted(ok)), others, resumed));
            && Safe(s') && Leakless(s, InFlight(Event(t, LockGranted(ok)), others, resumed))
            && t in s'.tasks && s'.implicitOwner == None == s.implicitOwner
            && !s.locked && s.depth == 0 && s.owner == None && s.conn.pending == [] && !s.conn.open
            && s'.conn == RawBegin(s.conn, t, ok)
            && (ok ==> && s'.owner == Some(t) && s'.depth == 1
                       && s'.tasks[t] == Task(Running, [Frame(true, s.tasks[t].inContext)], true, []))
            && (!ok ==> && !s'.locked && s'.owner == None && s'.depth == 0
                        && s'.tasks[t] == s.tasks[t].(phase := Running, executed := []))
  {
    var e := Event(t, LockGranted(ok));
    hide Safe, Next, IsRun, Run, InFlight, Foreign, Unslipped, Leaks;
    FlightRuns(s, e, others, resumed);
    OnlyMisreadsLeak(s, e);
    SafeNext(s, e);
    GrantBegins(s, t, ok);
    ForeignRun(Next(s, e), others, t);
    OnlyMisreadsLeak(Run(Next(s, e), others), Event(t, Resume(resumed)));
    SafeNext(Run(Next(s, e), others), Event(t, Resume(resumed)));
    BeginReturns(Run(Next(s, e), others), t, ok, resumed);
    UnlockedIsClean(s);
  }

  lemma UnlockedIsClean(s: State)
    requires Safe(s) && s.owner == None && s.implicitOwner == None
    ensures s.conn.pending == [] && !s.conn.open
  {
  }

  lemma BeginReturns(s: State, t: TaskId, ok: bool, resumed: bool)
    requires t in s.tasks && s.tasks[t].phase == AwaitBegin(ok) && s.tasks[t].frames == [] && s.depth == 0
    ensures var s' := Next(s, Event(t, Resume(resumed)));
            && s'.conn == s.conn && s'.implicitOwner == s.implicitOwner && t in s'.tasks
            && (ok ==> && s'.owner == s.owner && s'.depth == 1
                       && s'.tasks[t] == Task(Running, [Frame(true, s.tasks[t].inContext)], true, s.tasks[t].executed))
            && (!ok ==> !s'.locked && s'.owner == None && s'.depth == 0 && s'.tasks[t] == s.tasks[t].(phase := Running))
  {
  }

  lemma ExitEnds(s: State, t: TaskId, raised: bool)
    requires Safe(s) && Enabled(s, Event(t, Exit(raised))) && |s.tasks[t].frames| == 1
    ensures var s1 := Next(s, Event(t, Exit(raised)));
            && Holder(s1) == Some(t) == s1.owner && s1.implicitOwner == None && s1.depth == 0
            && s1.conn == (if raised then RawRollback(s.conn, t) else RawCommit(s.conn, t))
            && s1.tasks[t] == Task(AwaitExit(s.tasks[t].frames[0].saved), [], s.tasks[t].inContext, [])
  {
    assert TaskOk(s, t);
  }

  /** Leaving the outermost block ends the unit with one COMMIT or ROLLBACK, whatever other tasks do while it is on its
      way, and then gives lock, owner, depth and ContextVar back. */
  lemma OutermostExit(s: State, t: TaskId, raised: bool, others: seq<Event>, resumed: bool)
    requires Safe(s) && t in s.tasks && |s.tasks[t].frames| == 1 && Foreign(others, t)
    requires IsRun(s, InFlight(Event(t, Exit(raised)), others, resumed))
    requires Unslipped(s, InFlight(Event(t, Exit(raised)), others, resumed), t)
    ensures var s' := Run(s, InFlight(Event(t, Exit(raised)), others, resumed));
            && s'.conn == (if raised then RawRollback(s.conn, t) else RawCommit(s.conn, t))
            && !s'.locked && s'.owner == None && s'.depth == 0 && s'.implicitOwner == None
            && t in s'.tasks && s'.tasks[t] == Task(Running, [], s.tasks[t].frames[0].saved, [])
  {
    var e := Event(t, Exit(raised));
    hide Safe, Next, IsRun, Run, InFlight, Foreign, Unslipped, Leaks;
    FlightRuns(s, e, others, resumed);
    OnlyMisreadsLeak(s, e);
    SafeNext(s, e);
    ExitEnds(s, t, raised);
    ForeignRun(Next(s, e), others, t);
    ExitReturns(Run(Next(s, e), others), t, resumed);
  }

  lemma ExitReturns(s: State, t: TaskId, resumed: bool)
    requires t in s.tasks && s.tasks[t].phase.AwaitExit?
    ensures var s' := Next(s, Event(t, Resume(resumed)));
            && s'.conn == s.conn && s'.implicitOwner == s.implicitOwner && !s'.locked && s'.owner == None
            && s'.depth == s.depth
            && t in s'.tasks && s'.tasks[t] == s.tasks[t].(phase := Running, inContext := s.tasks[t].phase.saved)
  {
  }

  function Authors(t: TaskId, ds: seq<Dml>): (log: seq<Authored>)
    ensures Mirrors(log, t, ds)
  {
    if ds == [] then [] else Authors(t, ds[..|ds| - 1]) + [Authored(t, ds[|ds| - 1])]
  }

  /** A whole transaction of t: the granted lock with its BEGIN, the block, and the way out; `others` are the steps of
      other tasks while BEGIN and while COMMIT or ROLLBACK are on their way. */
  function Transaction(t: TaskId, begin: seq<Event>, inside: seq<Event>, raised: bool, end: seq<Event>): seq<Event> {
    InFlight(Event(t, LockGranted(true)), begin, true) + (inside + InFlight(Event(t, Exit(raised)), end, true))
  }

  /** From the granted lock to the returned COMMIT or ROLLBACK, whatever nested blocks, `commit()`, `rollback()` and
      failed statements t runs and whatever other tasks do at any moment: the connection is sent exactly one BEGIN, t's
      statements and one COMMIT or ROLLBACK; all of t's successful writes become durable together, or none do, none
      exactly when an exception leaves the outermost block; owner, depth, lock and ContextVar are back where they
      were. */
  lemma TransactionIsAtomic(s: State, t: TaskId, begin: seq<Event>, inside: seq<Event>, raised: bool, end: seq<Event>,
                            start: Table)
    requires Safe(s) && Consistent(s.conn, start) && t in s.tasks && s.tasks[t].phase.WaitBegin?
    requires Foreign(begin, t) && NestsInside(inside, t, 1) && Foreign(end, t)
    requires IsRun(s, Transaction(t, begin, inside, raised, end))
             && Unslipped(s, Transaction(t, begin, inside, raised, end), t)
    ensures var s' := Run(s, Transaction(t, begin, inside, raised, end));
            var unit := Authors(t, OwnWrites(inside, t));
            && s'.conn.issued
               == s.conn.issued + [Issued(t, Begin)] + OwnStatements(inside, t)
                   + [Issued(t, if raised then Rollback else Commit)]
            && s'.conn.durable == (if raised then s.conn.durable else Replay(unit, s.conn.durable))
            && s'.conn.view == s'.conn.durable && s'.conn.pending == []
            && s'.conn.units == (if raised || unit == [] then s.conn.units else s.conn.units + [unit])
            && s'.owner == s.owner == None && s'.implicitOwner == s.implicitOwner == None && s'.depth == s.depth == 0
            && !s'.locked && !s.locked
            && t in s'.tasks && s'.tasks[t] == Task(Running, [], s.tasks[t].inContext, []) && s.tasks[t].frames == []
  {
    hide *;
    var first, last := InFlight(Event(t, LockGranted(true)), begin, true), InFlight(Event(t, Exit(raised)), end, true);
    TransactionIs(t, begin, inside, raised, end);
    RunConcat(s, first, inside + last);
    var s1 := Run(s, first);
    RunConcat(s1, inside, last);
    var s2 := Run(s1, inside);
    TransactionBegins(s, t, true, begin, true);
    NoFrames(s, t);
    RunKeeps(s, first, start);
    InsideRun(s1, inside, t);
    RunKeeps(s1, inside, start);
    OutermostExit(s2, t, raised, end, true);
    UnitEnds(s, s1, s2, t, OwnWrites(inside, t), OwnStatements(inside, t), raised, start);
  }

  lemma TransactionIs(t: TaskId, begin: seq<Event>, inside: seq<Event>, raised: bool, end: seq<Event>)
    ensures Transaction(t, begin, inside, raised, end)
            == InFlight(Event(t, LockGranted(true)), begin, true)
                + (inside + InFlight(Event(t, Exit(raised)), end, true))
  {
  }

  lemma NoFrames(s: State, t: TaskId)
    requires Safe(s) && t in s.tasks && s.tasks[t].phase.WaitBegin?
    ensures s.tasks[t].frames == []
  {
    assert TaskOk(s, t);
  }

  /** The connection after BEGIN, a block and its end. */
  lemma UnitEnds(s: State, s1: State, s2: State, t: TaskId, ds: seq<Dml>, ops: seq<Issued>, raised: bool, start: Table)
    requires t in s1.tasks && s1.tasks[t].executed == [] && s1.tasks[t].frames != []
             && s1.conn == RawBegin(s.conn, t, true)
    requires Advanced(s1, s2, t, ds, ops) && Safe(s2) && Consistent(s2.conn, start)
    ensures var c := if raised then RawRollback(s2.conn, t) else RawCommit(s2.conn, t);
            var unit := Authors(t, ds);
            && c.issued == s.conn.issued + [Issued(t, Begin)] + ops + [Issued(t, if raised then Rollback else Commit)]
            && c.durable == (if raised then s.conn.durable else Replay(unit, s.conn.durable))
            && c.view == c.durable && c.pending == []
            && c.units == (if raised || unit == [] then s.conn.units else s.conn.units + [unit])
  {
    hide TasksOk, UnitsOk;
    assert [] + ds == ds;
    assert s2.conn.pending == Authors(t, ds);
  }

  function EndCall(t: TaskId, commit: bool): Event {
    Event(t, if commit then CommitCall else RollbackCall)
  }

  lemma ImplicitEnds(s: State, t: TaskId, commit: bool, start: Table)
    requires Safe(s) && Consistent(s.conn, start) && s.implicitOwner == Some(t)
    requires t in s.tasks && s.tasks[t].phase.Running?
    ensures Enabled(s, EndCall(t, commit))
    ensures var s1 := Next(s, EndCall(t, commit));
            var unit := Authors(t, s.tasks[t].executed);
            && Holder(s1) == Some(t) == s1.implicitOwner && t in s1.tasks && s1.tasks[t].phase == AwaitEnd(true)
            && s1.conn.durable == (if commit then Replay(unit, s.conn.durable) else s.conn.durable)
            && s1.conn.view == s1.conn.durable && s1.conn.pending == []
            && s1.conn.units == (if commit && unit != [] then s.conn.units + [unit] else s.conn.units)
            && s1.conn.issued == s.conn.issued + [Issued(t, if commit then Commit else Rollback)]
  {
    assert s.conn.pending == Authors(t, s.tasks[t].executed);
  }

  /** A commit by the implicit owner makes exactly its own writes durable, a rollback drops exactly them, whatever other
      tasks do while it is on its way; and then the lock is free. */
  lemma ImplicitUnitIsAtomic(s: State, t: TaskId, commit: bool, others: seq<Event>, resumed: bool, start: Table)
    requires Safe(s) && Consistent(s.conn, start) && s.implicitOwner == Some(t)
    requires t in s.tasks && s.tasks[t].phase.Running?
    requires Foreign(others, t) && IsRun(s, InFlight(EndCall(t, commit), others, resumed))
    requires Unslipped(s, InFlight(EndCall(t, commit), others, resumed), t)
    ensures var s' := Run(s, InFlight(EndCall(t, commit), others, resumed));
            var unit := Authors(t, s.tasks[t].executed);
            && s'.conn.durable == (if commit then Replay(unit, s.conn.durable) else s.conn.durable)
            && s'.conn.view == s'.conn.durable && s'.conn.pending == []
            && s'.conn.units == (if commit && unit != [] then s.conn.units + [unit] else s.conn.units)
            && s'.conn.issued == s.conn.issued + [Issued(t, if commit then Commit else Rollback)]
            && !s'.locked && s'.implicitOwner == None && s'.implicitDepth == 0 && s'.owner == None
  {
    var e := EndCall(t, commit);
    hide Safe, Next, IsRun, Run, InFlight, Foreign, Consistent, Replay, Unslipped, Leaks;
    FlightRuns(s, e, others, resumed);
    OnlyMisreadsLeak(s, e);
    SafeNext(s, e);
    ImplicitEnds(s, t, commit, start);
    var s2 := Run(Next(s, e), others);
    ForeignRun(Next(s, e), others, t);
    EndReturns(s2, t, resumed);
  }

  lemma EndReturns(s: State, t: TaskId, resumed: bool)
    requires Safe(s) && t in s.tasks && s.tasks[t].phase == AwaitEnd(true) && s.implicitOwner == Some(t)
    ensures var s' := Next(s, Event(t, Resume(resumed)));
            s'.conn == s.conn && !s'.locked && s'.implicitOwner == None && s'.implicitDepth == 0 && s'.owner == None
  {
  }

  lemma FailedWriteUndoes(s: State, t: TaskId, r: bool)
    requires Safe(s) && t in s.tasks && s.tasks[t].phase == AwaitWrite(true, false)
    ensures Enabled(s, Event(t, Resume(r)))
    ensures var s1 := Next(s, Event(t, Resume(r)));
            && Holder(s1) == Some(t) == s1.implicitOwner && t in s1.tasks && s1.tasks[t].phase == AwaitUndo
            && s1.conn == RawRollback(s.conn, t)
  {
    assert TaskOk(s, t);
  }

  lemma UndoReturns(s: State, t: TaskId, r: bool)
    requires Safe(s) && t in s.tasks && s.tasks[t].phase == AwaitUndo && s.implicitOwner == Some(t)
    ensures var s' := Next(s, Event(t, Resume(r)));
            s'.conn == s.conn && !s'.locked && s'.implicitOwner == None && s'.implicitDepth == 0 && s'.owner == None
  {
  }

  /** A failing implicit write drops the whole implicit unit with one ROLLBACK, whatever other tasks do meanwhile;
      nothing durable changes, and then the lock is free. */
  lemma FailedWriteDropsUnit(s: State, t: TaskId, others: seq<Event>, first: bool, second: bool)
    requires Safe(s) && t in s.tasks && s.tasks[t].phase == AwaitWrite(true, false)
    requires Foreign(others, t) && IsRun(s, InFlight(Event(t, Resume(first)), others, second))
    requires Unslipped(s, InFlight(Event(t, Resume(first)), others, second), t)
    ensures var s' := Run(s, InFlight(Event(t, Resume(first)), others, second));
            && s'.conn == RawRollback(s.conn, t)
            && !s'.locked && s'.implicitOwner == None && s'.implicitDepth == 0 && s'.owner == None
  {
    var e := Event(t, Resume(first));
    hide Safe, Next, IsRun, Run, InFlight, Foreign, Unslipped, Leaks;
    FlightRuns(s, e, others, second);
    OnlyMisreadsLeak(s, e);
    SafeNext(s, e);
    FailedWriteUndoes(s, t, first);
    ForeignRun(Next(s, e), others, t);
    UndoReturns(Run(Next(s, e), others), t, second);
  }

  // ---------------------------------------------------------------- writes that commit themselves

  /** The first implicit write and then a rollback: the write is gone exactly when its statement made the sqlite3
      module open a transaction. One that starts with WITH committed itself, so its unit has nothing to roll back. */
  lemma RollbackUndoesIff(s: State, t: TaskId, d: Dml, begins: bool, start: Table)
    requires Safe(s) && Consistent(s.conn, start) && !s.locked
    requires t in s.tasks && s.tasks[t].phase == WaitWrite(d, begins)
    ensures var granted := Event(t, LockGranted(true));
            && Enabled(s, granted)
            && var s1 := Next(s, granted);
               && Enabled(s1, Event(t, Resume(true)))
               && var s2 := Next(s1, Event(t, Resume(true)));
                  && Enabled(s2, EndCall(t, false))
                  && var c := Next(s2, EndCall(t, false)).conn;
                     && c.durable == (if begins then s.conn.durable else Apply(d, s.conn.durable))
                     && c.units == (if begins then s.conn.units else s.conn.units + [[Authored(t, d)]])
                     && c.pending == []
  {
    UnlockedIsClosed(s);
    hide Safe;
  }

  lemma UnlockedIsClosed(s: State)
    requires Safe(s) && !s.locked
    ensures !s.conn.open && s.conn.pending == [] && s.owner == None && s.implicitOwner == None
  {
  }
}
