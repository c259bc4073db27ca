/**
 The task store: specs, tasks, review gates and an event log, changed by serialised transactions with
 compare-and-set. A transaction is one step (`Commit`); any interleaving of writers is a sequence of
 steps (`CommitAll`). The public methods are made of one or more transactions.
 */
module TaskStore {
  import opened Options

  type Id = string

  datatype SpecStatus =
    | PendingPlan | NeedsClarification | PlanReview | Executing | SpecDone | SpecFailed | SpecCancelled

  datatype TaskStatus = Pending | Running | BlockedOnReview | TaskDone | TaskFailed | Skipped

  datatype GateStatus = Open | Approved | Rejected | Cancelled

  datatype Decision = Approve | Reject

  datatype Task = Task(spec: Id, parent: Option<Id>, status: TaskStatus)

  datatype Gate = Gate(spec: Id, task: Option<Id>, status: GateStatus, decision: Option<Decision>)

  datatype Event =
    | SpecSubmitted(spec: Id)
    | SpecStatusChanged(spec: Id, newStatus: SpecStatus)
    | TaskCreated(task: Id)
    | TaskStatusChanged(task: Id, taskStatus: TaskStatus)
    | GateCreated(gate: Id)
    | GateDecided(gate: Id, decision: Decision)
    | GateCancelled(gate: Id)
    | DaemonTick(at: int)
    | Noted

  /** The tables, with tasks and gates also in creation order, and the events in id order. */
  datatype Store = Store(
    specs: map<Id, SpecStatus>, tasks: map<Id, Task>, gates: map<Id, Gate>,
    taskOrder: seq<Id>, gateOrder: seq<Id>, events: seq<Event>)
  {
    function Log(event: Event): Store {
      this.(events := events + [event])
    }
  }

  const EMPTY_STORE := Store(map[], map[], map[], [], [], [])

  /** One committed transaction. A new id is chosen by its caller; `bornOpen` was decided before the transaction. */
  datatype Txn =
    | CreateSpec(id: Id, specStatus: SpecStatus)
    | SetSpecStatus(id: Id, specStatus: SpecStatus, force: bool)
    | CreateTask(id: Id, spec: Id, parent: Option<Id>, taskStatus: TaskStatus)
    | ClaimTask(id: Id)
    | SetTaskStatus(id: Id, taskStatus: TaskStatus)
    | CreateGate(id: Id, spec: Id, task: Option<Id>, bornOpen: bool)
    | RespondGate(id: Id, decision: Decision)
    | CancelGate(id: Id)
    | RecordNote
    | RecordTick(at: int)
    | PruneTicks(cutoff: int)

  predicate TerminalSpec(s: SpecStatus) {
    s == SpecDone || s == SpecFailed || s == SpecCancelled
  }

  predicate TerminalTask(t: TaskStatus) {
    t == TaskDone || t == TaskFailed || t == Skipped
  }

  /** The guard of the status write: nothing but another cancel, or a forced write, lands on a cancelled spec. */
  predicate StatusWriteLands(s: Store, id: Id, status: SpecStatus, force: bool) {
    id in s.specs && (force || status == SpecCancelled || s.specs[id] != SpecCancelled)
  }

  function StatusAfter(d: Decision): GateStatus {
    match d
    case Approve => Approved
    case Reject => Rejected
  }

  function UnlessOldTick(e: Event, cutoff: int): seq<Event> {
    if e.DaemonTick? && e.at < cutoff then [] else [e]
  }

  function WithoutTicks(events: seq<Event>, cutoff: int): seq<Event> {
    if events == [] then [] else UnlessOldTick(events[0], cutoff) + WithoutTicks(events[1..], cutoff)
  }

  /** The foreign keys of a new row: its spec exists, and so does the task it names, if it names one. */
  predicate Referable(s: Store, spec: Id, task: Option<Id>) {
    spec in s.specs && (task.Some? ==> task.value in s.tasks)
  }

  /** A transaction that raises is rolled back: the store is as before. */
  function Commit(s: Store, t: Txn): Store {
    match t
    case CreateSpec(id, status) =>
      if id in s.specs then s else s.(specs := s.specs[id := status]).Log(SpecSubmitted(id))
    case SetSpecStatus(id, status, force) =>
      if StatusWriteLands(s, id, status, force)
      then s.(specs := s.specs[id := status]).Log(SpecStatusChanged(id, status)) else s
    case CreateTask(id, spec, parent, status) =>
      if id in s.tasks || !Referable(s, spec, parent) then s
      else
        s.(tasks := s.tasks[id := Task(spec, parent, status)], taskOrder := s.taskOrder + [id]).Log(TaskCreated(id))
    case ClaimTask(id) =>
      if id in s.tasks && s.tasks[id].status == Pending
      then s.(tasks := s.tasks[id := s.tasks[id].(status := Running)]) else s
    case SetTaskStatus(id, status) =>
      if id in s.tasks
      then s.(tasks := s.tasks[id := s.tasks[id].(status := status)]).Log(TaskStatusChanged(id, status)) else s
    case CreateGate(id, spec, task, bornOpen) =>
      if id in s.gates || !Referable(s, spec, task) then s
      else
        s.(gates := s.gates[id := Gate(spec, task, if bornOpen then Open else Cancelled, None)],
           gateOrder := s.gateOrder + [id]).Log(GateCreated(id))
    case RespondGate(id, decision) =>
      if id in s.gates && s.gates[id].status == Open
      then
        s.(gates := s.gates[id := s.gates[id].(status := StatusAfter(decision), decision := Some(decision))])
         .Log(GateDecided(id, decision))
      else s
    case CancelGate(id) =>
      if id in s.gates then s.(gates := s.gates[id := s.gates[id].(status := Cancelled)]).Log(GateCancelled(id)) else s
    case RecordNote => s.Log(Noted)
    case RecordTick(at) => s.Log(DaemonTick(at))
    case PruneTicks(cutoff) => s.(events := WithoutTicks(s.events, cutoff))
  }

  function CommitAll(s: Store, txns: seq<Txn>): Store
    decreases |txns|
  {
    if txns == [] then s else CommitAll(Commit(s, txns[0]), txns[1..])
  }

  // ----- the public methods as functions of the store

  /** `list_open_gates`, in creation order. */
  function OpenGatesIn(s: Store, spec: Id, order: seq<Id>): seq<Id> {
    if order == [] then []
    else
      (if order[0] in s.gates && s.gates[order[0]].status == Open && s.gates[order[0]].spec == spec
       then [order[0]] else [])
      + OpenGatesIn(s, spec, order[1..])
  }

  function OpenGates(s: Store, spec: Id): seq<Id> {
    OpenGatesIn(s, spec, s.gateOrder)
  }

  function CancelGates(s: Store, ids: seq<Id>): Store
    decreases |ids|
  {
    if ids == [] then s else CancelGates(Commit(s, CancelGate(ids[0])), ids[1..])
  }

  function UpdatedSpec(s: Store, id: Id, status: SpecStatus, force: bool): Store {
    var s' := Commit(s, SetSpecStatus(id, status, force));
    if StatusWriteLands(s, id, status, force) && TerminalSpec(status) then CancelGates(s', OpenGates(s', id)) else s'
  }

  /** The tasks of a spec that have not ended, in creation order. */
  function OpenTasksIn(s: Store, spec: Id, order: seq<Id>): seq<Id> {
    if order == [] then []
    else
      (if order[0] in s.tasks && s.tasks[order[0]].spec == spec && !TerminalTask(s.tasks[order[0]].status)
       then [order[0]] else [])
      + OpenTasksIn(s, spec, order[1..])
  }

  function SkipTasks(s: Store, ids: seq<Id>): Store
    decreases |ids|
  {
    if ids == [] then s else SkipTasks(Commit(s, SetTaskStatus(ids[0], Skipped)), ids[1..])
  }

  datatype CancelError = UnknownSpec | AlreadyTerminal(status: SpecStatus)

  function CancelRefusal(s: Store, id: Id): Option<CancelError> {
    if id !in s.specs then Some(UnknownSpec)
    else if TerminalSpec(s.specs[id]) then Some(AlreadyTerminal(s.specs[id]))
    else None
  }

  function CancelledSpec(s: Store, id: Id): Store {
    if CancelRefusal(s, id).Some? then s
    else
      var openTasks := OpenTasksIn(s, id, s.taskOrder);
      var s1 := UpdatedSpec(s, id, SpecCancelled, false);
      SkipTasks(CancelGates(s1, OpenGates(s1, id)), openTasks)
  }

  /** What `create_gate` reads before its transaction. */
  predicate BornOpen(s: Store, spec: Id) {
    !(spec in s.specs && s.specs[spec] == SpecCancelled)
  }

  /** One public call, taken as a single step. */
  datatype Call =
    | Single(txn: Txn)
    | UpdateSpecStatus(id: Id, specStatus: SpecStatus, force: bool)
    | CancelSpec(id: Id)
    | OpenGate(id: Id, spec: Id, task: Option<Id>)

  /** The transactions that are whole public methods by themselves. */
  predicate IsWholeMethod(t: Txn) {
    !t.SetSpecStatus? && !t.CreateGate?
  }

  function Perform(s: Store, c: Call): Store {
    match c
    case Single(t) => if IsWholeMethod(t) then Commit(s, t) else s
    case UpdateSpecStatus(id, status, force) => UpdatedSpec(s, id, status, force)
    case CancelSpec(id) => CancelledSpec(s, id)
    case OpenGate(id, spec, task) => Commit(s, CreateGate(id, spec, task, BornOpen(s, spec)))
  }

  function PerformAll(s: Store, calls: seq<Call>): Store
    decreases |calls|
  {
    if calls == [] then s else PerformAll(Perform(s, calls[0]), calls[1..])
  }

  // ----- the store as an object

  class Database {
    var specs: map<Id, SpecStatus>
    var tasks: map<Id, Task>
    var gates: map<Id, Gate>
    var taskOrder: seq<Id>
    var gateOrder: seq<Id>
    var events: seq<Event>

    constructor ()
      ensures View() == EMPTY_STORE
    {
      specs, tasks, gates := map[], map[], map[];
      taskOrder, gateOrder, events := [], [], [];
    }

    function View(): Store
      reads this
    {
      Store(specs, tasks, gates, taskOrder, gateOrder, events)
    }

    method RecordEvent(event: Event)
      modifies this`events
      ensures events == old(events) + [event]
    {
      events := events + [event];
    }

    /** False when the id was already taken, which rolls the transaction back. */
    method CreateSpec(id: Id, status: SpecStatus) returns (ok: bool)
      modifies this
      ensures View() == Commit(old(View()), Txn.CreateSpec(id, status)) && ok == (id !in old(specs))
    {
      if id in specs {
        return false;
      }
      specs := specs[id := status];
      RecordEvent(SpecSubmitted(id));
      ok := true;
    }

    method WriteSpecStatus(id: Id, status: SpecStatus, force: bool) returns (changed: bool)
      modifies this
      ensures View() == Commit(old(View()), SetSpecStatus(id, status, force))
      ensures changed == StatusWriteLands(old(View()), id, status, force)
    {
      var guarded := !(force || status == SpecCancelled);
      if id !in specs || (guarded && specs[id] == SpecCancelled) {
        return false;
      }
      specs := specs[id := status];
      RecordEvent(SpecStatusChanged(id, status));
      changed := true;
    }

    /** True when the row changed; a terminal status then retires every open gate. */
    method UpdateSpecStatus(id: Id, status: SpecStatus, force: bool) returns (changed: bool)
      modifies this
      ensures View() == UpdatedSpec(old(View()), id, status, force)
      ensures changed == StatusWriteLands(old(View()), id, status, force)
    {
      changed := WriteSpecStatus(id, status, force);
      if changed && TerminalSpec(status) {
        RetireOpenGates(id);
      }
    }

    method CancelSpec(id: Id) returns (refusal: Option<CancelError>)
      modifies this
      ensures View() == CancelledSpec(old(View()), id) && refusal == CancelRefusal(old(View()), id)
    {
      refusal := CancelRefusal(View(), id);
      if refusal.Some? {
        return;
      }
      var openTasks := OpenTasksIn(View(), id, taskOrder);
      var _ := UpdateSpecStatus(id, SpecCancelled, false);
      RetireOpenGates(id);
      ghost var before := View();
      assert openTasks[0..] == openTasks;
      for i := 0 to |openTasks|
        invariant SkipTasks(View(), openTasks[i..]) == SkipTasks(before, openTasks)
      {
        assert openTasks[i..][0] == openTasks[i] && openTasks[i..][1..] == openTasks[i + 1..];
        var _ := UpdateTaskStatus(openTasks[i], Skipped);
      }
    }

    method CreateTask(id: Id, spec: Id, parent: Option<Id>, status: TaskStatus) returns (ok: bool)
      modifies this
      ensures View() == Commit(old(View()), Txn.CreateTask(id, spec, parent, status))
      ensures ok == (id !in old(tasks) && spec in old(specs) && (parent.Some? ==> parent.value in old(tasks)))
    {
      if id in tasks || spec !in specs || (parent.Some? && parent.value !in tasks) {
        return false;
      }
      tasks := tasks[id := Task(spec, parent, status)];
      taskOrder := taskOrder + [id];
      RecordEvent(TaskCreated(id));
      ok := true;
    }

    /** Compare-and-set: only a pending task can be claimed. */
    method ClaimTask(id: Id) returns (claimed: bool)
      modifies this
      ensures View() == Commit(old(View()), Txn.ClaimTask(id))
      ensures claimed == (id in old(tasks) && old(tasks)[id].status == Pending)
    {
      claimed := id in tasks && tasks[id].status == Pending;
      if claimed {
        tasks := tasks[id := tasks[id].(status := Running)];
      }
    }

    method UpdateTaskStatus(id: Id, status: TaskStatus) returns (ok: bool)
      modifies this
      ensures View() == Commit(old(View()), SetTaskStatus(id, status)) && ok == (id in old(tasks))
    {
      ok := id in tasks;
      if ok {
        tasks := tasks[id := tasks[id].(status := status)];
        RecordEvent(TaskStatusChanged(id, status));
      }
    }

    /** The transaction of `create_gate`; whether the gate is offered was read before it began. */
    method InsertGate(id: Id, spec: Id, task: Option<Id>, bornOpen: bool) returns (ok: bool)
      modifies this
      ensures View() == Commit(old(View()), Txn.CreateGate(id, spec, task, bornOpen))
      ensures ok == (id !in old(gates) && spec in old(specs) && (task.Some? ==> task.value in old(tasks)))
    {
      if id in gates || spec !in specs || (task.Some? && task.value !in tasks) {
        return false;
      }
      gates := gates[id := Gate(spec, task, if bornOpen then Open else Cancelled, None)];
      gateOrder := gateOrder + [id];
      RecordEvent(GateCreated(id));
      ok := true;
    }

    /** The whole call, when nothing commits between its read and its transaction. */
    method CreateGate(id: Id, spec: Id, task: Option<Id>) returns (ok: bool)
      modifies this
      ensures View() == Perform(old(View()), OpenGate(id, spec, task))
      ensures ok == (id !in old(gates) && spec in old(specs) && (task.Some? ==> task.value in old(tasks)))
    {
      var bornOpen := BornOpen(View(), spec);
      ok := InsertGate(id, spec, task, bornOpen);
    }

    /** None for an unknown gate; otherwise whether this response is the one that decided it. */
    method RespondToGate(id: Id, decision: Decision) returns (decided: Option<bool>)
      modifies this
      ensures View() == Commit(old(View()), RespondGate(id, decision))
      ensures decided == if id in old(gates) then Some(old(gates)[id].status == Open) else None
    {
      if id !in gates {
        return None;
      }
      if gates[id].status != Open {
        return Some(false);
      }
      gates := gates[id := gates[id].(status := StatusAfter(decision), decision := Some(decision))];
      RecordEvent(GateDecided(id, decision));
      decided := Some(true);
    }

    method CancelGate(id: Id) returns (ok: bool)
      modifies this
      ensures View() == Commit(old(View()), Txn.CancelGate(id)) && ok == (id in old(gates))
    {
      ok := id in gates;
      if ok {
        gates := gates[id := gates[id].(status := Cancelled)];
        RecordEvent(GateCancelled(id));
      }
    }

    method RetireOpenGates(spec: Id)
      modifies this
      ensures View() == CancelGates(old(View()), OpenGates(old(View()), spec))
    {
      var open := OpenGates(View(), spec);
      assert open[0..] == open;
      for i := 0 to |open|
        invariant CancelGates(View(), open[i..]) == CancelGates(old(View()), open)
      {
        assert open[i..][0] == open[i] && open[i..][1..] == open[i + 1..];
        var _ := CancelGate(open[i]);
      }
    }

    method PruneDaemonTicks(cutoff: int) returns (removed: int)
      modifies this
      ensures View() == Commit(old(View()), PruneTicks(cutoff)) && removed == |old(events)| - |events|
    {
      var kept := WithoutTicks(events, cutoff);
      removed := |events| - |kept|;
      events := kept;
    }
  }
}
