/**
 Public calls interleaved at their transactions and reads, any of which may die half-way: opening a gate
 reads the spec and then inserts; a status write that ends a spec is followed by a listing of its open gates,
 each cancelled in turn; a cancel reads the spec, lists its unfinished tasks, writes the status, lists the open
 gates twice, and then skips the tasks it listed. What is left on a cancelled spec when every call has ended is
 exactly what some step stranded and no later step rescued.
 */
module TaskStoreCalls {
  import opened Options
  import opened TaskStore
  import opened TaskStoreLaws

  /** Where a caller is within its call. `more` counts the listings after this one; `tasks` are to be skipped. */
  datatype Stage =
    | Opening(gate: Id, spec: Id, task: Option<Id>, bornOpen: bool)
    | Asked(spec: Id)
    | Cancelling(spec: Id, tasks: seq<Id>)
    | Listing(spec: Id, more: nat, tasks: seq<Id>)
    | Retiring(spec: Id, todo: seq<Id>, more: nat, tasks: seq<Id>)
    | Skipping(tasks: seq<Id>)

  /** The store, and the calls under way. */
  datatype World = World(store: Store, stages: map<nat, Stage>)

  datatype Action =
    | Other(txn: Txn)
    | ReadSpec(c: nat, gate: Id, spec: Id, task: Option<Id>)
    | Insert(c: nat)
    | WriteStatus(c: nat, spec: Id, status: SpecStatus, force: bool)
    | AskCancel(c: nat, spec: Id)
    | ListTasks(c: nat)
    | WriteCancel(c: nat)
    | ListOpen(c: nat)
    | CancelNext(c: nat)
    | SkipNext(c: nat)
    | Die(c: nat)

  predicate Enabled(w: World, a: Action) {
    match a
    case Other(t) => IsWholeMethod(t)
    case ReadSpec(c, _, _, _) => c !in w.stages
    case Insert(c) => c in w.stages && w.stages[c].Opening?
    case WriteStatus(c, _, _, _) => c !in w.stages
    case AskCancel(c, _) => c !in w.stages
    case ListTasks(c) => c in w.stages && w.stages[c].Asked?
    case WriteCancel(c) => c in w.stages && w.stages[c].Cancelling?
    case ListOpen(c) => c in w.stages && w.stages[c].Listing?
    case CancelNext(c) => c in w.stages && w.stages[c].Retiring?
    case SkipNext(c) => c in w.stages && w.stages[c].Skipping?
    case Die(c) => c in w.stages
  }

  function WithStage(w: World, c: nat, stage: Stage): World {
    w.(stages := w.stages[c := stage])
  }

  function Ended(w: World, c: nat): World {
    w.(stages := w.stages - {c})
  }

  /** The tasks still to be skipped, if any, are the end of the call. */
  function Onward(w: World, c: nat, tasks: seq<Id>): World {
    if tasks == [] then Ended(w, c) else WithStage(w, c, Skipping(tasks))
  }

  function Do(w: World, a: Action): World
    requires Enabled(w, a)
  {
    match a
    case Other(t) => w.(store := Commit(w.store, t))
    case ReadSpec(c, gate, spec, task) => WithStage(w, c, Opening(gate, spec, task, BornOpen(w.store, spec)))
    case Insert(c) =>
      var stage := w.stages[c];
      Ended(w.(store := Commit(w.store, CreateGate(stage.gate, stage.spec, stage.task, stage.bornOpen))), c)
    case WriteStatus(c, spec, status, force) =>
      var w' := w.(store := Commit(w.store, SetSpecStatus(spec, status, force)));
      if StatusWriteLands(w.store, spec, status, force) && TerminalSpec(status)
      then WithStage(w', c, Listing(spec, 0, [])) else w'
    case AskCancel(c, spec) => if CancelRefusal(w.store, spec).Some? then w else WithStage(w, c, Asked(spec))
    case ListTasks(c) =>
      var spec := w.stages[c].spec;
      WithStage(w, c, Cancelling(spec, OpenTasksIn(w.store, spec, w.store.taskOrder)))
    case WriteCancel(c) =>
      var stage := w.stages[c];
      var more := if StatusWriteLands(w.store, stage.spec, SpecCancelled, false) then 1 else 0;
      WithStage(w.(store := Commit(w.store, SetSpecStatus(stage.spec, SpecCancelled, false))), c,
                Listing(stage.spec, more, stage.tasks))
    case ListOpen(c) =>
      var stage := w.stages[c];
      WithStage(w, c, Retiring(stage.spec, OpenGates(w.store, stage.spec), stage.more, stage.tasks))
    case CancelNext(c) =>
      var stage := w.stages[c];
      if stage.todo != [] then
        WithStage(w.(store := Commit(w.store, CancelGate(stage.todo[0]))), c, stage.(todo := stage.todo[1..]))
      else if stage.more > 0 then WithStage(w, c, Listing(stage.spec, stage.more - 1, stage.tasks))
      else Onward(w, c, stage.tasks)
    case SkipNext(c) =>
      var tasks := w.stages[c].tasks;
      if tasks == [] then Ended(w, c)
      else Onward(w.(store := Commit(w.store, SetTaskStatus(tasks[0], Skipped))), c, tasks[1..])
    case Die(c) => Ended(w, c)
  }

  predicate Runs(w: World, actions: seq<Action>)
    decreases |actions|
  {
    actions == [] || (Enabled(w, actions[0]) && Runs(Do(w, actions[0]), actions[1..]))
  }

  function After(w: World, actions: seq<Action>): World
    requires Runs(w, actions)
    decreases |actions|
  {
    if actions == [] then w else After(Do(w, actions[0]), actions[1..])
  }

  const START := World(EMPTY_STORE, map[])

  // ----- what is left on a cancelled spec, and who will still see to it

  /** A gate or a task. */
  datatype Item = AGate(id: Id) | ATask(id: Id)

  predicate OnCancelled(s: Store, spec: Id) {
    spec in s.specs && s.specs[spec] == SpecCancelled
  }

  predicate IsOpen(s: Store, g: Id) {
    g in s.gates && s.gates[g].status == Open
  }

  predicate Unfinished(s: Store, t: Id) {
    t in s.tasks && !TerminalTask(s.tasks[t].status)
  }

  /** An open gate or an unfinished task of a cancelled spec. */
  predicate Leftover(s: Store, item: Item) {
    match item
    case AGate(g) => IsOpen(s, g) && OnCancelled(s, s.gates[g].spec)
    case ATask(t) => Unfinished(s, t) && OnCancelled(s, s.tasks[t].spec)
  }

  /** The caller will list the spec's open gates. */
  predicate ListsLater(stage: Stage, spec: Id) {
    (stage.Listing? && stage.spec == spec) || (stage.Retiring? && stage.spec == spec && stage.more > 0)
  }

  /** The caller will cancel the gate, once it has listed it, or skip the task. */
  predicate SeesTo(s: Store, stage: Stage, item: Item) {
    match item
    case AGate(g) => (stage.Retiring? && g in stage.todo) || (g in s.gates && ListsLater(stage, s.gates[g].spec))
    case ATask(t) => !stage.Opening? && !stage.Asked? && t in stage.tasks
  }

  predicate Due(w: World, item: Item) {
    exists c :: c in w.stages && SeesTo(w.store, w.stages[c], item)
  }

  /** Left on a cancelled spec, with nobody to see to it. */
  predicate Stranded(w: World, item: Item) {
    Leftover(w.store, item) && !Due(w, item)
  }

  // ----- the steps that strand an item, and the steps that rescue it

  predicate OfSpec(s: Store, item: Item, spec: Id) {
    match item
    case AGate(g) => g in s.gates && s.gates[g].spec == spec
    case ATask(t) => t in s.tasks && s.tasks[t].spec == spec
  }

  predicate Unclosed(s: Store, item: Item) {
    match item
    case AGate(g) => IsOpen(s, g)
    case ATask(t) => Unfinished(s, t)
  }

  /** The transaction puts an item on a cancelled spec, reopens it there, or cancels the spec over it. */
  predicate Makes(s: Store, t: Txn, item: Item) {
    match t
    case CreateGate(id, _, _, _) => item == AGate(id) && OpensOnCancelled(s, t)
    case CreateTask(id, spec, parent, status) =>
      && item == ATask(id) && id !in s.tasks && Referable(s, spec, parent) && !TerminalTask(status)
      && OnCancelled(s, spec)
    case SetTaskStatus(id, status) =>
      && item == ATask(id) && id in s.tasks && !Unfinished(s, id) && !TerminalTask(status)
      && OnCancelled(s, s.tasks[id].spec)
    case SetSpecStatus(spec, status, _) =>
      && status == SpecCancelled && spec in s.specs && s.specs[spec] != SpecCancelled
      && OfSpec(s, item, spec) && Unclosed(s, item)
    case _ => false
  }

  /** The transaction closes the item, or brings its spec back by force. */
  predicate Clears(s: Store, t: Txn, item: Item) {
    match t
    case RespondGate(id, _) => item == AGate(id)
    case CancelGate(id) => item == AGate(id)
    case SetTaskStatus(id, status) => item == ATask(id) && TerminalTask(status)
    case SetSpecStatus(spec, status, force) => OfSpec(s, item, spec) && force && status != SpecCancelled
    case _ => false
  }

  /** The transaction of a step, if it has one. */
  function TxnOf(w: World, a: Action): Option<Txn>
    requires Enabled(w, a)
  {
    match a
    case Other(t) => Some(t)
    case Insert(c) =>
      var stage := w.stages[c];
      Some(CreateGate(stage.gate, stage.spec, stage.task, stage.bornOpen))
    case WriteStatus(_, spec, status, force) => Some(SetSpecStatus(spec, status, force))
    case WriteCancel(c) => Some(SetSpecStatus(w.stages[c].spec, SpecCancelled, false))
    case CancelNext(c) => if w.stages[c].todo != [] then Some(CancelGate(w.stages[c].todo[0])) else None
    case SkipNext(c) => if w.stages[c].tasks != [] then Some(SetTaskStatus(w.stages[c].tasks[0], Skipped)) else None
    case _ => None
  }

  /** Somebody sees to what the step makes: a listing yet to come, or a caller that has the task on its list. */
  predicate SeenTo(w: World, a: Action, item: Item)
    requires Enabled(w, a)
  {
    match item
    case AGate(_) => !a.Insert? || exists d :: d in w.stages && ListsLater(w.stages[d], w.stages[a.c].spec)
    case ATask(_) => Due(w, item)
  }

  /** The step makes a leftover that nobody sees to, or is the death of the last caller that would have. */
  predicate Strands(w: World, a: Action, item: Item)
    requires Enabled(w, a)
  {
    match a
    case Die(c) => Leftover(w.store, item) && Due(w, item) && !Due(Ended(w, c), item)
    case _ => TxnOf(w, a).Some? && Makes(w.store, TxnOf(w, a).value, item) && !SeenTo(w, a, item)
  }

  /** The step clears the item, cancels its spec again, which retires gates, or lists the tasks of its spec to skip. */
  predicate Rescues(w: World, a: Action, item: Item)
    requires Enabled(w, a)
  {
    || (TxnOf(w, a).Some? && Clears(w.store, TxnOf(w, a).value, item))
    || (a.WriteStatus? && item.AGate? && a.status == SpecCancelled && OfSpec(w.store, item, a.spec))
    || (a.WriteCancel? && item.AGate? && OfSpec(w.store, item, w.stages[a.c].spec))
    || (a.ListTasks? && item.ATask? && OfSpec(w.store, item, w.stages[a.c].spec))
  }

  // ----- what every step keeps

  /** Every row is listed and names a known spec. */
  ghost predicate RowsSound(s: Store) {
    && Listed(s)
    && (forall g <- s.gates :: s.gates[g].spec in s.specs)
    && (forall t <- s.tasks :: s.tasks[t].spec in s.specs)
  }

  /** A row stays, on its spec. */
  ghost predicate RowsStay(s: Store, s': Store) {
    && (forall g <- s.gates :: g in s'.gates && s'.gates[g].spec == s.gates[g].spec)
    && (forall t <- s.tasks :: t in s'.tasks && s'.tasks[t].spec == s.tasks[t].spec)
  }

  /** The lists of a caller name known rows. */
  ghost predicate StageSound(s: Store, stage: Stage) {
    && (stage.Retiring? ==> forall g <- stage.todo :: g in s.gates)
    && (!stage.Opening? && !stage.Asked? ==> forall t <- stage.tasks :: t in s.tasks)
  }

  ghost predicate Sound(w: World) {
    RowsSound(w.store) && forall c <- w.stages :: StageSound(w.store, w.stages[c])
  }

  lemma CommitKeepsSpecs(s: Store, t: Txn)
    ensures s.specs.Keys <= Commit(s, t).specs.Keys
  {
  }

  lemma CommitKeepsGates(s: Store, t: Txn)
    ensures var s' := Commit(s, t); forall g <- s.gates :: g in s'.gates && s'.gates[g].spec == s.gates[g].spec
    ensures forall g <- Commit(s, t).gates :: g !in s.gates ==> Commit(s, t).gates[g].spec in s.specs
  {
  }

  lemma CommitKeepsTasks(s: Store, t: Txn)
    ensures var s' := Commit(s, t); forall k <- s.tasks :: k in s'.tasks && s'.tasks[k].spec == s.tasks[k].spec
    ensures forall k <- Commit(s, t).tasks :: k !in s.tasks ==> Commit(s, t).tasks[k].spec in s.specs
  {
  }

  lemma CommitKeepsRows(s: Store, t: Txn)
    requires RowsSound(s)
    ensures RowsSound(Commit(s, t)) && RowsStay(s, Commit(s, t))
  {
    CommitKeepsListed(s, t);
    CommitKeepsSpecs(s, t);
    CommitKeepsGates(s, t);
    CommitKeepsTasks(s, t);
    hide Commit, Listed;
  }

  lemma StageStaysSound(s: Store, s': Store, stage: Stage)
    requires StageSound(s, stage) && RowsStay(s, s')
    ensures StageSound(s', stage)
  {
  }

  /** A step commits its transaction and moves one caller. */
  lemma DoIs(w: World, a: Action)
    requires Enabled(w, a)
    ensures Do(w, a).store == if TxnOf(w, a).Some? then Commit(w.store, TxnOf(w, a).value) else w.store
    ensures a.Other? ==> Do(w, a).stages == w.stages
    ensures !a.Other? ==> Do(w, a).stages - {a.c} == w.stages - {a.c}
  {
    hide Commit, BornOpen, OpenGates, OpenTasksIn, StatusWriteLands;
  }

  lemma DoKeepsStage(w: World, a: Action, s: Store)
    requires Sound(w) && Enabled(w, a) && !a.Other? && a.c in Do(w, a).stages && RowsStay(w.store, s)
    ensures StageSound(s, Do(w, a).stages[a.c])
  {
    hide Commit, BornOpen, OpenGates, OpenTasksIn, RowsSound, StatusWriteLands;
    match a {
      case ListTasks(c) =>
        forall t: Id ensures t in OpenTasksIn(w.store, w.stages[c].spec, w.store.taskOrder) ==> t in w.store.tasks {
          OpenTasksFound(w.store, w.stages[c].spec, w.store.taskOrder, t);
        }
      case ListOpen(c) =>
        var spec := w.stages[c].spec;
        forall g: Id ensures g in OpenGates(w.store, spec) ==> g in w.store.gates {
          OpenGateListed(w.store, spec, g);
        }
      case _ =>
    }
  }

  lemma DoKeepsSound(w: World, a: Action)
    requires Sound(w) && Enabled(w, a)
    ensures Sound(Do(w, a)) && RowsStay(w.store, Do(w, a).store)
  {
    DoIs(w, a);
    hide Commit, Do, Enabled, TxnOf, StageSound;
    var w' := Do(w, a);
    if TxnOf(w, a).Some? {
      CommitKeepsRows(w.store, TxnOf(w, a).value);
    }
    hide RowsSound;
    forall d <- w'.stages ensures StageSound(w'.store, w'.stages[d]) {
      if !a.Other? && d == a.c {
        DoKeepsStage(w, a, w'.store);
      } else {
        assert a.Other? || d in (w'.stages - {a.c});
        StageStaysSound(w.store, w'.store, w.stages[d]);
      }
    }
  }

  /** What one caller sees to, and what the others do. */
  lemma DueSplit(w: World, c: nat, item: Item)
    ensures Due(w, item) <==> Due(Ended(w, c), item) || (c in w.stages && SeesTo(w.store, w.stages[c], item))
  {
    hide SeesTo;
    if Due(w, item) {
      var d :| d in w.stages && SeesTo(w.store, w.stages[d], item);
      assert d != c ==> d in Ended(w, c).stages;
    }
    if Due(Ended(w, c), item) {
      var d :| d in Ended(w, c).stages && SeesTo(w.store, Ended(w, c).stages[d], item);
      assert d in w.stages;
    }
  }

  /** A row stays where it is, and so does what other callers will do about it. */
  lemma OthersStay(w: World, w': World, c: nat, item: Item)
    requires w.stages - {c} == w'.stages - {c}
    requires item.AGate? ==> (item.id in w.store.gates <==> item.id in w'.store.gates)
    requires item.AGate? && item.id in w.store.gates ==>
               w.store.gates[item.id].spec == w'.store.gates[item.id].spec
    ensures Due(Ended(w, c), item) <==> Due(Ended(w', c), item)
  {
    var v, v' := Ended(w, c), Ended(w', c);
    assert v.stages == v'.stages;
    assert forall stage: Stage :: SeesTo(v.store, stage, item) <==> SeesTo(v'.store, stage, item);
    hide SeesTo;
    if Due(v, item) {
      var d :| d in v.stages && SeesTo(v.store, v.stages[d], item);
      assert SeesTo(v'.store, v'.stages[d], item);
    }
    if Due(v', item) {
      var d :| d in v'.stages && SeesTo(v'.store, v'.stages[d], item);
      assert SeesTo(v.store, v.stages[d], item);
    }
  }

  /** What a transaction makes of a leftover. */
  lemma CommitTells(s: Store, t: Txn, item: Item)
    requires RowsSound(s)
    ensures Leftover(Commit(s, t), item) <==> (Leftover(s, item) && !Clears(s, t, item)) || Makes(s, t, item)
  {
    match item {
      case AGate(g) => GateTells(s, t, g);
      case ATask(k) => TaskTells(s, t, k);
    }
  }

  lemma GateTells(s: Store, t: Txn, g: Id)
    requires RowsSound(s)
    ensures Leftover(Commit(s, t), AGate(g))
      <==> (Leftover(s, AGate(g)) && !Clears(s, t, AGate(g))) || Makes(s, t, AGate(g))
  {
  }

  lemma TaskTells(s: Store, t: Txn, k: Id)
    requires RowsSound(s)
    ensures Leftover(Commit(s, t), ATask(k))
      <==> (Leftover(s, ATask(k)) && !Clears(s, t, ATask(k))) || Makes(s, t, ATask(k))
  {
  }

  /** After the step the item is stranded if it was and is not rescued, or if the step strands it. */
  predicate StepTells(w: World, a: Action, item: Item)
    requires Enabled(w, a)
  {
    Stranded(Do(w, a), item) <==> (Stranded(w, item) && !Rescues(w, a, item)) || Strands(w, a, item)
  }

  lemma OtherTells(w: World, t: Txn, item: Item)
    requires Sound(w) && Enabled(w, Other(t))
    ensures StepTells(w, Other(t), item)
  {
    var w' := Do(w, Other(t));
    CommitTells(w.store, t, item);
    CommitKeepsRows(w.store, t);
    NoNewGate(w.store, t);
    hide Commit, Leftover, Clears, SeesTo, RowsSound;
    SameDuty(w, w', item);
  }

  lemma NoNewGate(s: Store, t: Txn)
    requires IsWholeMethod(t)
    ensures Commit(s, t).gates.Keys == s.gates.Keys && forall g: Id :: !Makes(s, t, AGate(g))
  {
  }

  lemma SameDuty(w: World, w': World, item: Item)
    requires w'.stages == w.stages && w'.store.gates.Keys == w.store.gates.Keys && RowsStay(w.store, w'.store)
    ensures Due(w, item) <==> Due(w', item)
  {
    assert forall stage: Stage :: SeesTo(w.store, stage, item) <==> SeesTo(w'.store, stage, item);
    hide SeesTo;
    assert forall c <- w.stages :: SeesTo(w.store, w.stages[c], item) <==> SeesTo(w'.store, w'.stages[c], item);
  }

  lemma InsertTells(w: World, c: nat, item: Item)
    requires Sound(w) && Enabled(w, Insert(c))
    ensures StepTells(w, Insert(c), item)
  {
    var w', t := Do(w, Insert(c)), TxnOf(w, Insert(c)).value;
    CommitTells(w.store, t, item);
    CommitKeepsRows(w.store, t);
    DueSplit(w, c, item);
    DueSplit(w', c, item);
    if item.ATask? || item.id in w.store.gates || item.id !in w'.store.gates {
      OthersStay(w, w', c, item);
    } else {
      NewGateIsDue(w, c, item.id);
    }
    hide Commit, Due, Leftover;
  }

  /** A new gate is on nobody's list, so only a listing to come will find it. */
  lemma NewGateIsDue(w: World, c: nat, g: Id)
    requires Sound(w) && Enabled(w, Insert(c)) && g !in w.store.gates && g in Do(w, Insert(c)).store.gates
    ensures g == w.stages[c].gate
    ensures Due(Do(w, Insert(c)), AGate(g)) <==> exists d :: d in w.stages && ListsLater(w.stages[d], w.stages[c].spec)
    ensures !Due(w, AGate(g))
  {
    var w', spec := Do(w, Insert(c)), w.stages[c].spec;
    forall d <- w.stages
      ensures !SeesTo(w.store, w.stages[d], AGate(g))
      ensures d != c ==> (SeesTo(w'.store, w.stages[d], AGate(g)) <==> ListsLater(w.stages[d], spec))
    {
      assert StageSound(w.store, w.stages[d]);
    }
    hide SeesTo;
    if d :| d in w.stages && ListsLater(w.stages[d], spec) {
      assert d in w'.stages && SeesTo(w'.store, w'.stages[d], AGate(g));
    }
  }

  lemma DieTells(w: World, c: nat, item: Item)
    requires Sound(w) && Enabled(w, Die(c))
    ensures StepTells(w, Die(c), item)
  {
    DueSplit(w, c, item);
    hide Leftover, SeesTo, Due;
  }

  /** What the caller of a step sees to itself. */
  predicate OwnDuty(w: World, c: nat, item: Item) {
    c in w.stages && SeesTo(w.store, w.stages[c], item)
  }

  /** Whether an item is left is the transaction's doing, and whether it is due changes with the caller's own duty. */
  lemma ByOwnDuty(w: World, a: Action, item: Item)
    requires Sound(w) && Enabled(w, a) && !a.Other? && !a.Insert?
    ensures Due(w, item) <==> Due(Ended(w, a.c), item) || OwnDuty(w, a.c, item)
    ensures Due(Do(w, a), item) <==> Due(Ended(w, a.c), item) || OwnDuty(Do(w, a), a.c, item)
    ensures Leftover(Do(w, a).store, item)
      <==> if TxnOf(w, a).None? then Leftover(w.store, item)
           else (Leftover(w.store, item) && !Clears(w.store, TxnOf(w, a).value, item))
                || Makes(w.store, TxnOf(w, a).value, item)
    ensures RowsStay(w.store, Do(w, a).store) && Do(w, a).store.gates.Keys == w.store.gates.Keys
  {
    var w' := Do(w, a);
    DoIs(w, a);
    if TxnOf(w, a).Some? {
      CommitTells(w.store, TxnOf(w, a).value, item);
      CommitKeepsRows(w.store, TxnOf(w, a).value);
      SameGates(w, a);
    }
    hide Do, Commit, TxnOf, Leftover, Makes, Clears, SeesTo, RowsSound;
    DueSplit(w, a.c, item);
    DueSplit(w', a.c, item);
    OthersStay(w, w', a.c, item);
    hide Due;
  }

  lemma SameGates(w: World, a: Action)
    requires Enabled(w, a) && !a.Insert? && TxnOf(w, a).Some?
    ensures Commit(w.store, TxnOf(w, a).value).gates.Keys == w.store.gates.Keys
  {
  }

  lemma StatusTells(w: World, c: nat, spec: Id, status: SpecStatus, force: bool, item: Item)
    requires Sound(w) && Enabled(w, WriteStatus(c, spec, status, force))
    ensures StepTells(w, WriteStatus(c, spec, status, force), item)
  {
    ByOwnDuty(w, WriteStatus(c, spec, status, force), item);
    hide Due, Commit;
  }

  lemma CancelTells(w: World, c: nat, item: Item)
    requires Sound(w) && Enabled(w, WriteCancel(c))
    ensures StepTells(w, WriteCancel(c), item)
  {
    ByOwnDuty(w, WriteCancel(c), item);
    hide Due, Commit;
  }

  lemma RetireTells(w: World, c: nat, item: Item)
    requires Sound(w) && Enabled(w, CancelNext(c))
    ensures StepTells(w, CancelNext(c), item)
  {
    ByOwnDuty(w, CancelNext(c), item);
    RetireDuty(w, c, item);
    hide Due, Commit, Leftover, OwnDuty, Do;
  }

  /** A retirement sees to what it did before, but for the gate it cancels. */
  lemma RetireDuty(w: World, c: nat, item: Item)
    requires Sound(w) && Enabled(w, CancelNext(c))
    ensures OwnDuty(Do(w, CancelNext(c)), c, item) ==> OwnDuty(w, c, item)
    ensures OwnDuty(w, c, item) ==>
      || OwnDuty(Do(w, CancelNext(c)), c, item)
      || (w.stages[c].todo != [] && item == AGate(w.stages[c].todo[0]))
  {
    var stage := w.stages[c];
    if stage.todo != [] {
      CommitKeepsGates(w.store, CancelGate(stage.todo[0]));
      SameGates(w, CancelNext(c));
      assert stage.todo == [stage.todo[0]] + stage.todo[1..];
    }
    hide Commit, RowsSound;
  }

  lemma SkipTells(w: World, c: nat, item: Item)
    requires Sound(w) && Enabled(w, SkipNext(c))
    ensures StepTells(w, SkipNext(c), item)
  {
    ByOwnDuty(w, SkipNext(c), item);
    SkipDuty(w, c, item);
    hide Due, Commit, Leftover, OwnDuty, Do;
  }

  lemma SkipDuty(w: World, c: nat, item: Item)
    requires Sound(w) && Enabled(w, SkipNext(c))
    ensures OwnDuty(Do(w, SkipNext(c)), c, item) ==> OwnDuty(w, c, item)
    ensures OwnDuty(w, c, item) ==>
      || OwnDuty(Do(w, SkipNext(c)), c, item)
      || (w.stages[c].tasks != [] && item == ATask(w.stages[c].tasks[0]))
  {
    var tasks := w.stages[c].tasks;
    if tasks != [] {
      assert tasks == [tasks[0]] + tasks[1..];
    }
    hide Commit, RowsSound;
  }

  /** A listing of open gates takes over what its caller was to see to. */
  lemma ListTells(w: World, c: nat, item: Item)
    requires Sound(w) && Enabled(w, ListOpen(c))
    ensures StepTells(w, ListOpen(c), item)
  {
    ByOwnDuty(w, ListOpen(c), item);
    ListDuty(w, c, item);
    hide Due, OwnDuty, Do;
  }

  lemma ListDuty(w: World, c: nat, item: Item)
    requires Sound(w) && Enabled(w, ListOpen(c))
    ensures Leftover(w.store, item) ==> (OwnDuty(Do(w, ListOpen(c)), c, item) <==> OwnDuty(w, c, item))
  {
    OpenGateListed(w.store, w.stages[c].spec, item.id);
    hide OpenGates;
  }

  /** A listing of tasks takes over the unfinished tasks of its spec. */
  lemma ListTasksTells(w: World, c: nat, item: Item)
    requires Sound(w) && Enabled(w, ListTasks(c))
    ensures StepTells(w, ListTasks(c), item)
  {
    ByOwnDuty(w, ListTasks(c), item);
    ListTasksDuty(w, c, item);
    hide Due, OwnDuty, Do;
  }

  lemma ListTasksDuty(w: World, c: nat, item: Item)
    requires Enabled(w, ListTasks(c)) && Listed(w.store)
    ensures !OwnDuty(w, c, item)
    ensures OwnDuty(Do(w, ListTasks(c)), c, item)
      <==> item.ATask? && Unfinished(w.store, item.id) && OfSpec(w.store, item, w.stages[c].spec)
  {
    OpenTasksFound(w.store, w.stages[c].spec, w.store.taskOrder, item.id);
    hide OpenTasksIn;
  }

  /** The other reads change nothing that any caller sees to. */
  lemma ReadTells(w: World, a: Action, item: Item)
    requires Sound(w) && Enabled(w, a) && (a.ReadSpec? || a.AskCancel?)
    ensures StepTells(w, a, item)
  {
    ByOwnDuty(w, a, item);
    hide Due, BornOpen, CancelRefusal, Leftover;
  }

  /** Any step of any caller: what it strands, what it rescues, and no other change. */
  lemma StrandedIff(w: World, a: Action, item: Item)
    requires Sound(w) && Enabled(w, a)
    ensures Stranded(Do(w, a), item) <==> (Stranded(w, item) && !Rescues(w, a, item)) || Strands(w, a, item)
  {
    match a {
      case Other(t) => OtherTells(w, t, item);
      case Insert(c) => InsertTells(w, c, item);
      case WriteStatus(c, spec, status, force) => StatusTells(w, c, spec, status, force, item);
      case WriteCancel(c) => CancelTells(w, c, item);
      case CancelNext(c) => RetireTells(w, c, item);
      case SkipNext(c) => SkipTells(w, c, item);
      case ListOpen(c) => ListTells(w, c, item);
      case ListTasks(c) => ListTasksTells(w, c, item);
      case Die(c) => DieTells(w, c, item);
      case _ => ReadTells(w, a, item);
    }
    hide Stranded, Rescues, Strands, Do;
  }

  // ----- whole runs

  predicate NoneRescues(w: World, actions: seq<Action>, item: Item)
    requires Runs(w, actions)
    decreases |actions|
  {
    actions == [] || (!Rescues(w, actions[0], item) && NoneRescues(Do(w, actions[0]), actions[1..], item))
  }

  /** Some step of the run strands the item, and no later one rescues it. */
  predicate StrandedIn(w: World, actions: seq<Action>, item: Item)
    requires Runs(w, actions)
    decreases |actions|
  {
    actions != [] &&
    var w' := Do(w, actions[0]);
    || (Strands(w, actions[0], item) && NoneRescues(w', actions[1..], item))
    || StrandedIn(w', actions[1..], item)
  }

  lemma {:induction false} StrandedInRun(w: World, actions: seq<Action>, item: Item)
    requires Sound(w) && Runs(w, actions)
    ensures Stranded(After(w, actions), item)
      <==> (Stranded(w, item) && NoneRescues(w, actions, item)) || StrandedIn(w, actions, item)
    decreases |actions|
  {
    hide Sound, Enabled, Do, Stranded, Strands, Rescues;
    if actions != [] {
      StrandedIff(w, actions[0], item);
      DoKeepsSound(w, actions[0]);
      StrandedInRun(Do(w, actions[0]), actions[1..], item);
    }
  }

  lemma StartIsSound()
    ensures Sound(START) && forall item: Item :: !Leftover(START.store, item)
  {
  }

  /**
   However calls interleave and wherever they die, when none is under way the open gates and the unfinished tasks
   of cancelled specs are exactly those that some step stranded and no later step rescued.
   */
  lemma QuietLeftoversIff(actions: seq<Action>, item: Item)
    requires Runs(START, actions) && After(START, actions).stages == map[]
    ensures Leftover(After(START, actions).store, item) <==> StrandedIn(START, actions, item)
  {
    StartIsSound();
    hide Sound, Runs, Leftover;
    StrandedInRun(START, actions, item);
  }

  // ----- what a cancel overlooks

  /** No step of the run is caller `c`'s. */
  predicate NoneBy(actions: seq<Action>, c: nat) {
    forall i :: 0 <= i < |actions| ==> actions[i].Other? || actions[i].c != c
  }

  lemma {:induction false} StageWaits(w: World, actions: seq<Action>, c: nat)
    requires Runs(w, actions) && NoneBy(actions, c) && c in w.stages
    ensures var w' := After(w, actions); c in w'.stages && w'.stages[c] == w.stages[c]
    decreases |actions|
  {
    hide Enabled;
    if actions != [] {
      DoIs(w, actions[0]);
      hide Do;
      var w' := Do(w, actions[0]);
      assert c in w'.stages && w'.stages[c] == w.stages[c] by {
        if !actions[0].Other? {
          assert c in w'.stages - {actions[0].c};
        }
      }
      StageWaits(w', actions[1..], c);
    }
  }

  /** An unfinished task of the spec. */
  predicate OpenTask(s: Store, t: Id, spec: Id) {
    Unfinished(s, t) && s.tasks[t].spec == spec
  }

  /**
   Whatever happens between a cancel's listing of tasks and its status write, the write strands exactly the tasks
   that are unfinished by then but were not at the listing, that is, those created or reopened in between; unless
   the spec was cancelled meanwhile, or another cancel has them on its list.
   */
  lemma CancelOverlooksIff(w: World, c: nat, between: seq<Action>, t: Id)
    requires Sound(w) && Enabled(w, ListTasks(c))
    requires Runs(Do(w, ListTasks(c)), between) && NoneBy(between, c)
    ensures var spec, w' := w.stages[c].spec, After(Do(w, ListTasks(c)), between);
      && Enabled(w', WriteCancel(c))
      && (Strands(w', WriteCancel(c), ATask(t))
          <==> && OpenTask(w'.store, t, spec) && !OpenTask(w.store, t, spec)
               && !OnCancelled(w'.store, spec) && !Due(Ended(w', c), ATask(t)))
  {
    var spec := w.stages[c].spec;
    var w1 := Do(w, ListTasks(c));
    assert w1.stages[c] == Cancelling(spec, OpenTasksIn(w.store, spec, w.store.taskOrder));
    DoKeepsSound(w, ListTasks(c));
    StageWaits(w1, between, c);
    SoundAfter(w1, between);
    var w' := After(w1, between);
    OpenTasksFound(w.store, spec, w.store.taskOrder, t);
    DueSplit(w', c, ATask(t));
    hide Do, Due, OpenTasksIn, After, Runs;
  }

  lemma {:induction false} SoundAfter(w: World, actions: seq<Action>)
    requires Sound(w) && Runs(w, actions)
    ensures Sound(After(w, actions))
    decreases |actions|
  {
    hide Sound, Enabled, Do;
    if actions != [] {
      DoKeepsSound(w, actions[0]);
      SoundAfter(Do(w, actions[0]), actions[1..]);
    }
  }

  // ----- each kind is real

  lemma OneStep(w: World, actions: seq<Action>)
    requires actions != [] && Enabled(w, actions[0]) && Runs(Do(w, actions[0]), actions[1..])
    ensures Runs(w, actions) && After(w, actions) == After(Do(w, actions[0]), actions[1..])
  {
  }

  /** One caller has read the spec as live when another cancels it. */
  const RACING := World(
    Store(map["s" := SpecCancelled], map[], map[], [], [], [SpecSubmitted("s"), SpecStatusChanged("s", SpecCancelled)]),
    map[0 := Opening("g", "s", None, true), 1 := Listing("s", 0, [])])

  lemma RacingIsReached() returns (actions: seq<Action>)
    ensures Runs(START, actions) && After(START, actions) == RACING
  {
    var a1, a2 := Other(CreateSpec("s", Executing)), ReadSpec(0, "g", "s", None);
    var a3 := WriteStatus(1, "s", SpecCancelled, false);
    var w1 := Do(START, a1);
    var w2 := Do(w1, a2);
    assert Do(w2, a3) == RACING;
    assert Enabled(START, a1) && Enabled(w1, a2) && Enabled(w2, a3);
    hide Do, Enabled, Commit;
    OneStep(w2, [a3]);
    OneStep(w1, [a2, a3]);
    actions := [a1, a2, a3];
    OneStep(START, actions);
  }

  /** The late insert is real: the read, the whole retirement, and then the insert. */
  lemma LateInsertSurvives() returns (actions: seq<Action>)
    ensures Runs(RACING, actions)
    ensures var w := After(RACING, actions); w.stages == map[] && !NoOrphanGates(w.store)
  {
    var a4, a5, a6 := ListOpen(1), CancelNext(1), Insert(0);
    var w4 := Do(RACING, a4);
    var w5 := Do(w4, a5);
    var w6 := Do(w5, a6);
    assert w6.store.gates["g"] == Gate("s", None, Open, None) && w6.store.specs["s"] == SpecCancelled;
    assert w6.stages == map[];
    assert Enabled(RACING, a4) && Enabled(w4, a5) && Enabled(w5, a6);
    hide Do, Enabled, Commit;
    OneStep(w5, [a6]);
    OneStep(w4, [a5, a6]);
    actions := [a4, a5, a6];
    OneStep(RACING, actions);
  }

  /** A cancel has listed the tasks of a spec, of which there were none, when one is created. */
  const OVERLOOKING := World(
    Store(map["s" := Executing], map["t" := Task("s", None, Pending)], map[], ["t"], [],
          [SpecSubmitted("s"), TaskCreated("t")]),
    map[0 := Cancelling("s", [])])

  lemma OverlookingIsReached() returns (actions: seq<Action>)
    ensures Runs(START, actions) && After(START, actions) == OVERLOOKING
  {
    var a1, a2, a3 := Other(CreateSpec("s", Executing)), AskCancel(0, "s"), ListTasks(0);
    var a4 := Other(CreateTask("t", "s", None, Pending));
    var w1 := Do(START, a1);
    var w2 := Do(w1, a2);
    var w3 := Do(w2, a3);
    assert w3.stages == map[0 := Cancelling("s", [])];
    assert Do(w3, a4) == OVERLOOKING;
    assert Enabled(START, a1) && Enabled(w1, a2) && Enabled(w2, a3) && Enabled(w3, a4);
    hide Do, Enabled, Commit;
    OneStep(w3, [a4]);
    OneStep(w2, [a3, a4]);
    OneStep(w1, [a2, a3, a4]);
    actions := [a1, a2, a3, a4];
    OneStep(START, actions);
  }

  /** The overlooked task is real: it outlives the rest of the cancel. */
  lemma OverlookedTaskSurvives() returns (actions: seq<Action>)
    ensures Runs(OVERLOOKING, actions)
    ensures var w := After(OVERLOOKING, actions); w.stages == map[] && Leftover(w.store, ATask("t"))
  {
    var a5, a6, a7 := WriteCancel(0), ListOpen(0), CancelNext(0);
    var w5 := Do(OVERLOOKING, a5);
    assert w5.stages == map[0 := Listing("s", 1, [])] && w5.store.gateOrder == [];
    var w6 := Do(w5, a6);
    assert w6.stages == map[0 := Retiring("s", [], 1, [])];
    var w7 := Do(w6, a7);
    var w8 := Do(w7, a6);
    var w9 := Do(w8, a7);
    assert w9.stages == map[] && w9.store == w5.store && Leftover(w5.store, ATask("t"));
    assert Enabled(OVERLOOKING, a5) && Enabled(w5, a6) && Enabled(w6, a7) && Enabled(w7, a6) && Enabled(w8, a7);
    hide Do, Enabled, Commit, Leftover;
    OneStep(w8, [a7]);
    OneStep(w7, [a6, a7]);
    OneStep(w6, [a7, a6, a7]);
    OneStep(w5, [a6, a7, a6, a7]);
    actions := [a5, a6, a7, a6, a7];
    OneStep(OVERLOOKING, actions);
  }

  // ----- a call with nothing between its steps is the call as one step

  lemma {:induction false} RunOn(w: World, first: seq<Action>, later: seq<Action>)
    requires Runs(w, first) && Runs(After(w, first), later)
    ensures Runs(w, first + later) && After(w, first + later) == After(After(w, first), later)
    decreases |first|
  {
    hide Enabled, Do;
    if first == [] {
      assert first + later == later;
    } else {
      assert (first + later)[1..] == first[1..] + later;
      RunOn(Do(w, first[0]), first[1..], later);
    }
  }

  /** Opening a gate: the read and the insert. */
  lemma OpenAlone(w: World, c: nat, gate: Id, spec: Id, task: Option<Id>)
    requires c !in w.stages
    ensures var actions := [ReadSpec(c, gate, spec, task), Insert(c)];
      Runs(w, actions) && After(w, actions) == w.(store := Perform(w.store, Call.OpenGate(gate, spec, task)))
  {
    var a1, a2 := ReadSpec(c, gate, spec, task), Insert(c);
    var w1 := Do(w, a1);
    assert Ended(w1, c).stages == w.stages;
    assert Enabled(w, a1) && Enabled(w1, a2);
    OneStep(w1, [a2]);
    OneStep(w, [a1, a2]);
  }

  /** The store after a retirement, with the caller still to go on. */
  lemma {:induction false} RetireAlone(w: World, c: nat, spec: Id, todo: seq<Id>, more: nat, tasks: seq<Id>)
    returns (actions: seq<Action>)
    requires c in w.stages && w.stages[c] == Retiring(spec, todo, more, tasks)
    ensures Runs(w, actions)
    ensures After(w, actions)
         == WithStage(w.(store := CancelGates(w.store, todo)), c, Retiring(spec, [], more, tasks))
    decreases |todo|
  {
    if todo == [] {
      actions := [];
      assert w.stages[c := w.stages[c]] == w.stages;
    } else {
      var a := CancelNext(c);
      var w1 := Do(w, a);
      var rest := RetireAlone(w1, c, spec, todo[1..], more, tasks);
      actions := [a] + rest;
      assert actions[1..] == rest;
      hide Commit;
      OneStep(w, actions);
    }
  }

  lemma {:induction false} SkipAlone(w: World, c: nat, tasks: seq<Id>) returns (actions: seq<Action>)
    requires c in w.stages && w.stages[c] == Skipping(tasks)
    ensures Runs(w, actions) && After(w, actions) == Ended(w.(store := SkipTasks(w.store, tasks)), c)
    decreases |tasks|
  {
    var a := SkipNext(c);
    var w1 := Do(w, a);
    if |tasks| <= 1 {
      actions := [a];
      LastSkip(w, c, tasks);
      OneStep(w, actions);
    } else {
      var rest := SkipAlone(w1, c, tasks[1..]);
      actions := [a] + rest;
      assert actions[1..] == rest;
      hide Commit;
      OneStep(w, actions);
      assert w1.stages - {c} == w.stages - {c};
    }
  }

  lemma LastSkip(w: World, c: nat, tasks: seq<Id>)
    requires c in w.stages && w.stages[c] == Skipping(tasks) && |tasks| <= 1
    ensures Do(w, SkipNext(c)) == Ended(w.(store := SkipTasks(w.store, tasks)), c)
  {
    hide Commit;
    if tasks != [] {
      assert tasks[1..] == [];
      NoSkip(Commit(w.store, SetTaskStatus(tasks[0], Skipped)));
    }
  }

  /** From a listing on: the open gates are cancelled, and the caller lists again, or skips its tasks, or is done. */
  lemma ListAlone(w: World, c: nat, spec: Id, more: nat, tasks: seq<Id>) returns (actions: seq<Action>)
    requires c in w.stages && w.stages[c] == Listing(spec, more, tasks)
    ensures Runs(w, actions)
    ensures var w1 := w.(store := CancelGates(w.store, OpenGates(w.store, spec)));
      After(w, actions) == if more > 0 then WithStage(w1, c, Listing(spec, more - 1, tasks)) else Onward(w1, c, tasks)
  {
    hide CancelGates, OpenGates, Commit;
    var a := ListOpen(c);
    var w1 := Do(w, a);
    var todo := OpenGates(w.store, spec);
    var retire := RetireAlone(w1, c, spec, todo, more, tasks);
    OneStep(w, [a] + retire);
    assert ([a] + retire)[1..] == retire;
    var w2 := After(w1, retire);
    var b := CancelNext(c);
    assert Enabled(w2, b);
    OneStep(w2, [b]);
    RunOn(w, [a] + retire, [b]);
    actions := ([a] + retire) + [b];
    StagesAre(w, c, todo, more, tasks);
  }

  /** Stages of one caller overwrite each other. */
  lemma StagesAre(w: World, c: nat, todo: seq<Id>, more: nat, tasks: seq<Id>)
    ensures forall a: Stage, b: Stage :: WithStage(WithStage(w, c, a), c, b) == WithStage(w, c, b)
    ensures forall a: Stage :: Ended(WithStage(w, c, a), c) == Ended(w, c)
  {
    forall a: Stage ensures Ended(WithStage(w, c, a), c) == Ended(w, c) {
      assert WithStage(w, c, a).stages - {c} == w.stages - {c};
    }
  }

  /** A status write: the write, and the retirement where it ends the spec. */
  lemma StatusAlone(w: World, c: nat, spec: Id, status: SpecStatus, force: bool) returns (actions: seq<Action>)
    requires c !in w.stages
    ensures Runs(w, actions)
    ensures After(w, actions) == w.(store := Perform(w.store, UpdateSpecStatus(spec, status, force)))
  {
    hide CancelGates, OpenGates, Commit;
    var a := WriteStatus(c, spec, status, force);
    var w1 := Do(w, a);
    if StatusWriteLands(w.store, spec, status, force) && TerminalSpec(status) {
      var rest := ListAlone(w1, c, spec, 0, []);
      actions := [a] + rest;
      assert actions[1..] == rest;
      OneStep(w, actions);
      assert w1.stages - {c} == w.stages;
    } else {
      actions := [a];
      OneStep(w, actions);
    }
  }

  /** A cancel up to its status write. */
  lemma CancelBegins(w: World, c: nat, spec: Id) returns (actions: seq<Action>)
    requires c !in w.stages && CancelRefusal(w.store, spec).None?
    ensures Runs(w, actions)
    ensures After(w, actions)
         == WithStage(w.(store := Commit(w.store, SetSpecStatus(spec, SpecCancelled, false))), c,
                      Listing(spec, 1, OpenTasksIn(w.store, spec, w.store.taskOrder)))
  {
    hide Commit, OpenTasksIn;
    var a1, a2, a3 := AskCancel(c, spec), ListTasks(c), WriteCancel(c);
    var w1 := Do(w, a1);
    var w2 := Do(w1, a2);
    StagesAre(w, c, [], 0, []);
    OneStep(w2, [a3]);
    OneStep(w1, [a2, a3]);
    actions := [a1, a2, a3];
    OneStep(w, actions);
  }

  /** A cancel: refused, or the tasks listed, the status written, the gates retired twice and the tasks skipped. */
  lemma CancelAlone(w: World, c: nat, spec: Id) returns (actions: seq<Action>)
    requires c !in w.stages
    ensures Runs(w, actions) && After(w, actions) == w.(store := Perform(w.store, CancelSpec(spec)))
  {
    hide CancelGates, OpenGates, Commit, OpenTasksIn, SkipTasks;
    var a1 := AskCancel(c, spec);
    if CancelRefusal(w.store, spec).Some? {
      actions := [a1];
      OneStep(w, actions);
      return;
    }
    var tasks := OpenTasksIn(w.store, spec, w.store.taskOrder);
    actions := CancelBegins(w, c, spec);
    var w3 := After(w, actions);
    var first := ListAlone(w3, c, spec, 1, tasks);
    RunOn(w, actions, first);
    var w4 := After(w3, first);
    var second := ListAlone(w4, c, spec, 0, tasks);
    RunOn(w, actions + first, second);
    actions := actions + first + second;
    var w5 := After(w4, second);
    assert w.stages[c := Listing(spec, 1, tasks)] - {c} == w.stages;
    assert w.stages[c := Listing(spec, 0, tasks)] - {c} == w.stages;
    if tasks == [] {
      NoSkip(w5.store);
    } else {
      var third := SkipAlone(w5, c, tasks);
      RunOn(w, actions, third);
      actions := actions + third;
      assert w5.stages - {c} == w.stages;
    }
  }

  lemma NoSkip(s: Store)
    ensures SkipTasks(s, []) == s
  {
  }
}
