/** What the task store keeps over every sequence of transactions, and over every sequence of public calls. */
module TaskStoreLaws {
  import opened Options
  import opened TaskStore

  // ----- gates only move forward, and are decided at most once

  /** A gate later: same spec; a decision once written stays; it never reopens; cancelled is final. */
  predicate Advances(a: Gate, b: Gate) {
    && a.spec == b.spec
    && (a.decision.Some? ==> b.decision == a.decision)
    && (a.status != Open ==> b.status != Open && b.decision == a.decision)
    && (a.status == Cancelled ==> b.status == Cancelled)
  }

  ghost predicate GatesAdvance(s: Store, s': Store) {
    forall g <- s.gates :: g in s'.gates && Advances(s.gates[g], s'.gates[g])
  }

  /** Only an open gate can be without the decision a decided status names. */
  predicate GateSound(g: Gate) {
    && (g.status == Open ==> g.decision.None?)
    && (g.status == Approved ==> g.decision == Some(Approve))
    && (g.status == Rejected ==> g.decision == Some(Reject))
  }

  ghost predicate GatesSound(s: Store) {
    forall g <- s.gates :: GateSound(s.gates[g])
  }

  lemma CommitAdvancesGates(s: Store, t: Txn)
    requires GatesSound(s)
    ensures GatesSound(Commit(s, t)) && GatesAdvance(s, Commit(s, t))
  {
  }

  /** Over any interleaving of transactions, every gate only advances. */
  lemma {:induction false} GatesOnlyAdvance(s: Store, txns: seq<Txn>)
    requires GatesSound(s)
    ensures GatesSound(CommitAll(s, txns)) && GatesAdvance(s, CommitAll(s, txns))
    decreases |txns|
  {
    hide Commit, GateSound;
    if txns != [] {
      var next := Commit(s, txns[0]);
      CommitAdvancesGates(s, txns[0]);
      GatesOnlyAdvance(next, txns[1..]);
      forall g <- s.gates ensures g in CommitAll(s, txns).gates && Advances(s.gates[g], CommitAll(s, txns).gates[g]) {
        assert Advances(s.gates[g], next.gates[g]) && Advances(next.gates[g], CommitAll(s, txns).gates[g]);
      }
    }
  }

  // ----- one decision event per decided gate

  /** The approvals and rejections of a gate in the event log. */
  function DecisionsOf(events: seq<Event>, gate: Id): seq<Decision> {
    if events == [] then []
    else
      (if events[0].GateDecided? && events[0].gate == gate then [events[0].decision] else [])
      + DecisionsOf(events[1..], gate)
  }

  lemma {:induction false} DecisionsAppend(events: seq<Event>, e: Event, gate: Id)
    ensures DecisionsOf(events + [e], gate)
         == DecisionsOf(events, gate) + if e.GateDecided? && e.gate == gate then [e.decision] else []
  {
    if events == [] {
      assert (events + [e])[1..] == [];
    } else {
      assert (events + [e])[1..] == events[1..] + [e];
      DecisionsAppend(events[1..], e, gate);
      Regroup(if events[0].GateDecided? && events[0].gate == gate then [events[0].decision] else [],
              DecisionsOf(events[1..], gate), if e.GateDecided? && e.gate == gate then [e.decision] else []);
    }
  }

  lemma {:induction false} DecisionsWithoutTicks(events: seq<Event>, cutoff: int, gate: Id)
    ensures DecisionsOf(WithoutTicks(events, cutoff), gate) == DecisionsOf(events, gate)
  {
    if events != [] {
      DecisionsWithoutTicks(events[1..], cutoff, gate);
      var rest := WithoutTicks(events[1..], cutoff);
      assert ([events[0]] + rest)[1..] == rest;
      assert [] + rest == rest;
    }
  }

  /** The log has a gate's decision exactly when its row has one. */
  ghost predicate DecisionsLogged(s: Store) {
    GatesSound(s) &&
    forall g: Id :: DecisionsOf(s.events, g) ==
                    if g in s.gates && s.gates[g].decision.Some? then [s.gates[g].decision.value] else []
  }

  function LastEvent(s: Store, t: Txn): Option<Event> {
    var s' := Commit(s, t);
    if |s'.events| == |s.events| + 1 && s'.events[..|s.events|] == s.events then Some(s'.events[|s.events|]) else None
  }

  /** A transaction logs one event at the end, or none, or takes ticks out. */
  lemma CommitLogs(s: Store, t: Txn)
    ensures !t.PruneTicks? ==>
              Commit(s, t).events == s.events + if LastEvent(s, t).Some? then [LastEvent(s, t).value] else []
    ensures t.PruneTicks? ==> Commit(s, t).events == WithoutTicks(s.events, t.cutoff)
  {
  }

  lemma CommitLogsDecision(s: Store, t: Txn, g: Id)
    requires DecisionsLogged(s)
    ensures var s' := Commit(s, t);
            DecisionsOf(s'.events, g) ==
            if g in s'.gates && s'.gates[g].decision.Some? then [s'.gates[g].decision.value] else []
  {
    hide DecisionsOf, WithoutTicks;
    CommitLogs(s, t);
    if t.PruneTicks? {
      DecisionsWithoutTicks(s.events, t.cutoff, g);
    } else if LastEvent(s, t).Some? {
      DecisionsAppend(s.events, LastEvent(s, t).value, g);
    } else {
      assert Commit(s, t).events == s.events;
    }
  }

  lemma CommitLogsDecisions(s: Store, t: Txn)
    requires DecisionsLogged(s)
    ensures DecisionsLogged(Commit(s, t))
  {
    hide DecisionsOf, Commit;
    CommitAdvancesGates(s, t);
    forall g: Id
      ensures DecisionsOf(Commit(s, t).events, g) ==
              if g in Commit(s, t).gates && Commit(s, t).gates[g].decision.Some?
              then [Commit(s, t).gates[g].decision.value] else []
    {
      CommitLogsDecision(s, t, g);
    }
  }

  /** In every run a gate has exactly one approved or rejected event if it was decided, and none otherwise. */
  lemma {:induction false} OneEventPerDecision(s: Store, txns: seq<Txn>)
    requires DecisionsLogged(s)
    ensures DecisionsLogged(CommitAll(s, txns))
    decreases |txns|
  {
    hide Commit, DecisionsLogged;
    if txns != [] {
      CommitLogsDecisions(s, txns[0]);
      OneEventPerDecision(Commit(s, txns[0]), txns[1..]);
    }
  }

  // ----- the spec's status is a fold of its events

  /** The last status the log gives a spec, or the one it started from. */
  function FoldStatus(start: SpecStatus, events: seq<Event>, spec: Id): SpecStatus
    decreases |events|
  {
    if events == [] then start
    else
      FoldStatus(if events[0].SpecStatusChanged? && events[0].spec == spec then events[0].newStatus else start,
                 events[1..], spec)
  }

  lemma {:induction false} FoldAppend(start: SpecStatus, events: seq<Event>, e: Event, spec: Id)
    ensures FoldStatus(start, events + [e], spec)
         == if e.SpecStatusChanged? && e.spec == spec then e.newStatus else FoldStatus(start, events, spec)
    decreases |events|
  {
    if events == [] {
      assert (events + [e])[1..] == [];
    } else {
      assert (events + [e])[1..] == events[1..] + [e];
      FoldAppend(if events[0].SpecStatusChanged? && events[0].spec == spec then events[0].newStatus else start,
                 events[1..], e, spec);
    }
  }

  lemma {:induction false} FoldWithoutTicks(start: SpecStatus, events: seq<Event>, cutoff: int, spec: Id)
    ensures FoldStatus(start, WithoutTicks(events, cutoff), spec) == FoldStatus(start, events, spec)
    decreases |events|
  {
    if events != [] {
      var rest := WithoutTicks(events[1..], cutoff);
      var next := if events[0].SpecStatusChanged? && events[0].spec == spec then events[0].newStatus else start;
      FoldWithoutTicks(next, events[1..], cutoff, spec);
      assert ([events[0]] + rest)[1..] == rest;
      assert [] + rest == rest;
    }
  }

  function CreatedBy(known: map<Id, SpecStatus>, t: Txn): map<Id, SpecStatus> {
    if t.CreateSpec? && t.id !in known then known[t.id := t.specStatus] else known
  }

  /** The status each spec was created with, as the transactions of the run gave it. */
  function CreatedWith(known: map<Id, SpecStatus>, txns: seq<Txn>): map<Id, SpecStatus>
    decreases |txns|
  {
    if txns == [] then known else CreatedWith(CreatedBy(known, txns[0]), txns[1..])
  }

  /** No event names a spec that does not exist, and each row is the fold of its events. */
  ghost predicate StatusLogged(s: Store, created: map<Id, SpecStatus>) {
    && s.specs.Keys == created.Keys
    && (forall e <- s.events :: e.SpecStatusChanged? ==> e.spec in s.specs)
    && (forall id <- s.specs :: s.specs[id] == FoldStatus(created[id], s.events, id))
  }

  lemma {:induction false} FoldUnmentioned(start: SpecStatus, events: seq<Event>, spec: Id)
    requires forall e <- events :: e.SpecStatusChanged? ==> e.spec != spec
    ensures FoldStatus(start, events, spec) == start
    decreases |events|
  {
    if events != [] {
      assert events[0] in events;
      FoldUnmentioned(start, events[1..], spec);
    }
  }

  lemma {:induction false} TicksOnly(events: seq<Event>, cutoff: int)
    ensures forall e <- WithoutTicks(events, cutoff) :: e in events
  {
    if events != [] {
      TicksOnly(events[1..], cutoff);
    }
  }

  lemma CommitFolds(s: Store, created: map<Id, SpecStatus>, t: Txn, id: Id)
    requires StatusLogged(s, created) && id in s.specs
    ensures Commit(s, t).specs[id] == FoldStatus(created[id], Commit(s, t).events, id)
  {
    hide FoldStatus, WithoutTicks;
    CommitLogs(s, t);
    if t.PruneTicks? {
      FoldWithoutTicks(created[id], s.events, t.cutoff, id);
    } else if LastEvent(s, t).Some? {
      FoldAppend(created[id], s.events, LastEvent(s, t).value, id);
    } else {
      assert Commit(s, t).events == s.events;
    }
  }

  lemma CommitMentions(s: Store, created: map<Id, SpecStatus>, t: Txn)
    requires StatusLogged(s, created)
    ensures Commit(s, t).specs.Keys == CreatedBy(created, t).Keys && s.specs.Keys <= Commit(s, t).specs.Keys
    ensures forall e <- Commit(s, t).events :: e.SpecStatusChanged? ==> e.spec in s.specs
  {
    hide FoldStatus, WithoutTicks;
    if t.PruneTicks? {
      TicksOnly(s.events, t.cutoff);
    }
  }

  lemma CommitLogsStatus(s: Store, created: map<Id, SpecStatus>, t: Txn)
    requires StatusLogged(s, created)
    ensures StatusLogged(Commit(s, t), CreatedBy(created, t))
  {
    hide FoldStatus, WithoutTicks;
    CommitMentions(s, created, t);
    var s', created' := Commit(s, t), CreatedBy(created, t);
    forall id <- s'.specs ensures s'.specs[id] == FoldStatus(created'[id], s'.events, id) {
      if id in s.specs {
        CommitFolds(s, created, t, id);
      } else {
        FoldUnmentioned(created'[id], s'.events, id);
      }
    }
  }

  /** In every run a spec's status is the fold of its status events over the status it was created with. */
  lemma {:induction false} StatusIsFoldOfEvents(s: Store, created: map<Id, SpecStatus>, txns: seq<Txn>)
    requires StatusLogged(s, created)
    ensures StatusLogged(CommitAll(s, txns), CreatedWith(created, txns))
    decreases |txns|
  {
    hide Commit, StatusLogged;
    if txns != [] {
      CommitLogsStatus(s, created, txns[0]);
      StatusIsFoldOfEvents(Commit(s, txns[0]), CreatedBy(created, txns[0]), txns[1..]);
    }
  }

  /** One transaction takes a cancelled spec out of its status exactly when it is a forced write of another. */
  lemma CancelledLeavesOnlyByForce(s: Store, t: Txn, id: Id)
    requires id in s.specs && s.specs[id] == SpecCancelled
    ensures Commit(s, t).specs[id] != SpecCancelled
            <==> t.SetSpecStatus? && t.id == id && t.force && t.specStatus != SpecCancelled
  {
  }

  /** Without a forced write to it, a cancelled spec stays cancelled through any interleaving. */
  lemma {:induction false} CancelledIsAbsorbing(s: Store, txns: seq<Txn>, id: Id)
    requires id in s.specs && s.specs[id] == SpecCancelled
    requires forall t <- txns :: t.SetSpecStatus? && t.id == id ==> !t.force
    ensures id in CommitAll(s, txns).specs && CommitAll(s, txns).specs[id] == SpecCancelled
    decreases |txns|
  {
    if txns != [] {
      assert txns[0] in txns;
      CancelledIsAbsorbing(Commit(s, txns[0]), txns[1..], id);
    }
  }

  // ----- claims

  /** The transaction sets the task pending: by creating it so, or by a status write. */
  predicate SetsPending(s: Store, t: Txn, id: Id) {
    || (t.CreateTask? && t.id == id && id !in s.tasks && Referable(s, t.spec, t.parent) && t.taskStatus == Pending)
    || (t.SetTaskStatus? && t.id == id && id in s.tasks && t.taskStatus == Pending)
  }

  predicate Claimable(s: Store, id: Id) {
    id in s.tasks && s.tasks[id].status == Pending
  }

  /** The transaction is a claim of the task that succeeds. */
  predicate Claims(s: Store, t: Txn, id: Id) {
    t.ClaimTask? && t.id == id && Claimable(s, id)
  }

  function TimesPending(s: Store, txns: seq<Txn>, id: Id): nat
    decreases |txns|
  {
    if txns == [] then 0
    else (if SetsPending(s, txns[0], id) then 1 else 0) + TimesPending(Commit(s, txns[0]), txns[1..], id)
  }

  function TimesClaimed(s: Store, txns: seq<Txn>, id: Id): nat
    decreases |txns|
  {
    if txns == [] then 0
    else (if Claims(s, txns[0], id) then 1 else 0) + TimesClaimed(Commit(s, txns[0]), txns[1..], id)
  }

  /** A claim uses up the task being pending; only setting it pending makes it claimable again. */
  lemma ClaimUsesPending(s: Store, t: Txn, id: Id)
    ensures Claims(s, t, id) ==> !Claimable(Commit(s, t), id)
    ensures !Claimable(s, id) && Claimable(Commit(s, t), id) ==> SetsPending(s, t, id)
  {
  }

  /** Successful claims never outnumber the times the task was set pending, counting one it starts with. */
  lemma {:induction false} ClaimsAreBounded(s: Store, txns: seq<Txn>, id: Id)
    ensures TimesClaimed(s, txns, id) + (if Claimable(CommitAll(s, txns), id) then 1 else 0)
         <= TimesPending(s, txns, id) + if Claimable(s, id) then 1 else 0
    decreases |txns|
  {
    hide Commit, SetsPending, Claimable;
    if txns != [] {
      ClaimUsesPending(s, txns[0], id);
      ClaimsAreBounded(Commit(s, txns[0]), txns[1..], id);
    }
  }

  /** All of it for a store that starts empty, whatever transactions commit in whatever order. */
  lemma EveryRunFromEmpty(txns: seq<Txn>, id: Id)
    ensures var s := CommitAll(EMPTY_STORE, txns);
            && DecisionsLogged(s)
            && StatusLogged(s, CreatedWith(map[], txns))
            && TimesClaimed(EMPTY_STORE, txns, id) <= TimesPending(EMPTY_STORE, txns, id)
  {
    hide CommitAll, CreatedWith, TimesClaimed, TimesPending;
    OneEventPerDecision(EMPTY_STORE, txns);
    StatusIsFoldOfEvents(EMPTY_STORE, map[], txns);
    ClaimsAreBounded(EMPTY_STORE, txns, id);
  }

  // ----- public calls as atomic steps: no open gate on a cancelled spec

  /** Every open gate belongs to a spec that is not cancelled, and the order lists cover the tables. */
  ghost predicate NoOrphanGates(s: Store) {
    forall g <- s.gates :: s.gates[g].status == Open ==>
      s.gates[g].spec in s.specs && s.specs[s.gates[g].spec] != SpecCancelled
  }

  ghost predicate Listed(s: Store) {
    && (forall g <- s.gates :: g in s.gateOrder)
    && (forall t <- s.tasks :: t in s.taskOrder)
  }

  lemma CommitKeepsListed(s: Store, t: Txn)
    requires Listed(s)
    ensures Listed(Commit(s, t))
  {
  }

  lemma {:induction false} OpenGatesFound(s: Store, spec: Id, order: seq<Id>, g: Id)
    ensures g in OpenGatesIn(s, spec, order) <==>
            g in order && g in s.gates && s.gates[g].status == Open && s.gates[g].spec == spec
  {
    if order != [] {
      OpenGatesFound(s, spec, order[1..], g);
    }
  }

  /** Cancelling gates changes the gates named, to cancelled, and nothing else but the log. */
  lemma {:induction false} CancelGatesEffect(s: Store, ids: seq<Id>)
    ensures var s' := CancelGates(s, ids);
            && s'.specs == s.specs && s'.tasks == s.tasks && s'.gates.Keys == s.gates.Keys
            && s'.taskOrder == s.taskOrder && s'.gateOrder == s.gateOrder
            && forall g <- s.gates :: s'.gates[g] == if g in ids then s.gates[g].(status := Cancelled) else s.gates[g]
    decreases |ids|
  {
    if ids != [] {
      CancelGatesEffect(Commit(s, CancelGate(ids[0])), ids[1..]);
    }
  }

  /** Retiring leaves no open gate on the spec and touches no other gate. */
  lemma RetireLeavesNone(s: Store, spec: Id)
    requires Listed(s)
    ensures var s' := CancelGates(s, OpenGates(s, spec));
            && Listed(s') && s'.specs == s.specs && s'.tasks == s.tasks && s'.taskOrder == s.taskOrder
            && s'.gates.Keys == s.gates.Keys
            && forall g <- s.gates ::
                 && s'.gates[g].spec == s.gates[g].spec
                 && (s'.gates[g].status == Open <==> s.gates[g].status == Open && s.gates[g].spec != spec)
  {
    CancelGatesEffect(s, OpenGates(s, spec));
    forall g: Id ensures g in OpenGates(s, spec) <==>
                         g in s.gateOrder && g in s.gates && s.gates[g].status == Open && s.gates[g].spec == spec
    {
      OpenGatesFound(s, spec, s.gateOrder, g);
    }
  }

  lemma UpdateKeepsNoOrphans(s: Store, id: Id, status: SpecStatus, force: bool)
    requires NoOrphanGates(s) && Listed(s)
    ensures NoOrphanGates(UpdatedSpec(s, id, status, force)) && Listed(UpdatedSpec(s, id, status, force))
  {
    hide CancelGates, OpenGates;
    var s1 := Commit(s, SetSpecStatus(id, status, force));
    CommitKeepsListed(s, SetSpecStatus(id, status, force));
    RetireLeavesNone(s1, id);
  }

  lemma {:induction false} SkipTasksEffect(s: Store, ids: seq<Id>)
    ensures var s' := SkipTasks(s, ids);
            && s'.specs == s.specs && s'.gates == s.gates && s'.tasks.Keys == s.tasks.Keys
            && s'.taskOrder == s.taskOrder && s'.gateOrder == s.gateOrder
            && forall t <- s.tasks :: s'.tasks[t] == if t in ids then s.tasks[t].(status := Skipped) else s.tasks[t]
    decreases |ids|
  {
    if ids != [] {
      SkipTasksEffect(Commit(s, SetTaskStatus(ids[0], Skipped)), ids[1..]);
    }
  }

  lemma {:induction false} OpenTasksFound(s: Store, spec: Id, order: seq<Id>, t: Id)
    ensures t in OpenTasksIn(s, spec, order) <==>
            t in order && t in s.tasks && s.tasks[t].spec == spec && !TerminalTask(s.tasks[t].status)
  {
    if order != [] {
      OpenTasksFound(s, spec, order[1..], t);
    }
  }

  lemma CancelSpecKeepsNoOrphans(s: Store, id: Id)
    requires NoOrphanGates(s) && Listed(s)
    ensures NoOrphanGates(CancelledSpec(s, id)) && Listed(CancelledSpec(s, id))
  {
    hide CancelGates, SkipTasks, OpenGates, UpdatedSpec, OpenTasksIn;
    if CancelRefusal(s, id).None? {
      var s1 := UpdatedSpec(s, id, SpecCancelled, false);
      UpdateKeepsNoOrphans(s, id, SpecCancelled, false);
      RetireLeavesNone(s1, id);
      SkipTasksEffect(CancelGates(s1, OpenGates(s1, id)), OpenTasksIn(s, id, s.taskOrder));
    }
  }

  lemma WholeMethodKeepsNoOrphans(s: Store, t: Txn)
    requires NoOrphanGates(s) && IsWholeMethod(t)
    ensures NoOrphanGates(Commit(s, t))
  {
  }

  lemma OpenGateKeepsNoOrphans(s: Store, id: Id, spec: Id, task: Option<Id>)
    requires NoOrphanGates(s)
    ensures NoOrphanGates(Commit(s, CreateGate(id, spec, task, BornOpen(s, spec))))
  {
  }

  /** Every public call, taken as one step, keeps a cancelled spec free of open gates. */
  lemma PerformKeepsNoOrphans(s: Store, c: Call)
    requires NoOrphanGates(s) && Listed(s)
    ensures NoOrphanGates(Perform(s, c)) && Listed(Perform(s, c))
  {
    hide CancelledSpec, UpdatedSpec, Commit, NoOrphanGates, Listed;
    match c {
      case Single(t) =>
        if IsWholeMethod(t) {
          WholeMethodKeepsNoOrphans(s, t);
          CommitKeepsListed(s, t);
        }
      case UpdateSpecStatus(id, status, force) => UpdateKeepsNoOrphans(s, id, status, force);
      case CancelSpec(id) => CancelSpecKeepsNoOrphans(s, id);
      case OpenGate(id, spec, task) =>
        OpenGateKeepsNoOrphans(s, id, spec, task);
        CommitKeepsListed(s, Txn.CreateGate(id, spec, task, BornOpen(s, spec)));
    }
  }

  lemma {:induction false} NoOrphansInAnyRunOfCalls(s: Store, calls: seq<Call>)
    requires NoOrphanGates(s) && Listed(s)
    ensures NoOrphanGates(PerformAll(s, calls)) && Listed(PerformAll(s, calls))
    decreases |calls|
  {
    hide Perform, NoOrphanGates, Listed;
    if calls != [] {
      PerformKeepsNoOrphans(s, calls[0]);
      NoOrphansInAnyRunOfCalls(Perform(s, calls[0]), calls[1..]);
    }
  }

  /** A cancel that is not refused ends the spec, every task of it and every open gate on it, and nothing else. */
  lemma CancelSpecClosesEverything(s: Store, id: Id)
    requires Listed(s) && CancelRefusal(s, id).None?
    ensures var s' := CancelledSpec(s, id);
            && s'.specs == s.specs[id := SpecCancelled]
            && s'.tasks.Keys == s.tasks.Keys && s'.gates.Keys == s.gates.Keys
            && (forall t <- s.tasks ::
                  s'.tasks[t] == if s.tasks[t].spec == id && !TerminalTask(s.tasks[t].status)
                                 then s.tasks[t].(status := Skipped) else s.tasks[t])
            && (forall g <- s.gates ::
                  s'.gates[g].status == Open <==> s.gates[g].status == Open && s.gates[g].spec != id)
  {
    hide CancelGates, SkipTasks, OpenGates, OpenTasksIn;
    var s0 := Commit(s, SetSpecStatus(id, SpecCancelled, false));
    RetireLeavesNone(s0, id);
    var s1 := CancelGates(s0, OpenGates(s0, id));
    RetireLeavesNone(s1, id);
    var s2 := CancelGates(s1, OpenGates(s1, id));
    SkipTasksEffect(s2, OpenTasksIn(s, id, s.taskOrder));
    forall t: Id ensures t in OpenTasksIn(s, id, s.taskOrder) <==>
                         t in s.taskOrder && t in s.tasks && s.tasks[t].spec == id && !TerminalTask(s.tasks[t].status)
    {
      OpenTasksFound(s, id, s.taskOrder, t);
    }
  }

  // ----- at transaction granularity the gate claim fails

  /** The transaction puts an open gate on a cancelled spec. */
  predicate OpensOnCancelled(s: Store, t: Txn) {
    && t.CreateGate? && t.bornOpen && t.id !in s.gates && Referable(s, t.spec, t.task)
    && s.specs[t.spec] == SpecCancelled
  }

  /** The transaction cancels a spec over an open gate. */
  predicate CancelsOverOpen(s: Store, t: Txn) {
    && t.SetSpecStatus? && t.specStatus == SpecCancelled && t.id in s.specs
    && exists g :: g in s.gates && s.gates[g].status == Open && s.gates[g].spec == t.id
  }

  /** One transaction breaks the claim exactly when it does one of the two. */
  lemma CommitKeepsNoOrphansIff(s: Store, t: Txn)
    requires NoOrphanGates(s)
    ensures NoOrphanGates(Commit(s, t)) <==> !OpensOnCancelled(s, t) && !CancelsOverOpen(s, t)
  {
    var s' := Commit(s, t);
    if OpensOnCancelled(s, t) {
      assert s'.gates[t.id].status == Open && s'.specs[t.spec] == SpecCancelled;
    } else if CancelsOverOpen(s, t) {
      var g :| g in s.gates && s.gates[g].status == Open && s.gates[g].spec == t.id;
      assert s'.gates[g] == s.gates[g] && s'.specs[t.id] == SpecCancelled;
    }
  }

  /** The claim holds after every transaction of the run. */
  ghost predicate NeverOrphaned(s: Store, txns: seq<Txn>)
    decreases |txns|
  {
    NoOrphanGates(s) && (txns != [] ==> NeverOrphaned(Commit(s, txns[0]), txns[1..]))
  }

  /** No transaction of the run does either where it commits. */
  predicate NoneOrphans(s: Store, txns: seq<Txn>)
    decreases |txns|
  {
    txns == []
    || (!OpensOnCancelled(s, txns[0]) && !CancelsOverOpen(s, txns[0]) && NoneOrphans(Commit(s, txns[0]), txns[1..]))
  }

  /** A run keeps the claim throughout exactly when none of its transactions does either where it commits. */
  lemma {:induction false} NeverOrphanedIff(s: Store, txns: seq<Txn>)
    requires NoOrphanGates(s)
    ensures NeverOrphaned(s, txns) <==> NoneOrphans(s, txns)
    decreases |txns|
  {
    hide NoOrphanGates, Commit, OpensOnCancelled, CancelsOverOpen;
    if txns != [] {
      CommitKeepsNoOrphansIff(s, txns[0]);
      if NoOrphanGates(Commit(s, txns[0])) {
        NeverOrphanedIff(Commit(s, txns[0]), txns[1..]);
      }
    }
  }

  /** Opening a gate keeps the claim exactly when the spec is not cancelled by the time the insert commits. */
  lemma InsertKeepsNoOrphansIff(s: Store, id: Id, spec: Id, task: Option<Id>, bornOpen: bool)
    requires NoOrphanGates(s) && id !in s.gates && Referable(s, spec, task)
    ensures NoOrphanGates(Commit(s, CreateGate(id, spec, task, bornOpen)))
            <==> !bornOpen || s.specs[spec] != SpecCancelled
  {
    CommitKeepsNoOrphansIff(s, CreateGate(id, spec, task, bornOpen));
  }

  /** The read before the transaction can be stale: a cancel committed in between leaves an orphan gate. */
  lemma StaleReadLeavesOrphan()
    ensures var s1 := Commit(EMPTY_STORE, CreateSpec("s", Executing));
            var bornOpen := BornOpen(s1, "s");
            var s2 := CancelledSpec(s1, "s");
            var s3 := Commit(s2, CreateGate("g", "s", None, bornOpen));
            NoOrphanGates(s1) && NoOrphanGates(s2) && !NoOrphanGates(s3)
  {
    var s1 := Commit(EMPTY_STORE, CreateSpec("s", Executing));
    CancelSpecClosesEverything(s1, "s");
    var s2 := CancelledSpec(s1, "s");
    InsertKeepsNoOrphansIff(s2, "g", "s", None, BornOpen(s1, "s"));
  }

  /**
   A process that dies between the status write and the retirement leaves an orphan too, and cancelling the
   spec again is refused.
   */
  lemma StoppedCancelLeavesOrphan()
    ensures var s1 := Commit(EMPTY_STORE, CreateSpec("s", Executing));
            var s2 := Commit(s1, CreateGate("g", "s", None, BornOpen(s1, "s")));
            var s3 := Commit(s2, SetSpecStatus("s", SpecCancelled, false));
            && NoOrphanGates(s2) && !NoOrphanGates(s3)
            && CancelRefusal(s3, "s") == Some(AlreadyTerminal(SpecCancelled)) && CancelledSpec(s3, "s") == s3
  {
    var s1 := Commit(EMPTY_STORE, CreateSpec("s", Executing));
    var s2 := Commit(s1, CreateGate("g", "s", None, BornOpen(s1, "s")));
    assert "g" in s2.gates && s2.gates["g"] == Gate("s", None, Open, None);
    CommitKeepsNoOrphansIff(s2, SetSpecStatus("s", SpecCancelled, false));
  }

  // ----- rebuilding tasks and gates from the log

  /** The last status the log gives a task, or the one it started from. */
  function FoldTask(start: TaskStatus, events: seq<Event>, task: Id): TaskStatus {
    if events == [] then start
    else
      var e := events[|events| - 1];
      if e.TaskStatusChanged? && e.task == task then e.taskStatus else FoldTask(start, events[..|events| - 1], task)
  }

  /** The status the log gives a gate that starts open. */
  function FoldGate(events: seq<Event>, gate: Id): GateStatus {
    if events == [] then Open
    else
      var e := events[|events| - 1];
      if e.GateDecided? && e.gate == gate then StatusAfter(e.decision)
      else if e.GateCancelled? && e.gate == gate then Cancelled
      else FoldGate(events[..|events| - 1], gate)
  }

  lemma {:induction false} TicksFoldAway(start: TaskStatus, events: seq<Event>, cutoff: int, id: Id)
    ensures FoldTask(start, WithoutTicks(events, cutoff), id) == FoldTask(start, events, id)
    ensures FoldGate(WithoutTicks(events, cutoff), id) == FoldGate(events, id)
  {
    if events != [] {
      hide FoldTask, FoldGate, WithoutTicks;
      var before, e := events[..|events| - 1], events[|events| - 1];
      assert events == before + [e];
      TicksFoldAway(start, before, cutoff, id);
      WithoutTicksLast(before, e, cutoff);
      var kept := WithoutTicks(before, cutoff);
      assert kept + [] == kept;
      FoldsAppend(start, before, e, id);
      FoldsAppend(start, kept, e, id);
    }
  }

  lemma {:induction false} WithoutTicksLast(events: seq<Event>, e: Event, cutoff: int)
    ensures WithoutTicks(events + [e], cutoff) == WithoutTicks(events, cutoff) + UnlessOldTick(e, cutoff)
    decreases |events|
  {
    hide UnlessOldTick;
    if events == [] {
      assert ([] + [e])[1..] == [];
    } else {
      assert (events + [e])[1..] == events[1..] + [e];
      WithoutTicksLast(events[1..], e, cutoff);
    }
  }

  /** What a run leaves out of the log: tasks whose last write was a claim, and gates born and still closed. */
  datatype Unlogged = Unlogged(tasks: set<Id>, gates: set<Id>)

  function UnloggedAfter(u: Unlogged, s: Store, t: Txn): Unlogged {
    match t
    case ClaimTask(id) => if Claimable(s, id) then u.(tasks := u.tasks + {id}) else u
    case SetTaskStatus(id, _) => if id in s.tasks then u.(tasks := u.tasks - {id}) else u
    case CreateGate(id, spec, task, bornOpen) =>
      if id !in s.gates && Referable(s, spec, task) && !bornOpen then u.(gates := u.gates + {id}) else u
    case CancelGate(id) => u.(gates := u.gates - {id})
    case _ => u
  }

  function UnloggedBy(u: Unlogged, s: Store, txns: seq<Txn>): Unlogged
    decreases |txns|
  {
    if txns == [] then u else UnloggedBy(UnloggedAfter(u, s, txns[0]), Commit(s, txns[0]), txns[1..])
  }

  function TasksCreatedBy(known: map<Id, TaskStatus>, s: Store, t: Txn): map<Id, TaskStatus> {
    if t.CreateTask? && t.id !in s.tasks && Referable(s, t.spec, t.parent) then known[t.id := t.taskStatus] else known
  }

  /** The status each task was created with in the run. */
  function TasksCreatedWith(known: map<Id, TaskStatus>, s: Store, txns: seq<Txn>): map<Id, TaskStatus>
    decreases |txns|
  {
    if txns == [] then known
    else TasksCreatedWith(TasksCreatedBy(known, s, txns[0]), Commit(s, txns[0]), txns[1..])
  }

  /** A row is what the log rebuilds, but for the unlogged: running tasks it has pending, closed gates it has open. */
  ghost predicate RowsLogged(s: Store, created: map<Id, TaskStatus>, u: Unlogged) {
    && s.tasks.Keys == created.Keys && u.tasks <= s.tasks.Keys && u.gates <= s.gates.Keys
    && (forall e <- s.events :: (e.TaskStatusChanged? ==> e.task in s.tasks)
                                && (e.GateDecided? || e.GateCancelled? ==> e.gate in s.gates))
    && (forall id <- s.tasks ::
          FoldTask(created[id], s.events, id) == if id in u.tasks then Pending else s.tasks[id].status)
    && (forall id <- s.gates :: FoldGate(s.events, id) == if id in u.gates then Open else s.gates[id].status)
    && (forall id <- u.tasks :: s.tasks[id].status == Running)
    && (forall id <- u.gates :: s.gates[id].status == Cancelled)
  }

  lemma {:induction false} FoldTaskUnmentioned(start: TaskStatus, events: seq<Event>, task: Id)
    requires forall e <- events :: e.TaskStatusChanged? ==> e.task != task
    ensures FoldTask(start, events, task) == start
  {
    if events != [] {
      assert events[|events| - 1] in events;
      FoldTaskUnmentioned(start, events[..|events| - 1], task);
    }
  }

  lemma {:induction false} FoldGateUnmentioned(events: seq<Event>, gate: Id)
    requires forall e <- events :: e.GateDecided? || e.GateCancelled? ==> e.gate != gate
    ensures FoldGate(events, gate) == Open
  {
    if events != [] {
      assert events[|events| - 1] in events;
      FoldGateUnmentioned(events[..|events| - 1], gate);
    }
  }

  lemma FoldsAppend(start: TaskStatus, events: seq<Event>, e: Event, id: Id)
    ensures FoldTask(start, events + [e], id)
         == if e.TaskStatusChanged? && e.task == id then e.taskStatus else FoldTask(start, events, id)
    ensures FoldGate(events + [e], id)
         == if e.GateDecided? && e.gate == id then StatusAfter(e.decision)
            else if e.GateCancelled? && e.gate == id then Cancelled else FoldGate(events, id)
  {
    assert (events + [e])[..|events|] == events;
  }

  /** What the log rebuilds of one task or gate after a transaction. */
  lemma FoldsAfter(s: Store, t: Txn, start: TaskStatus, id: Id)
    ensures var s' := Commit(s, t);
      && FoldTask(start, s'.events, id)
         == (if t.SetTaskStatus? && t.id == id && id in s.tasks then t.taskStatus else FoldTask(start, s.events, id))
      && FoldGate(s'.events, id)
         == if t.RespondGate? && t.id == id && id in s.gates && s.gates[id].status == Open then StatusAfter(t.decision)
            else if t.CancelGate? && t.id == id && id in s.gates then Cancelled else FoldGate(s.events, id)
  {
    hide FoldTask, FoldGate, WithoutTicks;
    CommitLogs(s, t);
    if t.PruneTicks? {
      TicksFoldAway(start, s.events, t.cutoff, id);
    } else if LastEvent(s, t).Some? {
      FoldsAppend(start, s.events, LastEvent(s, t).value, id);
    } else {
      assert Commit(s, t).events == s.events;
    }
  }

  lemma RowMentions(s: Store, created: map<Id, TaskStatus>, u: Unlogged, t: Txn)
    requires RowsLogged(s, created, u)
    ensures var s' := Commit(s, t);
      forall e <- s'.events :: (e.TaskStatusChanged? ==> e.task in s'.tasks)
                               && (e.GateDecided? || e.GateCancelled? ==> e.gate in s'.gates)
  {
    hide FoldTask, FoldGate, WithoutTicks;
    if t.PruneTicks? {
      TicksOnly(s.events, t.cutoff);
    }
  }

  lemma CommitLogsTasks(s: Store, created: map<Id, TaskStatus>, u: Unlogged, t: Txn, id: Id)
    requires RowsLogged(s, created, u) && id in Commit(s, t).tasks
    ensures var s', c', u' := Commit(s, t), TasksCreatedBy(created, s, t), UnloggedAfter(u, s, t);
      && id in c' && FoldTask(c'[id], s'.events, id) == (if id in u'.tasks then Pending else s'.tasks[id].status)
      && (id in u'.tasks ==> s'.tasks[id].status == Running)
  {
    hide FoldTask, FoldGate, WithoutTicks;
    var c' := TasksCreatedBy(created, s, t);
    FoldsAfter(s, t, c'[id], id);
    if id !in s.tasks {
      FoldTaskUnmentioned(c'[id], s.events, id);
    }
  }

  lemma CommitLogsGates(s: Store, created: map<Id, TaskStatus>, u: Unlogged, t: Txn, id: Id)
    requires RowsLogged(s, created, u) && id in Commit(s, t).gates
    ensures var s', u' := Commit(s, t), UnloggedAfter(u, s, t);
      && FoldGate(s'.events, id) == (if id in u'.gates then Open else s'.gates[id].status)
      && (id in u'.gates ==> s'.gates[id].status == Cancelled)
  {
    hide FoldTask, FoldGate, WithoutTicks;
    FoldsAfter(s, t, Pending, id);
    if id !in s.gates {
      FoldGateUnmentioned(s.events, id);
    }
  }

  lemma RowKeys(s: Store, created: map<Id, TaskStatus>, u: Unlogged, t: Txn)
    requires RowsLogged(s, created, u)
    ensures var s', u' := Commit(s, t), UnloggedAfter(u, s, t);
      && s'.tasks.Keys == TasksCreatedBy(created, s, t).Keys
      && u'.tasks <= s'.tasks.Keys && u'.gates <= s'.gates.Keys
  {
    hide FoldTask, FoldGate, WithoutTicks;
  }

  lemma CommitLogsRows(s: Store, created: map<Id, TaskStatus>, u: Unlogged, t: Txn)
    requires RowsLogged(s, created, u)
    ensures RowsLogged(Commit(s, t), TasksCreatedBy(created, s, t), UnloggedAfter(u, s, t))
  {
    hide FoldTask, FoldGate, Commit, TasksCreatedBy, UnloggedAfter;
    RowMentions(s, created, u, t);
    RowKeys(s, created, u, t);
    forall id <- Commit(s, t).tasks ensures
      var s', c', u' := Commit(s, t), TasksCreatedBy(created, s, t), UnloggedAfter(u, s, t);
      && id in c' && FoldTask(c'[id], s'.events, id) == (if id in u'.tasks then Pending else s'.tasks[id].status)
      && (id in u'.tasks ==> s'.tasks[id].status == Running)
    {
      CommitLogsTasks(s, created, u, t, id);
    }
    forall id <- Commit(s, t).gates ensures
      var s', u' := Commit(s, t), UnloggedAfter(u, s, t);
      && FoldGate(s'.events, id) == (if id in u'.gates then Open else s'.gates[id].status)
      && (id in u'.gates ==> s'.gates[id].status == Cancelled)
    {
      CommitLogsGates(s, created, u, t, id);
    }
  }

  lemma {:induction false} RunLogsRows(s: Store, created: map<Id, TaskStatus>, u: Unlogged, txns: seq<Txn>)
    requires RowsLogged(s, created, u)
    ensures RowsLogged(CommitAll(s, txns), TasksCreatedWith(created, s, txns), UnloggedBy(u, s, txns))
    decreases |txns|
  {
    hide Commit, RowsLogged, UnloggedAfter, TasksCreatedBy;
    if txns != [] {
      CommitLogsRows(s, created, u, txns[0]);
      RunLogsRows(Commit(s, txns[0]), TasksCreatedBy(created, s, txns[0]), UnloggedAfter(u, s, txns[0]), txns[1..]);
    }
  }

  /**
   After any run from an empty store, the log rebuilds a task's status if and only if the last write to it
   was not a claim, and a gate's if and only if it was not born closed or has been cancelled since.
   */
  lemma RebuiltIff(txns: seq<Txn>, id: Id)
    ensures var s, u := CommitAll(EMPTY_STORE, txns), UnloggedBy(Unlogged({}, {}), EMPTY_STORE, txns);
      var created := TasksCreatedWith(map[], EMPTY_STORE, txns);
      && s.tasks.Keys == created.Keys
      && (id in s.tasks ==> (FoldTask(created[id], s.events, id) == s.tasks[id].status <==> id !in u.tasks))
      && (id in s.gates ==> (FoldGate(s.events, id) == s.gates[id].status <==> id !in u.gates))
  {
    hide CommitAll, TasksCreatedWith, UnloggedBy, FoldTask, FoldGate;
    EmptyIsLogged();
    RunLogsRows(EMPTY_STORE, map[], Unlogged({}, {}), txns);
  }

  lemma EmptyIsLogged()
    ensures RowsLogged(EMPTY_STORE, map[], Unlogged({}, {}))
  {
  }

  /** A claimed task is rebuilt as pending: the claim writes no event. */
  lemma ClaimIsNotRebuilt()
    ensures var txns := [CreateSpec("s", Executing), CreateTask("t", "s", None, Pending), ClaimTask("t")];
      var s := CommitAll(EMPTY_STORE, txns);
      "t" in s.tasks && s.tasks["t"].status == Running && FoldTask(Pending, s.events, "t") == Pending
  {
    var s1 := Commit(EMPTY_STORE, CreateSpec("s", Executing));
    var s2 := Commit(s1, CreateTask("t", "s", None, Pending));
    var s3 := Commit(s2, ClaimTask("t"));
    var txns := [CreateSpec("s", Executing), CreateTask("t", "s", None, Pending), ClaimTask("t")];
    assert txns[1..] == [txns[1], txns[2]] && txns[1..][1..] == [txns[2]] && txns[1..][1..][1..] == [];
    assert CommitAll(s2, [txns[2]]) == CommitAll(s3, []) == s3;
    assert s3.events == [SpecSubmitted("s"), TaskCreated("t")];
    FoldTaskUnmentioned(Pending, s3.events, "t");
  }

  /** A gate born closed is rebuilt as open: its creation event does not say so. */
  lemma BornClosedIsNotRebuilt()
    ensures var txns := [CreateSpec("s", SpecCancelled), CreateGate("g", "s", None, false)];
      var s := CommitAll(EMPTY_STORE, txns);
      "g" in s.gates && s.gates["g"].status == Cancelled && FoldGate(s.events, "g") == Open
  {
    var s1 := Commit(EMPTY_STORE, CreateSpec("s", SpecCancelled));
    var s2 := Commit(s1, CreateGate("g", "s", None, false));
    var txns := [CreateSpec("s", SpecCancelled), CreateGate("g", "s", None, false)];
    assert txns[1..] == [txns[1]] && txns[1..][1..] == [];
    assert CommitAll(s1, [txns[1]]) == CommitAll(s2, []) == s2;
    assert s2.events == [SpecSubmitted("s"), GateCreated("g")];
    FoldGateUnmentioned(s2.events, "g");
  }

  // ----- what each transaction does, and when it does nothing

  /** A new spec row and its event, unless the id is taken. */
  lemma SpecIsCreated(s: Store, id: Id, status: SpecStatus)
    ensures Commit(s, CreateSpec(id, status))
         == if id in s.specs then s
            else s.(specs := s.specs[id := status], events := s.events + [SpecSubmitted(id)])
  {
  }

  /**
   A status write of a known spec lands, with one event, if it is forced, is a cancel, or the spec is not cancelled;
   otherwise the store is as before.
   */
  lemma StatusIsWritten(s: Store, id: Id, status: SpecStatus, force: bool)
    ensures var s' := Commit(s, SetSpecStatus(id, status, force));
      if id in s.specs && (force || status == SpecCancelled || s.specs[id] != SpecCancelled) then
        s' == s.(specs := s.specs[id := status], events := s.events + [SpecStatusChanged(id, status)])
      else s' == s
  {
  }

  /** A new task row, last in order, unless its id is taken or its spec or its parent is unknown. */
  lemma TaskIsCreated(s: Store, id: Id, spec: Id, parent: Option<Id>, status: TaskStatus)
    ensures var s' := Commit(s, CreateTask(id, spec, parent, status));
      if id !in s.tasks && spec in s.specs && (parent == None || parent.value in s.tasks) then
        s' == s.(tasks := s.tasks[id := Task(spec, parent, status)], taskOrder := s.taskOrder + [id],
                 events := s.events + [TaskCreated(id)])
      else s' == s
  {
  }

  /** A claim makes a pending task run, without an event, and leaves any other alone. */
  lemma ClaimIsTaken(s: Store, id: Id)
    ensures var s' := Commit(s, ClaimTask(id));
      if id in s.tasks && s.tasks[id].status == Pending then
        s' == s.(tasks := s.tasks[id := Task(s.tasks[id].spec, s.tasks[id].parent, Running)])
      else s' == s
  {
  }

  lemma TaskStatusIsWritten(s: Store, id: Id, status: TaskStatus)
    ensures var s' := Commit(s, SetTaskStatus(id, status));
      if id in s.tasks then
        s' == s.(tasks := s.tasks[id := Task(s.tasks[id].spec, s.tasks[id].parent, status)],
                 events := s.events + [TaskStatusChanged(id, status)])
      else s' == s
  {
  }

  /** A new gate row, last in order, open or cancelled as was decided before. */
  lemma GateIsInserted(s: Store, id: Id, spec: Id, task: Option<Id>, bornOpen: bool)
    ensures var s' := Commit(s, CreateGate(id, spec, task, bornOpen));
      if id !in s.gates && spec in s.specs && (task == None || task.value in s.tasks) then
        && s' == s.(gates := s'.gates, gateOrder := s.gateOrder + [id], events := s.events + [GateCreated(id)])
        && s'.gates == s.gates[id := Gate(spec, task, s'.gates[id].status, None)]
        && s'.gates[id].status == (if bornOpen then Open else Cancelled)
      else s' == s
  {
  }

  /** An answer decides an open gate as it says, and leaves any other as it is. */
  lemma GateIsDecided(s: Store, id: Id, decision: Decision)
    ensures var s' := Commit(s, RespondGate(id, decision));
      if id in s.gates && s.gates[id].status == Open then
        && s' == s.(gates := s'.gates, events := s.events + [GateDecided(id, decision)])
        && s'.gates == s.gates[id := Gate(s.gates[id].spec, s.gates[id].task, s'.gates[id].status, Some(decision))]
        && (decision == Approve ==> s'.gates[id].status == Approved)
        && (decision == Reject ==> s'.gates[id].status == Rejected)
      else s' == s
  {
  }

  /** A gate ends cancelled whatever it was, and keeps its decision. */
  lemma GateIsCancelled(s: Store, id: Id)
    ensures var s' := Commit(s, Txn.CancelGate(id));
      if id in s.gates then
        s' == s.(gates := s.gates[id := Gate(s.gates[id].spec, s.gates[id].task, Cancelled, s.gates[id].decision)],
                 events := s.events + [GateCancelled(id)])
      else s' == s
  {
  }

  /** The ticks older than the cutoff go, and everything else stays in its order. */
  lemma {:induction false} OldTicksGo(a: seq<Event>, b: seq<Event>, cutoff: int)
    ensures WithoutTicks(a + b, cutoff) == WithoutTicks(a, cutoff) + WithoutTicks(b, cutoff)
  {
    if a == [] {
      assert a + b == b;
    } else {
      assert (a + b)[1..] == a[1..] + b;
      OldTicksGo(a[1..], b, cutoff);
      var head, x, y := UnlessOldTick(a[0], cutoff), WithoutTicks(a[1..], cutoff), WithoutTicks(b, cutoff);
      hide WithoutTicks, UnlessOldTick;
      assert head + (x + y) == (head + x) + y;
    }
  }

  lemma OldTickIs(e: Event, cutoff: int)
    ensures WithoutTicks([e], cutoff) == if e.DaemonTick? && e.at < cutoff then [] else [e]
  {
    assert [e][1..] == [] && WithoutTicks([], cutoff) == [];
  }

  lemma PruneKeepsTheTables(s: Store, cutoff: int)
    ensures Commit(s, PruneTicks(cutoff)) == s.(events := WithoutTicks(s.events, cutoff))
  {
  }

  // ----- what each public call does

  /** Ending a spec, in whatever way, retires its open gates and no other; any other status leaves all gates alone. */
  lemma EndingRetiresGates(s: Store, id: Id, status: SpecStatus, force: bool)
    requires Listed(s)
    ensures var s' := UpdatedSpec(s, id, status, force);
      if id in s.specs && (force || status == SpecCancelled || s.specs[id] != SpecCancelled) then
        && s'.specs == s.specs[id := status] && s'.tasks == s.tasks && s'.gates.Keys == s.gates.Keys
        && forall g <- s.gates ::
             if s.gates[g].spec == id && s.gates[g].status == Open && status in {SpecDone, SpecFailed, SpecCancelled}
             then s'.gates[g] == Gate(id, s.gates[g].task, Cancelled, s.gates[g].decision)
             else s'.gates[g] == s.gates[g]
      else s' == s
  {
    hide CancelGates, OpenGates;
    var s1 := Commit(s, SetSpecStatus(id, status, force));
    CancelGatesEffect(s1, OpenGates(s1, id));
    forall g: Id ensures g in OpenGates(s1, id) <==>
                         g in s.gateOrder && g in s.gates && s.gates[g].status == Open && s.gates[g].spec == id
    {
      OpenGateListed(s1, id, g);
    }
  }

  lemma OpenGateListed(s: Store, spec: Id, g: Id)
    ensures g in OpenGates(s, spec) <==>
            g in s.gateOrder && g in s.gates && s.gates[g].status == Open && s.gates[g].spec == spec
  {
    OpenGatesFound(s, spec, s.gateOrder, g);
  }

  /** A cancel is refused for an unknown spec and for one that has ended, and then changes nothing. */
  lemma CancelIsRefusedIff(s: Store, id: Id)
    ensures CancelRefusal(s, id)
         == if id !in s.specs then Some(UnknownSpec)
            else if s.specs[id] in {SpecDone, SpecFailed, SpecCancelled} then Some(AlreadyTerminal(s.specs[id]))
            else None
    ensures CancelRefusal(s, id).Some? ==> CancelledSpec(s, id) == s
  {
  }

  /** A gate opened by a whole call is open unless its spec is cancelled. */
  lemma OpenedGateIsOpen(s: Store, id: Id, spec: Id, task: Option<Id>)
    requires id !in s.gates && spec in s.specs && (task == None || task.value in s.tasks)
    ensures var s' := Perform(s, OpenGate(id, spec, task));
      && s'.gates == s.gates[id := Gate(spec, task, s'.gates[id].status, None)]
      && s'.gates[id].status == (if s.specs[spec] == SpecCancelled then Cancelled else Open)
  {
  }
}
