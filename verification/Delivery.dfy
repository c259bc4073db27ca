/**
 Whether a finished spec still owes a delivery, read off its event log. The newest-first scan is a forward
 automaton over the whole log. Over any interleaving of requests, deliveries and restarts a debt is tried at
 most `cap` times and then settled; it is asked for once unless a request is written on a stale read.
 */
module Delivery {
  datatype Role = Requested | Attempt | Outcome | OtherRole

  /** One event: its spec, whether it is an AGENT_RAN record, and the role in its payload. */
  datatype Row = Row(spec: nat, agentRan: bool, role: Role)

  datatype Debt = Debt(owed: bool, attempts: nat)

  const SETTLED := Debt(false, 0)

  // ----- the automaton

  function React(debt: Debt, role: Role): Debt {
    match role
    case Requested => debt.(owed := true)
    case Attempt => Debt(true, debt.attempts + 1)
    case Outcome => SETTLED
    case OtherRole => debt
  }

  predicate Concerns(row: Row, spec: nat) {
    row.spec == spec && row.agentRan
  }

  /** The debt after a whole log, read oldest first. */
  function DebtOf(log: seq<Row>, spec: nat): Debt {
    if log == [] then SETTLED
    else
      var before := DebtOf(log[..|log| - 1], spec);
      var row := log[|log| - 1];
      if Concerns(row, spec) then React(before, row.role) else before
  }

  lemma DebtAfter(log: seq<Row>, row: Row, spec: nat)
    ensures DebtOf(log + [row], spec)
         == if Concerns(row, spec) then React(DebtOf(log, spec), row.role) else DebtOf(log, spec)
  {
    assert (log + [row])[..|log|] == log;
  }

  predicate IsRole(row: Row, spec: nat, role: Role) {
    Concerns(row, spec) && row.role == role
  }

  /** No outcome of `spec` at position `i` or later. */
  predicate OpenSince(log: seq<Row>, spec: nat, i: nat) {
    forall j :: i <= j < |log| ==> !IsRole(log[j], spec, Outcome)
  }

  /** The records of one role that are newer than the last outcome. */
  function SinceOutcome(log: seq<Row>, spec: nat, role: Role): set<nat> {
    set i: nat | i < |log| && IsRole(log[i], spec, role) && OpenSince(log, spec, i)
  }

  lemma SinceOutcomeAfter(log: seq<Row>, row: Row, spec: nat, role: Role)
    requires role != Outcome
    ensures SinceOutcome(log + [row], spec, role)
         == if IsRole(row, spec, Outcome) then {}
            else SinceOutcome(log, spec, role) + if IsRole(row, spec, role) then {|log|} else {}
  {
    var longer := log + [row];
    assert longer[|log|] == row;
    forall i: nat | i < |log| && !IsRole(row, spec, Outcome)
      ensures OpenSince(longer, spec, i) == OpenSince(log, spec, i) {
      assert OpenSince(longer, spec, i) ==> forall j :: i <= j < |log| ==> longer[j] == log[j];
    }
  }

  /**
   What the automaton computes: delivery is owed exactly while a request or an attempt is newer than the
   last outcome, and the attempts counted are those newer than it.
   */
  lemma {:induction false} DebtMeans(log: seq<Row>, spec: nat)
    ensures var debt := DebtOf(log, spec);
      && debt.attempts == |SinceOutcome(log, spec, Attempt)|
      && (debt.owed <==> SinceOutcome(log, spec, Requested) + SinceOutcome(log, spec, Attempt) != {})
  {
    if log == [] {
      assert SinceOutcome(log, spec, Attempt) == {} == SinceOutcome(log, spec, Requested);
    } else {
      var before, row := log[..|log| - 1], log[|log| - 1];
      assert log == before + [row];
      DebtMeans(before, spec);
      SinceOutcomeAfter(before, row, spec, Attempt);
      SinceOutcomeAfter(before, row, spec, Requested);
      assert |before| !in SinceOutcome(before, spec, Attempt);
    }
  }

  // ----- the newest-first scan

  /** The roles of the rows of one spec, newest first. */
  function Newest(log: seq<Row>, spec: nat): seq<Role> {
    if log == [] then []
    else
      var row := log[|log| - 1];
      (if Concerns(row, spec) then [row.role] else []) + Newest(log[..|log| - 1], spec)
  }

  function Replayed(newest: seq<Role>): Debt {
    if newest == [] then SETTLED else React(Replayed(newest[1..]), newest[0])
  }

  lemma {:induction false} ReplayIsDebt(log: seq<Row>, spec: nat)
    ensures Replayed(Newest(log, spec)) == DebtOf(log, spec)
  {
    if log != [] {
      ReplayIsDebt(log[..|log| - 1], spec);
      var rest := Newest(log[..|log| - 1], spec);
      if Concerns(log[|log| - 1], spec) {
        assert Newest(log, spec)[1..] == rest;
      } else {
        assert Newest(log, spec) == rest;
      }
    }
  }

  /** The scan stops at the newest outcome; nothing older can change what it found. */
  method Scan(newest: seq<Role>) returns (debt: Debt)
    ensures debt == Replayed(newest)
  {
    var owed, attempts := false, 0;
    for i := 0 to |newest|
      invariant Replayed(newest).owed == (owed || Replayed(newest[i..]).owed)
      invariant Replayed(newest).attempts == attempts + Replayed(newest[i..]).attempts
    {
      var role := newest[i];
      assert newest[i..][1..] == newest[i + 1..];
      if role == Outcome {
        return Debt(owed, attempts);
      }
      if role == Attempt {
        owed, attempts := true, attempts + 1;
      } else if role == Requested {
        owed := true;
      }
    }
    debt := Debt(owed, attempts);
  }

  // ----- what writes the log

  /** The write of a request whose read said `owed`. */
  function Asked(log: seq<Row>, spec: nat, owed: bool): seq<Row> {
    if owed then log else log + [Row(spec, true, Requested)]
  }

  /** The start of a delivery: an attempt, or at the cap the outcome that gives up. */
  function Started(log: seq<Row>, spec: nat, cap: nat): seq<Row> {
    log + [Row(spec, true, if DebtOf(log, spec).attempts >= cap then Outcome else Attempt)]
  }

  function Settled(log: seq<Row>, spec: nat): seq<Row> {
    log + [Row(spec, true, Outcome)]
  }

  class EventLog {
    var rows: seq<Row>

    constructor ()
      ensures rows == []
    {
      rows := [];
    }

    method DeliveryDebt(spec: nat) returns (debt: Debt)
      ensures debt == DebtOf(rows, spec)
    {
      debt := Scan(Newest(rows, spec));
      ReplayIsDebt(rows, spec);
    }

    /** The second half of a request: the write, on what was read before. */
    method RecordRequest(spec: nat, owed: bool) returns (queued: bool)
      modifies this
      ensures queued == !owed && rows == Asked(old(rows), spec, owed)
    {
      if owed {
        return false;
      }
      rows := rows + [Row(spec, true, Requested)];
      return true;
    }

    /** The whole request, when nothing commits between its read and its write: false, and no record, when owed. */
    method RequestDelivery(spec: nat) returns (queued: bool)
      modifies this
      ensures queued == !DebtOf(old(rows), spec).owed
      ensures !queued ==> rows == old(rows)
      ensures queued ==> rows == old(rows) + [Row(spec, true, Requested)]
      ensures DebtOf(rows, spec) == DebtOf(old(rows), spec).(owed := true)
    {
      var debt := DeliveryDebt(spec);
      DebtAfter(rows, Row(spec, true, Requested), spec);
      queued := RecordRequest(spec, debt.owed);
    }

    /** False at the cap, where the interruption itself becomes the outcome. */
    method StartDelivery(spec: nat, cap: nat) returns (started: bool)
      modifies this
      ensures started == (DebtOf(old(rows), spec).attempts < cap) && rows == Started(old(rows), spec, cap)
    {
      var debt := DeliveryDebt(spec);
      started := debt.attempts < cap;
      rows := rows + [Row(spec, true, if started then Attempt else Outcome)];
    }

    method RecordOutcome(spec: nat)
      modifies this
      ensures rows == Settled(old(rows), spec) && DebtOf(rows, spec) == SETTLED
    {
      DebtAfter(rows, Row(spec, true, Outcome), spec);
      rows := rows + [Row(spec, true, Outcome)];
    }

    /** One delivery; `finishes` is false when the process dies before any outcome is recorded. */
    method AttemptDelivery(spec: nat, cap: nat, finishes: bool)
      modifies this
      ensures DebtOf(old(rows), spec).attempts >= cap ==> rows == Settled(old(rows), spec)
      ensures DebtOf(old(rows), spec).attempts < cap ==>
        var started := Started(old(rows), spec, cap);
        rows == if finishes then Settled(started, spec) else started
    {
      var started := StartDelivery(spec, cap);
      if started && finishes {
        RecordOutcome(spec);
      }
    }

    /** What collects a debt left by a restart or asked for by the operator. */
    method RunOwedDelivery(spec: nat, done: bool, cap: nat, finishes: bool)
      modifies this
      ensures !done || !DebtOf(old(rows), spec).owed ==> rows == old(rows)
      ensures done && DebtOf(old(rows), spec).owed && !finishes ==> rows == Started(old(rows), spec, cap)
      ensures done && DebtOf(old(rows), spec).owed && finishes ==> DebtOf(rows, spec) == SETTLED
    {
      if !done {
        return;
      }
      var debt := DeliveryDebt(spec);
      if debt.owed {
        DebtAfter(rows, Row(spec, true, Outcome), spec);
        DebtAfter(Started(rows, spec, cap), Row(spec, true, Outcome), spec);
        AttemptDelivery(spec, cap, finishes);
      }
    }
  }

  // ----- interleavings

  /** What a caller read of a spec's debt before writing its request. */
  datatype Reading = Reading(spec: nat, owed: bool)

  /** The log, the requests between their read and their write, and the deliveries under way. */
  datatype World = World(log: seq<Row>, pending: map<nat, Reading>, running: set<nat>)

  const START := World([], map[], {})

  /**
   Requests come from any process, in two steps. Deliveries of one spec are serialised by the daemon's
   scheduler; a release starts one whether or not its request was recorded, an owed one is started only for a
   DONE spec. `Die` is the daemon's process ending with deliveries under way.
   */
  datatype Op =
    | ReadDebt(c: nat, spec: nat)
    | WriteRequest(c: nat)
    | Start(spec: nat)
    | StartOwed(spec: nat, done: bool)
    | Finish(spec: nat)
    | Die
    | Unrelated(row: Row)

  predicate Enabled(w: World, op: Op) {
    match op
    case ReadDebt(c, _) => c !in w.pending
    case WriteRequest(c) => c in w.pending
    case Start(spec) => spec !in w.running
    case StartOwed(spec, _) => spec !in w.running
    case Finish(spec) => spec in w.running
    case Die => true
    case Unrelated(row) => !row.agentRan || row.role == OtherRole
  }

  function Begin(w: World, spec: nat, cap: nat): World {
    w.(log := Started(w.log, spec, cap),
       running := if DebtOf(w.log, spec).attempts >= cap then w.running else w.running + {spec})
  }

  function Do(w: World, op: Op, cap: nat): World
    requires Enabled(w, op)
  {
    match op
    case ReadDebt(c, spec) => w.(pending := w.pending[c := Reading(spec, DebtOf(w.log, spec).owed)])
    case WriteRequest(c) => w.(log := Asked(w.log, w.pending[c].spec, w.pending[c].owed), pending := w.pending - {c})
    case Start(spec) => Begin(w, spec, cap)
    case StartOwed(spec, done) => if done && DebtOf(w.log, spec).owed then Begin(w, spec, cap) else w
    case Finish(spec) => w.(log := Settled(w.log, spec), running := w.running - {spec})
    case Die => w.(running := {})
    case Unrelated(row) => w.(log := w.log + [row])
  }

  predicate Runs(w: World, ops: seq<Op>, cap: nat)
    decreases |ops|
  {
    ops == [] || (Enabled(w, ops[0]) && Runs(Do(w, ops[0], cap), ops[1..], cap))
  }

  function After(w: World, ops: seq<Op>, cap: nat): World
    requires Runs(w, ops, cap)
    decreases |ops|
  {
    if ops == [] then w else After(Do(w, ops[0], cap), ops[1..], cap)
  }

  /** The row a step appends, if any. */
  function Appended(w: World, op: Op, cap: nat): seq<Row>
    requires Enabled(w, op)
  {
    match op
    case ReadDebt(_, _) => []
    case WriteRequest(c) => if w.pending[c].owed then [] else [Row(w.pending[c].spec, true, Requested)]
    case Start(spec) => [Row(spec, true, if DebtOf(w.log, spec).attempts >= cap then Outcome else Attempt)]
    case StartOwed(spec, done) =>
      if done && DebtOf(w.log, spec).owed
      then [Row(spec, true, if DebtOf(w.log, spec).attempts >= cap then Outcome else Attempt)] else []
    case Finish(spec) => [Row(spec, true, Outcome)]
    case Die => []
    case Unrelated(row) => [row]
  }

  lemma DoAppends(w: World, op: Op, cap: nat)
    requires Enabled(w, op)
    ensures Do(w, op, cap).log == w.log + Appended(w, op, cap) && |Appended(w, op, cap)| <= 1
  {
  }

  // ----- every debt is tried at most `cap` times

  /** An attempt is recorded only for a debt below the cap. */
  lemma AppendedAttempt(w: World, op: Op, cap: nat, spec: nat)
    requires Enabled(w, op) && Appended(w, op, cap) != [] && IsRole(Appended(w, op, cap)[0], spec, Attempt)
    ensures DebtOf(w.log, spec).attempts < cap
  {
    hide DebtOf;
  }

  lemma StepKeepsAttempts(w: World, op: Op, cap: nat, spec: nat)
    requires Enabled(w, op) && DebtOf(w.log, spec).attempts <= cap
    ensures DebtOf(Do(w, op, cap).log, spec).attempts <= cap
  {
    hide Do, DebtOf, Appended;
    DoAppends(w, op, cap);
    var rows := Appended(w, op, cap);
    if rows == [] {
      assert w.log + [] == w.log;
    } else {
      assert rows == [rows[0]];
      if IsRole(rows[0], spec, Attempt) {
        AppendedAttempt(w, op, cap, spec);
      }
      DebtAfter(w.log, rows[0], spec);
    }
  }

  /** However requests, deliveries and restarts interleave, no debt is tried more than `cap` times. */
  lemma {:induction false} AttemptsAreBounded(w: World, ops: seq<Op>, cap: nat, spec: nat)
    requires Runs(w, ops, cap) && DebtOf(w.log, spec).attempts <= cap
    ensures DebtOf(After(w, ops, cap).log, spec).attempts <= cap
    decreases |ops|
  {
    hide Do, Enabled, DebtOf;
    if ops != [] {
      StepKeepsAttempts(w, ops[0], cap, spec);
      AttemptsAreBounded(Do(w, ops[0], cap), ops[1..], cap, spec);
    }
  }

  // ----- when a debt is asked for once

  /** A request that nothing has answered yet. */
  predicate Outstanding(log: seq<Row>, spec: nat) {
    SinceOutcome(log, spec, Requested) != {}
  }

  /** Every debt has at most one request. */
  ghost predicate OneRequestEach(log: seq<Row>) {
    forall spec: nat :: |SinceOutcome(log, spec, Requested)| <= 1
  }

  /** A request is written on a read that said `not owed`, while another is outstanding. */
  predicate Doubles(w: World, op: Op) {
    op.WriteRequest? && op.c in w.pending && !w.pending[op.c].owed && Outstanding(w.log, w.pending[op.c].spec)
  }

  /** Such a read has gone stale: what it read has become untrue. */
  lemma DoublingReadIsStale(w: World, op: Op)
    requires Doubles(w, op)
    ensures w.pending[op.c].owed != DebtOf(w.log, w.pending[op.c].spec).owed
  {
    DebtMeans(w.log, w.pending[op.c].spec);
  }

  lemma RequestsAfter(log: seq<Row>, row: Row, spec: nat)
    ensures |SinceOutcome(log + [row], spec, Requested)|
         == if IsRole(row, spec, Outcome) then 0
            else |SinceOutcome(log, spec, Requested)| + if IsRole(row, spec, Requested) then 1 else 0
  {
    SinceOutcomeAfter(log, row, spec, Requested);
    assert |log| !in SinceOutcome(log, spec, Requested);
  }

  /** One step gives some debt a second request exactly when it doubles one. */
  lemma StepKeepsOneRequestIff(w: World, op: Op, cap: nat)
    requires Enabled(w, op) && OneRequestEach(w.log)
    ensures OneRequestEach(Do(w, op, cap).log) <==> !Doubles(w, op)
  {
    hide Do, DebtOf, SinceOutcome;
    DoAppends(w, op, cap);
    var rows := Appended(w, op, cap);
    if rows == [] {
      assert w.log + [] == w.log;
    } else {
      assert rows == [rows[0]];
      forall spec: nat ensures |SinceOutcome(w.log + rows, spec, Requested)|
        == if IsRole(rows[0], spec, Outcome) then 0
           else |SinceOutcome(w.log, spec, Requested)| + if IsRole(rows[0], spec, Requested) then 1 else 0
      {
        RequestsAfter(w.log, rows[0], spec);
      }
      if Doubles(w, op) {
        var spec := w.pending[op.c].spec;
        assert |SinceOutcome(w.log + rows, spec, Requested)| == 2;
      }
    }
  }

  ghost predicate AlwaysOneRequest(w: World, ops: seq<Op>, cap: nat)
    requires Runs(w, ops, cap)
    decreases |ops|
  {
    OneRequestEach(w.log) && (ops != [] ==> AlwaysOneRequest(Do(w, ops[0], cap), ops[1..], cap))
  }

  predicate NoneDoubles(w: World, ops: seq<Op>, cap: nat)
    requires Runs(w, ops, cap)
    decreases |ops|
  {
    ops == [] || (!Doubles(w, ops[0]) && NoneDoubles(Do(w, ops[0], cap), ops[1..], cap))
  }

  /**
   Throughout a run every debt is asked for at most once if and only if no request is written, on a read that
   has gone stale, while another is outstanding.
   */
  lemma {:induction false} OneRequestIff(w: World, ops: seq<Op>, cap: nat)
    requires Runs(w, ops, cap) && OneRequestEach(w.log)
    ensures AlwaysOneRequest(w, ops, cap) <==> NoneDoubles(w, ops, cap)
    decreases |ops|
  {
    hide Do, Enabled, Doubles, OneRequestEach;
    if ops != [] {
      StepKeepsOneRequestIff(w, ops[0], cap);
      if OneRequestEach(Do(w, ops[0], cap).log) {
        OneRequestIff(Do(w, ops[0], cap), ops[1..], cap);
      }
    }
  }

  lemma EmptyLogHasNoRequest()
    ensures OneRequestEach(START.log)
  {
    forall spec: nat ensures |SinceOutcome([], spec, Requested)| <= 1 {
      assert SinceOutcome([], spec, Requested) == {};
    }
  }

  /** A run from the empty log, cut anywhere, holds at most one request a debt exactly when none has doubled. */
  lemma OneRequestFromStartIff(ops: seq<Op>, cap: nat)
    requires Runs(START, ops, cap)
    ensures AlwaysOneRequest(START, ops, cap) <==> NoneDoubles(START, ops, cap)
  {
    hide Do, Enabled, Doubles, OneRequestEach;
    EmptyLogHasNoRequest();
    OneRequestIff(START, ops, cap);
  }

  lemma OneStep(w: World, ops: seq<Op>, cap: nat)
    requires ops != [] && Enabled(w, ops[0]) && Runs(Do(w, ops[0], cap), ops[1..], cap)
    ensures Runs(w, ops, cap) && After(w, ops, cap) == After(Do(w, ops[0], cap), ops[1..], cap)
  {
  }

  /** Two overlapping requests for one debt: both read `not owed`, both write. */
  lemma OverlappingRequestsDouble(spec: nat, cap: nat)
    ensures var ops := [ReadDebt(0, spec), ReadDebt(1, spec), WriteRequest(0), WriteRequest(1)];
      Runs(START, ops, cap) && |SinceOutcome(After(START, ops, cap).log, spec, Requested)| == 2
  {
    var ops := [ReadDebt(0, spec), ReadDebt(1, spec), WriteRequest(0), WriteRequest(1)];
    var row := Row(spec, true, Requested);
    var w1 := Do(START, ops[0], cap);
    var w2 := Do(w1, ops[1], cap);
    var w3 := Do(w2, ops[2], cap);
    var w4 := Do(w3, ops[3], cap);
    assert !w2.pending[0].owed && !w3.pending[1].owed;
    assert Enabled(START, ops[0]) && Enabled(w1, ops[1]) && Enabled(w2, ops[2]) && Enabled(w3, ops[3]);
    assert w4.log == [row] + [row] && w3.log == [] + [row];
    hide Do, Enabled;
    assert ops[3..] == [ops[3]] && ops[2..] == [ops[2]] + ops[3..] && ops[1..] == [ops[1]] + ops[2..];
    OneStep(w3, ops[3..], cap);
    OneStep(w2, ops[2..], cap);
    OneStep(w1, ops[1..], cap);
    OneStep(START, ops, cap);
    RequestsAfter([], row, spec);
    RequestsAfter([row], row, spec);
    assert [] + [row] == [row] && SinceOutcome([], spec, Requested) == {};
  }

  // ----- every debt is settled

  predicate IsStart(op: Op, spec: nat) {
    (op.StartOwed? && op.done && op.spec == spec) || (op.Start? && op.spec == spec)
  }

  /** How often a run starts delivery of a spec, for a debt or at its release. */
  function Starts(ops: seq<Op>, spec: nat): nat
    decreases |ops|
  {
    if ops == [] then 0
    else
      (if IsStart(ops[0], spec) then 1 else 0) + Starts(ops[1..], spec)
  }

  function Outcomes(log: seq<Row>, spec: nat): nat {
    if log == [] then 0
    else Outcomes(log[..|log| - 1], spec) + if IsRole(log[|log| - 1], spec, Outcome) then 1 else 0
  }

  lemma OutcomesAfter(log: seq<Row>, row: Row, spec: nat)
    ensures Outcomes(log + [row], spec) == Outcomes(log, spec) + if IsRole(row, spec, Outcome) then 1 else 0
  {
    assert (log + [row])[..|log|] == log;
  }

  /** While a debt is owed, a step records an outcome, or counts its start against the cap and leaves it owed. */
  lemma StepSettlesOrCounts(w: World, op: Op, cap: nat, spec: nat)
    requires Enabled(w, op) && DebtOf(w.log, spec).owed
    ensures var before, after := DebtOf(w.log, spec), DebtOf(Do(w, op, cap).log, spec);
      || Outcomes(Do(w, op, cap).log, spec) == Outcomes(w.log, spec) + 1
      || (&& Outcomes(Do(w, op, cap).log, spec) == Outcomes(w.log, spec)
          && after.owed && after.attempts == before.attempts + Starts([op], spec)
          && (Starts([op], spec) == 1 ==> after.attempts <= cap))
  {
    hide Do, DebtOf, Outcomes;
    DoAppends(w, op, cap);
    var rows := Appended(w, op, cap);
    assert [op][1..] == [];
    if rows == [] {
      assert w.log + [] == w.log;
    } else {
      assert rows == [rows[0]];
      DebtAfter(w.log, rows[0], spec);
      OutcomesAfter(w.log, rows[0], spec);
    }
  }

  /** While no outcome is recorded the debt stays owed, and every start is counted against the cap. */
  lemma {:induction false} UnsettledStartsAreCounted(w: World, ops: seq<Op>, cap: nat, spec: nat)
    requires Runs(w, ops, cap) && DebtOf(w.log, spec).owed && DebtOf(w.log, spec).attempts <= cap
    ensures var after := After(w, ops, cap).log;
      || Outcomes(after, spec) > Outcomes(w.log, spec)
      || (DebtOf(after, spec).owed
          && DebtOf(after, spec).attempts == DebtOf(w.log, spec).attempts + Starts(ops, spec) <= cap)
    decreases |ops|
  {
    hide Do, Enabled, DebtOf, Outcomes;
    if ops != [] {
      var next := Do(w, ops[0], cap);
      StepSettlesOrCounts(w, ops[0], cap, spec);
      assert [ops[0]][1..] == [];
      if Outcomes(next.log, spec) == Outcomes(w.log, spec) {
        StepKeepsAttempts(w, ops[0], cap, spec);
        UnsettledStartsAreCounted(next, ops[1..], cap, spec);
      } else {
        OutcomesOnlyGrow(next, ops[1..], cap, spec);
      }
    }
  }

  lemma {:induction false} OutcomesOnlyGrow(w: World, ops: seq<Op>, cap: nat, spec: nat)
    requires Runs(w, ops, cap)
    ensures Outcomes(After(w, ops, cap).log, spec) >= Outcomes(w.log, spec)
    decreases |ops|
  {
    hide Do, Enabled, DebtOf, Outcomes;
    if ops != [] {
      DoAppends(w, ops[0], cap);
      var rows := Appended(w, ops[0], cap);
      if rows == [] {
        assert w.log + [] == w.log;
      } else {
        assert rows == [rows[0]];
        OutcomesAfter(w.log, rows[0], spec);
      }
      OutcomesOnlyGrow(Do(w, ops[0], cap), ops[1..], cap, spec);
    }
  }

  /** Even if every attempt is cut off, an owed delivery reaches an outcome after more than `cap` starts. */
  lemma OwedIsSettled(w: World, ops: seq<Op>, cap: nat, spec: nat)
    requires Runs(w, ops, cap) && DebtOf(w.log, spec).owed && DebtOf(w.log, spec).attempts <= cap
    requires Starts(ops, spec) > cap
    ensures Outcomes(After(w, ops, cap).log, spec) > Outcomes(w.log, spec)
  {
    UnsettledStartsAreCounted(w, ops, cap, spec);
  }

  // ----- the steps of one caller, with nothing between them

  /** A request with nothing between its read and its write is the whole call: one record, unless a debt is owed. */
  lemma RequestAlone(w: World, c: nat, spec: nat, cap: nat)
    requires c !in w.pending
    ensures var ops := [ReadDebt(c, spec), WriteRequest(c)];
      && Runs(w, ops, cap)
      && After(w, ops, cap)
           == w.(log := if DebtOf(w.log, spec).owed then w.log else w.log + [Row(spec, true, Requested)])
  {
    var r, o := ReadDebt(c, spec), WriteRequest(c);
    var w1 := Do(w, r, cap);
    assert w1.pending - {c} == w.pending;
    assert Enabled(w, r) && Enabled(w1, o);
    OneStep(w1, [o], cap);
    OneStep(w, [r, o], cap);
  }

  /** A delivery is under way from its start, below the cap, to its outcome or the death of the process. */
  lemma DeliveryAlone(w: World, spec: nat, cap: nat)
    requires spec !in w.running
    ensures var w1 := Do(w, Start(spec), cap);
      if DebtOf(w.log, spec).attempts < cap then
        && w1 == w.(log := w.log + [Row(spec, true, Attempt)], running := w.running + {spec})
        && Enabled(w1, Finish(spec))
        && Do(w1, Finish(spec), cap) == w.(log := w1.log + [Row(spec, true, Outcome)])
      else w1 == w.(log := w.log + [Row(spec, true, Outcome)])
    ensures Do(w, StartOwed(spec, true), cap) == if DebtOf(w.log, spec).owed then Do(w, Start(spec), cap) else w
    ensures Do(w, StartOwed(spec, false), cap) == w
    ensures Do(w, Die, cap) == w.(running := {})
  {
    assert w.running + {spec} - {spec} == w.running;
  }
}
