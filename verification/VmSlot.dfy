/**
 The single VM slot: dispatches that each own one throwaway VM, one at a time, and sweep what earlier
 ones leaked. The protocol is a machine of interleaved steps (`Next`); `Host` is the code, whose every
 action is a step of the machine.
 */
module VmSlot {
  import opened Options

  /** A dispatch, and the VM it names: every dispatch mints a name of its own. */
  type Vm = nat

  datatype Pc = Idle | Holding | Snapped | Sweeping | Owning | Working | Tearing | Dropping | Releasing | Done

  datatype Proc = Proc(pc: Pc, snapshot: set<Vm>, todo: set<Vm>)

  /** The lock, the ownership set, the VMs that exist, and where each dispatch is. */
  datatype State = State(procs: map<Vm, Proc>, slot: Option<Vm>, active: set<Vm>, vms: set<Vm>) {
    function At(p: Vm): Pc {
      if p in procs then procs[p].pc else Idle
    }

    function Move(p: Vm, pc: Pc): State
      requires p in procs
    {
      this.(procs := procs[p := procs[p].(pc := pc)])
    }
  }

  /** What a dispatch does, with what the host answered. */
  datatype Step =
    | Begin(p: Vm)
    | Acquire(p: Vm)
    | Refuse(p: Vm)
    | Snapshot(p: Vm)
    | ListVms(p: Vm, listed: bool)
    | SweepOne(p: Vm, n: Vm, deleted: bool)
    | StartOwning(p: Vm)
    | Clone(p: Vm, created: bool)
    | Exit(p: Vm)
    | Destroy(p: Vm, deleted: bool)
    | Discard(p: Vm)
    | Release(p: Vm)

  predicate Enabled(s: State, t: Step) {
    match t
    case Begin(p) => p !in s.procs && p !in s.vms
    case Acquire(p) => p in s.procs && s.At(p) == Idle && s.slot.None?
    case Refuse(p) => p in s.procs && s.At(p) == Idle
    case Snapshot(p) => p in s.procs && s.At(p) == Holding
    case ListVms(p, _) => p in s.procs && s.At(p) == Snapped
    case SweepOne(p, n, _) => p in s.procs && s.At(p) == Sweeping && n in s.procs[p].todo
    case StartOwning(p) => p in s.procs && s.At(p) == Sweeping && s.procs[p].todo == {}
    case Clone(p, _) => p in s.procs && s.At(p) == Owning
    case Exit(p) => p in s.procs && s.At(p) in {Holding, Snapped, Sweeping, Owning, Working}
    case Destroy(p, _) => p in s.procs && s.At(p) == Tearing
    case Discard(p) => p in s.procs && s.At(p) == Dropping
    case Release(p) => p in s.procs && s.At(p) == Releasing
  }

  function Next(s: State, t: Step): State
    requires Enabled(s, t)
  {
    match t
    case Begin(p) => s.(procs := s.procs[p := Proc(Idle, {}, {})])
    case Acquire(p) => s.Move(p, Holding).(slot := Some(p))
    case Refuse(p) => s.Move(p, Done)
    case Snapshot(p) => s.(procs := s.procs[p := s.procs[p].(pc := Snapped, snapshot := s.active)])
    case ListVms(p, listed) =>
      var leaked := if listed then s.vms - s.procs[p].snapshot else {};
      s.(procs := s.procs[p := s.procs[p].(pc := Sweeping, todo := leaked)])
    case SweepOne(p, n, deleted) =>
      s.(procs := s.procs[p := s.procs[p].(todo := s.procs[p].todo - {n})],
         vms := if deleted then s.vms - {n} else s.vms)
    case StartOwning(p) => s.Move(p, Owning).(active := s.active + {p})
    case Clone(p, created) => s.Move(p, Working).(vms := if created then s.vms + {p} else s.vms)
    case Exit(p) => s.Move(p, Tearing)
    case Destroy(p, deleted) => s.Move(p, Dropping).(vms := if deleted then s.vms - {p} else s.vms)
    case Discard(p) => s.Move(p, Releasing).(active := s.active - {p})
    case Release(p) => s.Move(p, Done).(slot := None)
  }

  /** Every step of the run is enabled where it is taken. */
  predicate Runs(s: State, steps: seq<Step>)
    decreases |steps|
  {
    steps == [] || (Enabled(s, steps[0]) && Runs(Next(s, steps[0]), steps[1..]))
  }

  function After(s: State, steps: seq<Step>): State
    requires Runs(s, steps)
    decreases |steps|
  {
    if steps == [] then s else After(Next(s, steps[0]), steps[1..])
  }

  // ----- what every step keeps

  /** Between taking the slot and giving it back. */
  predicate InSlot(pc: Pc) {
    pc != Idle && pc != Done
  }

  /** Using a VM of its own, or about to tear it down. */
  predicate Live(s: State, p: Vm) {
    p in s.procs && s.procs[p].pc in {Owning, Working, Tearing, Dropping}
  }

  /** Before its clone a dispatch has no VM. */
  predicate BeforeClone(pc: Pc) {
    pc in {Idle, Holding, Snapped, Sweeping, Owning}
  }

  /** The lock is held by exactly the dispatch that is between taking and releasing it. */
  ghost predicate OneHolder(s: State) {
    && (forall p <- s.procs :: InSlot(s.procs[p].pc) <==> s.slot == Some(p))
    && (s.slot.Some? ==> s.slot.value in s.procs)
  }

  /** Only the holder owns a VM, and it does while it works. */
  ghost predicate OneOwner(s: State) {
    && (forall p <- s.active :: s.slot == Some(p) && Live(s, p))
    && (forall p <- s.procs :: s.procs[p].pc in {Owning, Working} ==> p in s.active)
  }

  /** A dispatch has no VM before its clone, so a sweep's list never has its own. */
  ghost predicate FreshVms(s: State) {
    && (forall p <- s.procs :: BeforeClone(s.procs[p].pc) ==> p !in s.vms)
    && (forall p <- s.procs :: s.procs[p].pc == Sweeping ==> p !in s.procs[p].todo)
  }

  ghost predicate Safe(s: State) {
    OneHolder(s) && OneOwner(s) && FreshVms(s)
  }

  lemma OneHolderIsKept(s: State, t: Step)
    requires OneHolder(s) && Enabled(s, t)
    ensures OneHolder(Next(s, t))
  {
  }

  lemma OneOwnerIsKept(s: State, t: Step)
    requires OneHolder(s) && OneOwner(s) && Enabled(s, t)
    ensures OneOwner(Next(s, t))
  {
  }

  lemma FreshVmsIsKept(s: State, t: Step)
    requires FreshVms(s) && Enabled(s, t)
    ensures FreshVms(Next(s, t))
  {
  }

  /** Every step keeps the protocol safe. */
  lemma SafeIsKept(s: State, t: Step)
    requires Safe(s) && Enabled(s, t)
    ensures Safe(Next(s, t))
  {
    hide OneHolder, OneOwner, FreshVms, Next, Enabled;
    OneHolderIsKept(s, t);
    OneOwnerIsKept(s, t);
    FreshVmsIsKept(s, t);
  }

  /** Over every interleaving: one holder at most, and no ownership but the holder's. */
  lemma {:induction false} SafeInEveryRun(s: State, steps: seq<Step>)
    requires Safe(s) && Runs(s, steps)
    ensures Safe(After(s, steps))
    decreases |steps|
  {
    hide Safe, Enabled, Next;
    if steps != [] {
      SafeIsKept(s, steps[0]);
      SafeInEveryRun(Next(s, steps[0]), steps[1..]);
    }
  }

  /** What a safe state says of any two dispatches. */
  lemma SlotIsExclusive(s: State, p: Vm, q: Vm)
    requires Safe(s)
    ensures p in s.procs && q in s.procs && InSlot(s.procs[p].pc) && InSlot(s.procs[q].pc) ==> p == q
    ensures p in s.active && q in s.active ==> p == q
    ensures p in s.procs && s.procs[p].pc == Done ==> p !in s.active && s.slot != Some(p)
  {
  }

  /** A sweep never deletes the VM of a live dispatch, and never its own. */
  lemma SweepSparesTheLiving(s: State, t: Step)
    requires Safe(s) && Enabled(s, t) && t.SweepOne?
    ensures t.n != t.p && !Live(s, t.n) && t.n !in s.active
  {
  }

  /** Any VM a step takes away is either a leak being swept or the dispatch's own at its teardown. */
  lemma OnlySweepAndTeardownDelete(s: State, t: Step, n: Vm)
    requires Safe(s) && Enabled(s, t) && n in s.vms && n !in Next(s, t).vms
    ensures (t.SweepOne? && t.n == n && !Live(s, n)) || (t.Destroy? && t.p == n)
  {
  }

  // ----- the slot is always given back

  function Rank(pc: Pc): nat {
    match pc
    case Idle => 9
    case Holding => 8
    case Snapped => 7
    case Sweeping => 6
    case Owning => 5
    case Working => 4
    case Tearing => 3
    case Dropping => 2
    case Releasing => 1
    case Done => 0
  }

  /** A dispatch that has not finished can always take a step. */
  lemma NeverStuck(s: State, p: Vm) returns (t: Step)
    requires p in s.procs && s.procs[p].pc != Done
    ensures Enabled(s, t) && t.p == p
  {
    var proc := s.procs[p];
    match proc.pc {
      case Idle => t := Refuse(p);
      case Holding => t := Snapshot(p);
      case Snapped => t := ListVms(p, true);
      case Sweeping =>
        if proc.todo == {} {
          t := StartOwning(p);
        } else {
          var n :| n in proc.todo;
          t := SweepOne(p, n, true);
        }
      case Owning => t := Clone(p, true);
      case Working => t := Exit(p);
      case Tearing => t := Destroy(p, true);
      case Dropping => t := Discard(p);
      case Releasing => t := Release(p);
    }
  }

  /** Nearer the end, or as near with less left to sweep. */
  predicate Nearer(later: Proc, before: Proc) {
    Rank(later.pc) < Rank(before.pc) || (later.pc == before.pc && later.todo < before.todo)
  }

  /**
   Every step a dispatch takes brings it nearer its end and no other's step moves it, so whatever way it
   leaves it reaches the end; and there it holds neither the slot nor a VM.
   */
  lemma EveryStepIsProgress(s: State, t: Step, p: Vm)
    requires Safe(s) && Enabled(s, t) && p in s.procs
    ensures t.p == p ==> Nearer(Next(s, t).procs[p], s.procs[p])
    ensures t.p != p ==> Next(s, t).procs[p] == s.procs[p]
    ensures s.procs[p].pc == Done ==> t.p != p && p !in s.active && s.slot != Some(p)
  {
  }

  /** What bounds a dispatch's own steps: stages ahead, and VMs still to sweep or to be listed for it. */
  function Left(s: State, p: Vm): nat
    requires p in s.procs
  {
    var proc := s.procs[p];
    Rank(proc.pc)
    + if proc.pc in {Idle, Holding, Snapped} then |s.vms| else if proc.pc == Sweeping then |proc.todo| else 0
  }

  function OwnSteps(steps: seq<Step>, p: Vm): nat {
    if steps == [] then 0 else (if steps[0].p == p then 1 else 0) + OwnSteps(steps[1..], p)
  }

  function Clones(steps: seq<Step>): nat {
    if steps == [] then 0 else (if steps[0].Clone? then 1 else 0) + Clones(steps[1..])
  }

  lemma StepLeavesLess(s: State, t: Step, p: Vm)
    requires Enabled(s, t) && p in s.procs
    ensures p in Next(s, t).procs
    ensures t.p == p ==> Left(Next(s, t), p) < Left(s, p)
    ensures t.p != p ==> Left(Next(s, t), p) <= Left(s, p) + if t.Clone? then 1 else 0
  {
    if t.p == p {
      OwnStepLeavesLess(s, t, p);
    } else {
      OtherStepLeaves(s, t, p);
    }
  }

  lemma OwnStepLeavesLess(s: State, t: Step, p: Vm)
    requires Enabled(s, t) && p in s.procs && t.p == p
    ensures p in Next(s, t).procs && Left(Next(s, t), p) < Left(s, p)
  {
    if t.ListVms? {
      FewerLeft(s.vms, s.procs[p].snapshot);
    }
  }

  /** Another's step moves `p` nowhere, and adds at most a VM to be listed. */
  lemma OtherStepLeaves(s: State, t: Step, p: Vm)
    requires Enabled(s, t) && p in s.procs && t.p != p
    ensures p in Next(s, t).procs && Left(Next(s, t), p) <= Left(s, p) + if t.Clone? then 1 else 0
  {
    FewerLeft(s.vms, {t.p});
    if t.SweepOne? {
      FewerLeft(s.vms, {t.n});
    }
    assert Next(s, t).procs[p] == s.procs[p];
  }

  lemma FewerLeft(vms: set<Vm>, gone: set<Vm>)
    ensures |vms - gone| <= |vms|
  {
    assert vms == (vms - gone) + (vms * gone);
  }

  /** In every run a dispatch takes no more steps than it had ahead, and one for each VM cloned meanwhile. */
  lemma {:induction false} OwnStepsAreBounded(s: State, steps: seq<Step>, p: Vm)
    requires Runs(s, steps) && p in s.procs
    ensures p in After(s, steps).procs
    ensures OwnSteps(steps, p) + Left(After(s, steps), p) <= Left(s, p) + Clones(steps)
    decreases |steps|
  {
    hide Enabled, Next, Left;
    if steps != [] {
      StepLeavesLess(s, steps[0], p);
      OwnStepsAreBounded(Next(s, steps[0]), steps[1..], p);
    }
  }

  /**
   Slot and ownership are always given back: from any safe state, in any run, a dispatch's own steps are
   bounded, and when it has none left to take it is done, with neither the slot nor a VM it owns.
   */
  lemma EveryRunReleases(s: State, steps: seq<Step>, p: Vm)
    requires Safe(s) && Runs(s, steps) && p in s.procs
    ensures OwnSteps(steps, p) <= Left(s, p) + Clones(steps)
    ensures p in After(s, steps).procs
    ensures (forall t: Step :: t.p == p ==> !Enabled(After(s, steps), t)) ==>
              var e := After(s, steps); e.procs[p].pc == Done && p !in e.active && e.slot != Some(p)
  {
    hide Enabled, Next, Left, Safe;
    OwnStepsAreBounded(s, steps, p);
    SafeInEveryRun(s, steps);
    var e := After(s, steps);
    if e.procs[p].pc != Done {
      var t := NeverStuck(e, p);
    }
    SlotIsExclusive(e, p, p);
  }

  // ----- what a sweep takes

  /** The ownership set is copied first, and then every VM not in the copy is listed, unless listing fails. */
  lemma SweepListsTheUnowned(s: State, p: Vm, listed: bool)
    requires Enabled(s, Snapshot(p)) && Enabled(Next(s, Snapshot(p)), ListVms(p, listed))
    ensures var s' := Next(Next(s, Snapshot(p)), ListVms(p, listed));
      && s'.vms == s.vms && s'.active == s.active && s'.slot == s.slot
      && forall n :: n in s'.procs[p].todo <==> listed && n in s.vms && n !in s.active
  {
  }

  // ----- when every delete succeeds

  predicate Reliable(t: Step) {
    (t.SweepOne? || t.Destroy?) ==> t.deleted
  }

  /** Every VM is that of the one dispatch at work or being torn down. */
  ghost predicate NothingLeaked(s: State) {
    forall n <- s.vms :: s.slot == Some(n) && n in s.procs && s.procs[n].pc in {Working, Tearing}
  }

  lemma ReliableLeaksNothing(s: State, t: Step)
    requires Safe(s) && NothingLeaked(s) && Enabled(s, t) && Reliable(t)
    ensures NothingLeaked(Next(s, t))
  {
  }

  /** If every delete succeeds, at most one runner VM ever exists. */
  lemma {:induction false} AtMostOneVm(s: State, steps: seq<Step>)
    requires Safe(s) && NothingLeaked(s) && Runs(s, steps)
    requires forall t <- steps :: Reliable(t)
    ensures NothingLeaked(After(s, steps))
    ensures forall n <- After(s, steps).vms, m <- After(s, steps).vms :: n == m
    decreases |steps|
  {
    hide Safe, Enabled, Next, Reliable;
    if steps != [] {
      assert steps[0] in steps;
      SafeIsKept(s, steps[0]);
      ReliableLeaksNothing(s, steps[0]);
      AtMostOneVm(Next(s, steps[0]), steps[1..]);
    }
  }

  // ----- sweeping without the slot

  const FRESH := State(map[], None, {}, {})

  /** The protocol, with sweeps run by someone who does not hold the slot. */
  datatype Intruded = Intruded(state: State, snapshot: Option<set<Vm>>, todo: set<Vm>)

  datatype WildStep = Proper(t: Step) | Look | ListAll | Take(n: Vm)

  /** Before the outsider's first look. */
  function Before(s: State): Intruded {
    Intruded(s, None, {})
  }

  predicate WildEnabled(w: Intruded, t: WildStep) {
    match t
    case Proper(t) => Enabled(w.state, t)
    case Look => true
    case ListAll => w.snapshot.Some?
    case Take(n) => n in w.todo
  }

  /** A sweep reads the ownership set, lists the VMs that were not in it, and deletes them one by one. */
  function WildNext(w: Intruded, t: WildStep): Intruded
    requires WildEnabled(w, t)
  {
    match t
    case Proper(t) => w.(state := Next(w.state, t))
    case Look => w.(snapshot := Some(w.state.active), todo := {})
    case ListAll => w.(todo := w.state.vms - w.snapshot.value)
    case Take(n) => w.(state := w.state.(vms := w.state.vms - {n}), todo := w.todo - {n})
  }

  predicate WildRuns(w: Intruded, steps: seq<WildStep>)
    decreases |steps|
  {
    steps == [] || (WildEnabled(w, steps[0]) && WildRuns(WildNext(w, steps[0]), steps[1..]))
  }

  function WildAfter(w: Intruded, steps: seq<WildStep>): Intruded
    requires WildRuns(w, steps)
    decreases |steps|
  {
    if steps == [] then w else WildAfter(WildNext(w, steps[0]), steps[1..])
  }

  /** No VM is deleted while a dispatch owns it. */
  predicate SparesTheLiving(w: Intruded, steps: seq<WildStep>)
    requires WildRuns(w, steps)
    decreases |steps|
  {
    steps == [] ||
    ((steps[0].Take? ==> steps[0].n !in w.state.active) && SparesTheLiving(WildNext(w, steps[0]), steps[1..]))
  }

  /** The VMs taken into ownership since the outsider's last look, and not given up since. */
  function TakenUp(t: WildStep, since: set<Vm>): set<Vm> {
    match t
    case Look => {}
    case Proper(StartOwning(p)) => since + {p}
    case Proper(Discard(p)) => since - {p}
    case _ => since
  }

  predicate DeletesNoneTakenUp(steps: seq<WildStep>, since: set<Vm>)
    decreases |steps|
  {
    steps == [] ||
    ((steps[0].Take? ==> steps[0].n !in since) && DeletesNoneTakenUp(steps[1..], TakenUp(steps[0], since)))
  }

  /** What was owned at the look is not listed, and what is owned now was owned then or taken up since. */
  predicate Outdated(w: Intruded, since: set<Vm>) {
    && since <= w.state.active
    && (w.snapshot.None? ==> w.todo == {})
    && (w.snapshot.Some? ==> w.todo !! w.snapshot.value && w.state.active <= w.snapshot.value + since)
  }

  lemma WildStepKeepsOutdated(w: Intruded, t: WildStep, since: set<Vm>)
    requires WildEnabled(w, t) && Outdated(w, since)
    ensures Outdated(WildNext(w, t), TakenUp(t, since))
  {
  }

  lemma {:induction false} SparesFrom(w: Intruded, steps: seq<WildStep>, since: set<Vm>)
    requires WildRuns(w, steps) && Outdated(w, since)
    ensures SparesTheLiving(w, steps) <==> DeletesNoneTakenUp(steps, since)
    decreases |steps|
  {
    hide WildNext, TakenUp;
    if steps != [] {
      WildStepKeepsOutdated(w, steps[0], since);
      SparesFrom(WildNext(w, steps[0]), steps[1..], TakenUp(steps[0], since));
    }
  }

  /**
   Without the slot a sweep spares the living exactly when it deletes no VM that was taken into ownership after
   its look and is owned still: the order of the steps alone decides.
   */
  lemma SweepSparesIff(s: State, steps: seq<WildStep>)
    requires WildRuns(Before(s), steps)
    ensures SparesTheLiving(Before(s), steps) <==> DeletesNoneTakenUp(steps, {})
  {
    SparesFrom(Before(s), steps, {});
  }

  /**
   The slot is what makes the sweep safe: the ownership set is read before the VMs are listed, so an
   outsider's sweep can take a dispatch that started in between for a leak, and deletes the VM it works in.
   */
  lemma SweepOutsideTheSlotIsUnsafe() returns (steps: seq<WildStep>)
    ensures Safe(FRESH) && WildRuns(Before(FRESH), steps)
    ensures var w := WildAfter(Before(FRESH), steps);
      Live(w.state, 1) && w.state.procs[1].pc == Working && 1 in w.state.active && 1 !in w.state.vms
  {
    var start := Before(FRESH);
    steps := [];
    steps := OneMore(start, steps, Look);
    steps := OneMore(start, steps, Proper(Begin(1)));
    steps := OneMore(start, steps, Proper(Acquire(1)));
    steps := OneMore(start, steps, Proper(Snapshot(1)));
    steps := OneMore(start, steps, Proper(ListVms(1, true)));
    steps := OneMore(start, steps, Proper(StartOwning(1)));
    steps := OneMore(start, steps, Proper(Clone(1, true)));
    steps := OneMore(start, steps, ListAll);
    steps := OneMore(start, steps, Take(1));
  }

  lemma {:induction false} OneMore(w: Intruded, steps: seq<WildStep>, t: WildStep) returns (longer: seq<WildStep>)
    requires WildRuns(w, steps) && WildEnabled(WildAfter(w, steps), t)
    ensures longer == steps + [t]
    ensures WildRuns(w, longer) && WildAfter(w, longer) == WildNext(WildAfter(w, steps), t)
    decreases |steps|
  {
    hide WildEnabled, WildNext;
    longer := steps + [t];
    if steps == [] {
      assert longer[1..] == [];
    } else {
      var _ := OneMore(WildNext(w, steps[0]), steps[1..], t);
      assert longer[1..] == steps[1..] + [t];
    }
  }

  // ----- the code

  /** How a dispatch's work ends, and what the host answers on the way: the code's nondeterminism. */
  datatype Fate = Fate(sweepRaises: bool, listed: bool, sweepDeletes: Vm -> bool, cloned: bool, created: bool,
                       destroyRaises: bool, deleted: bool)

  /**
   The runner's process-wide variables and the VMs on the host. `machine` is the protocol state the fields
   stand for; every method that changes a field takes the machine step of the same name.
   */
  class Host {
    var slot: Option<Vm>
    var active: set<Vm>
    var vms: set<Vm>
    ghost var machine: State

    ghost predicate Valid()
      reads this
    {
      Safe(machine) && machine.slot == slot && machine.active == active && machine.vms == vms
    }

    constructor (existing: set<Vm>)
      ensures Valid() && slot == None && active == {} && vms == existing && machine.procs == map[]
    {
      slot, active, vms := None, {}, existing;
      machine := State(map[], None, {}, existing);
    }

    /** A step that changes no field. */
    ghost method Advance(t: Step)
      requires Valid() && Enabled(machine, t)
      requires Next(machine, t).slot == slot && Next(machine, t).active == active && Next(machine, t).vms == vms
      modifies this`machine
      ensures Valid() && machine == Next(old(machine), t)
    {
      SafeIsKept(machine, t);
      machine := Next(machine, t);
    }

    /** A new dispatch mints the name of its VM. */
    ghost method Announce(p: Vm)
      requires Valid() && p !in machine.procs && p !in vms
      modifies this`machine
      ensures Valid() && machine == Next(old(machine), Begin(p)) && p in machine.procs && machine.At(p) == Idle
    {
      Advance(Begin(p));
    }

    /** Leaving the body of the `try`, by a return or by an exception. */
    ghost method Leave(p: Vm)
      requires Valid() && p in machine.procs && machine.At(p) in {Holding, Snapped, Sweeping, Owning, Working}
      modifies this`machine
      ensures Valid() && machine == Next(old(machine), Exit(p)) && p in machine.procs && machine.At(p) == Tearing
    {
      Advance(Exit(p));
    }

    method TryAcquire(p: Vm) returns (got: bool)
      requires Valid() && p in machine.procs && machine.At(p) == Idle
      modifies this
      ensures Valid() && got == old(slot).None?
      ensures machine == Next(old(machine), if got then Acquire(p) else Refuse(p))
      ensures p in machine.procs && machine.At(p) == if got then Holding else Done
      ensures slot == (if got then Some(p) else old(slot)) && active == old(active) && vms == old(vms)
    {
      got := slot.None?;
      ghost var t := if got then Acquire(p) else Refuse(p);
      SafeIsKept(machine, t);
      if got {
        slot := Some(p);
      }
      machine := Next(machine, t);
    }

    method Delete(p: Vm, n: Vm, works: bool) returns (deleted: bool)
      requires Valid() && Enabled(machine, SweepOne(p, n, works))
      modifies this
      ensures Valid() && deleted == works && machine == Next(old(machine), SweepOne(p, n, works))
    {
      SafeIsKept(machine, SweepOne(p, n, works));
      if works {
        vms := vms - {n};
      }
      machine := Next(machine, SweepOne(p, n, works));
      deleted := works;
    }

    /** The dispatch's VM joins the ownership set. */
    method Own(p: Vm)
      requires Valid() && p in machine.procs && machine.At(p) == Sweeping && machine.procs[p].todo == {}
      modifies this
      ensures Valid() && slot == old(slot) && active == old(active) + {p} && vms == old(vms)
      ensures machine == Next(old(machine), StartOwning(p))
      ensures p in machine.procs && machine.At(p) == Owning
    {
      SafeIsKept(machine, StartOwning(p));
      active := active + {p};
      machine := Next(machine, StartOwning(p));
    }

    /** `tart clone`, which may leave a VM behind even when it fails. */
    method CloneVm(p: Vm, created: bool)
      requires Valid() && p in machine.procs && machine.At(p) == Owning
      modifies this
      ensures Valid() && slot == old(slot) && active == old(active)
      ensures vms == (if created then old(vms) + {p} else old(vms))
      ensures machine == Next(old(machine), Clone(p, created))
      ensures p in machine.procs && machine.At(p) == Working
    {
      SafeIsKept(machine, Clone(p, created));
      if created {
        vms := vms + {p};
      }
      machine := Next(machine, Clone(p, created));
    }

    /** `_destroy`: the delete may fail, and the teardown may raise before it. */
    method DestroyVm(p: Vm, fate: Fate)
      requires Valid() && p in machine.procs && machine.At(p) == Tearing
      modifies this
      ensures Valid() && slot == old(slot) && active == old(active)
      ensures vms == (if fate.destroyRaises || !fate.deleted then old(vms) else old(vms) - {p})
      ensures machine == Next(old(machine), Destroy(p, !fate.destroyRaises && fate.deleted))
      ensures p in machine.procs && machine.At(p) == Dropping
    {
      var deleted := !fate.destroyRaises && fate.deleted;
      SafeIsKept(machine, Destroy(p, deleted));
      if deleted {
        vms := vms - {p};
      }
      machine := Next(machine, Destroy(p, deleted));
    }

    method DropOwnership(p: Vm)
      requires Valid() && p in machine.procs && machine.At(p) == Dropping
      modifies this
      ensures Valid() && slot == old(slot) && active == old(active) - {p} && vms == old(vms)
      ensures machine == Next(old(machine), Discard(p))
      ensures p in machine.procs && machine.At(p) == Releasing
    {
      SafeIsKept(machine, Discard(p));
      active := active - {p};
      machine := Next(machine, Discard(p));
    }

    method ReleaseSlot(p: Vm)
      requires Valid() && p in machine.procs && machine.At(p) == Releasing
      modifies this
      ensures Valid() && slot == None && active == old(active) && vms == old(vms)
      ensures machine == Next(old(machine), Step.Release(p))
      ensures p in machine.procs && machine.At(p) == Done
    {
      SafeIsKept(machine, Step.Release(p));
      slot := None;
      machine := Next(machine, Step.Release(p));
    }

    /** The VMs a sweep with nothing in flight takes away. */
    function Reclaimable(existing: set<Vm>, owned: set<Vm>, fate: Fate): set<Vm> {
      if fate.listed then set n <- existing | n !in owned && fate.sweepDeletes(n) else {}
    }

    /** The sweep at the start of a dispatch: what it lists and nobody owns goes, as far as the deletes work. */
    method SweepLeakedVms(p: Vm, fate: Fate) returns (reclaimed: set<Vm>)
      requires Valid() && p in machine.procs && machine.At(p) == Holding
      modifies this
      ensures Valid() && slot == old(slot) && active == old(active)
      ensures p in machine.procs && machine.At(p) == Sweeping && machine.procs[p].todo == {}
      ensures reclaimed == Reclaimable(old(vms), old(active), fate) && vms == old(vms) - reclaimed
      ensures forall n :: n in reclaimed <==>
                n in old(vms) && n !in old(active) && fate.listed && fate.sweepDeletes(n)
    {
      hide Safe;
      Advance(Snapshot(p));
      var snapshot := active;
      Advance(ListVms(p, fate.listed));
      var leaked := if fate.listed then vms - snapshot else {};
      reclaimed := {};
      ghost var all := leaked;
      while leaked != {}
        invariant Valid() && slot == old(slot) && active == old(active)
        invariant p in machine.procs && machine.At(p) == Sweeping && machine.procs[p].todo == leaked
        invariant leaked <= all && vms == old(vms) - reclaimed
        invariant reclaimed == set n <- all | n !in leaked && fate.sweepDeletes(n)
        decreases leaked
      {
        var n :| n in leaked;
        var deleted := Delete(p, n, fate.sweepDeletes(n));
        leaked := leaked - {n};
        if deleted {
          reclaimed := reclaimed + {n};
        }
      }
      assert reclaimed == Reclaimable(old(vms), old(active), fate);
    }

    /** The VMs there are when the body of the `try` is left. */
    function VmsAfterBody(existing: set<Vm>, owned: set<Vm>, p: Vm, fate: Fate): set<Vm> {
      if fate.sweepRaises then existing
      else existing - Reclaimable(existing, owned, fate) + if fate.created then {p} else {}
    }

    /**
     The VMs there are after the dispatch: its own if it was created and not deleted, and of the others those
     that a sweep does not list, or finds owned, or fails to delete.
     */
    predicate Outlives(n: Vm, p: Vm, existing: set<Vm>, owned: set<Vm>, fate: Fate) {
      if n == p then !fate.sweepRaises && fate.created && (fate.destroyRaises || !fate.deleted)
      else n in existing && (fate.sweepRaises || !fate.listed || n in owned || !fate.sweepDeletes(n))
    }

    lemma WhatOutlives(p: Vm, existing: set<Vm>, owned: set<Vm>, fate: Fate)
      requires p !in existing
      ensures var after := VmsAfterBody(existing, owned, p, fate);
        forall n :: n in (if fate.destroyRaises || !fate.deleted then after else after - {p})
               <==> Outlives(n, p, existing, owned, fate)
    {
    }

    /** The body of the `try`: sweep, take ownership, clone and work. */
    method Body(p: Vm, fate: Fate) returns (ran: bool)
      requires Valid() && p in machine.procs && machine.At(p) == Holding
      modifies this
      ensures Valid() && slot == old(slot) && p in machine.procs && machine.At(p) == Tearing
      ensures active == old(active) + if fate.sweepRaises then {} else {p}
      ensures vms == VmsAfterBody(old(vms), old(active), p, fate)
    {
      hide Safe, Next, Enabled, Valid, Reclaimable;
      ran := false;
      if !fate.sweepRaises {
        var _ := SweepLeakedVms(p, fate);
        Own(p);
        CloneVm(p, fate.created);
        ran := fate.cloned;
      }
      Leave(p);
    }

    /** The two nested `finally` blocks: teardown, then ownership, then the slot. */
    method CleanUp(p: Vm, fate: Fate)
      requires Valid() && p in machine.procs && machine.At(p) == Tearing
      modifies this
      ensures Valid() && slot == None && active == old(active) - {p}
      ensures vms == (if fate.destroyRaises || !fate.deleted then old(vms) else old(vms) - {p})
      ensures p in machine.procs && machine.At(p) == Done
    {
      hide Safe, Next, Enabled, Valid;
      DestroyVm(p, fate);
      DropOwnership(p);
      ReleaseSlot(p);
    }

    /**
     One dispatch from its first attempt at the slot to its return, whatever happens in between. The slot
     and the ownership set end as they were, and the VM outlives the dispatch only if it was created and
     its delete did not go through.
     */
    method RunTestsInVm(p: Vm, fate: Fate) returns (ran: bool)
      requires Valid() && p !in machine.procs && p !in vms
      modifies this
      ensures Valid() && slot == old(slot) && active == old(active)
      ensures p in machine.procs && machine.At(p) == Done
      ensures ran ==> old(slot).None?
      ensures old(slot).Some? ==> vms == old(vms)
      ensures old(slot).None? ==> forall n :: n in vms <==> Outlives(n, p, old(vms), old(active), fate)
    {
      NotYetOwned(machine, p);
      WhatOutlives(p, vms, active, fate);
      hide Safe, Next, Enabled, VmsAfterBody, Valid, Outlives;
      Announce(p);
      var got := TryAcquire(p);
      if !got {
        return false;
      }
      ran := Body(p, fate);
      CleanUp(p, fate);
      assert active == old(active);
    }
  }

  lemma NotYetOwned(s: State, p: Vm)
    requires Safe(s) && p !in s.procs
    ensures p !in s.active
  {
  }
}
