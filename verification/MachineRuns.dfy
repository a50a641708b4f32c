/** Runs of the machine: any events, in any order, on any number of tasks. */
module MachineRuns {
  import opened Scheduler
  import opened Machine

  datatype Event =
    | EvTick
    | EvIrq(vector: nat)
    | EvSleep(ms: nat)
    | EvExit
    | EvSpawn(kstack: nat)
    | EvRing3
    | EvEnter(rsp: nat)
    | EvWaitIrq(vector: nat)
    | EvReturn
    | EvLeave
    | EvLoadCr3(root: nat)
    | EvRecordCr3

  /** The machine between two events. `delivered` says whether the event before could happen at all, `ret`
      what stack pointer a return to ring 3 handed out. */
  datatype Snap = Snap(tasks: seq<Task>, current: nat, now: nat, nextId: nat, core: Core, loading: seq<Option<nat>>,
                       past: Past, delivered: bool, ret: Option<nat>)

  ghost function View(cpu: Cpu, delivered: bool, ret: Option<nat>): Snap
    reads cpu
  {
    Snap(cpu.tasks, cpu.current, cpu.now, cpu.nextId, cpu.core, cpu.loading, cpu.past, delivered, ret)
  }

  ghost predicate Fine(a: Snap) { Good(a.tasks, a.current, a.nextId, a.core, a.loading, a.past) }

  /** The interrupt an event signals, if any. */
  function SignalOf(ev: Event, timerVector: nat): Option<nat> {
    match ev
    case EvTick => Some(timerVector)
    case EvIrq(v) => Some(v)
    case _ => None
  }

  // ---- what one event does -------------------------------------------------------------------

  /** The current task runs and is not between its two stores. */
  ghost predicate Steady(a: Snap) {
    a.current < |a.tasks| == |a.loading| && a.loading[a.current].None? && a.tasks[a.current].state.Running?
  }

  /** When an event can happen: interrupts whenever they are on, the timer's when it has been acknowledged; most
      else only in running code that is not between its two stores. */
  ghost predicate Possible(a: Snap, ev: Event) {
    match ev
    case EvTick => a.core.intr && !a.core.inService
    case EvIrq(_) => a.core.intr
    case EvSleep(_) => Steady(a) && !a.core.inside
    case EvExit => Steady(a) && !a.core.inside
    case EvSpawn(k) => Steady(a) && forall i :: 0 <= i < |a.tasks| ==> a.tasks[i].kstack != k
    case EvRing3 => Steady(a) && !a.core.inside && a.core.started
    case EvEnter(_) => Steady(a) && !a.core.inside && a.core.started && a.core.intr
    case EvWaitIrq(_) => a.core.inside
    case EvReturn => a.core.inside
    case EvLeave => a.core.inside
    case EvLoadCr3(_) => Steady(a) && !a.core.inside
    case EvRecordCr3 => a.current < |a.loading| && a.loading[a.current].Some?
  }

  /** The current task, marked, steps aside; if that switches, it stays suspended at `why`, and the core
      is `k` at the switch. */
  ghost predicate Yields(a: Snap, mark: Task, why: Resume, k: Core, b: Snap, m: seq<Task>) {
    && a.current < |a.tasks| == |m| && b.current < |m| && a.current < |a.past.cut|
    && NextStep(a.tasks[a.current := mark], a.current, a.now, m, b.current)
    && b.now == a.now && b.loading == a.loading && b.nextId == a.nextId
    && if b.current == a.current then b.core == a.core && b.past == a.past
       else && b.tasks == Handed(m, a.current, why, b.current) && b.core == Resumed(k, m[b.current])
            && b.past == Left(a.past, a.current, why)
  }

  ghost predicate Ticks(a: Snap, b: Snap, timerVector: nat, m: seq<Task>) {
    && a.current < |a.tasks| == |m| && b.current < |m| && a.current < |a.past.cut|
    && NextStep(Signalled(a.tasks, timerVector), a.current, b.now, m, b.current)
    && b.now == a.now + 1 && b.loading == a.loading && b.nextId == a.nextId
    && if b.current == a.current then b.core == a.core && b.past == a.past && b.tasks == m
       else && b.tasks == Handed(m, a.current, Ticked(a.core.inside), b.current)
            && b.core == Resumed(a.core.(intr := false, inService := true), m[b.current])
            && b.past == Left(a.past, a.current, Ticked(a.core.inside))
  }

  ghost predicate Spawns(a: Snap, k: nat, b: Snap) {
    var slot := FirstDead(a.tasks);
    && Placed(a.tasks, b.tasks, slot) && slot != a.current
    && b.tasks[slot] == Task(a.nextId, Ready, 0, None, a.core.cr3, k, Fresh)
    && b.current == a.current && b.now == a.now && b.nextId == a.nextId + 1 && b.core == a.core
    && b.past == SpawnPast(a.past, |b.tasks|)
    && |a.loading| <= |b.loading| == |b.tasks| && b.loading[slot] == None
    && forall i :: 0 <= i < |a.loading| && i != slot ==> b.loading[i] == a.loading[i]
  }

  function Asleep(t: Task, now: nat, ms: nat): Task { t.(wakeAt := now + Max(ms / 10, 1), state := Blocked) }

  function Waiting(t: Task, v: nat): Task { t.(waitingIrq := Some(v), wakeAt := NEVER, state := Blocked) }

  function Gone(t: Task): Task { t.(state := Dead) }

  /** The core once `block_on_irq` has undone the GS toggle. */
  function Resting(core: Core): Core { core.(gs := Toggle(core.gs), inside := false) }

  /** What an event that happens does. */
  ghost predicate Effect(a: Snap, ev: Event, b: Snap, timerVector: nat)
    requires a.current < |a.tasks| == |a.loading| == |a.past.entry| == |a.past.cut|
  {
    var c, t := a.current, a.tasks[a.current];
    match ev
    case EvTick => exists m :: Ticks(a, b, timerVector, m)
    case EvIrq(v) => b == a.(tasks := Signalled(a.tasks, v), delivered := true, ret := None)
    case EvSleep(ms) =>
      && (exists m :: Yields(a, Asleep(t, a.now, ms), Slept, a.core, b, m))
      && (b.current == c ==> b.tasks == a.tasks[c := t.(wakeAt := a.now + Max(ms / 10, 1))])
    case EvExit => exists m :: Yields(a, Gone(t), Slept, a.core, b, m) && (b.current == c ==> b.tasks == m)
    case EvSpawn(k) => Spawns(a, k, b)
    case EvRing3 => b == a.(core := a.core.(intr := true), delivered := true, ret := None)
    case EvEnter(rsp) =>
      b == a.(core := Entered(a.core, rsp), past := a.past.(entry := a.past.entry[c := rsp]), delivered := true,
              ret := None)
    case EvWaitIrq(v) =>
      && (exists m :: Yields(a, Waiting(t, v), AfterBlock(a.core.userRsp), Resting(a.core), b, m))
      && (b.current == c ==> b.tasks == a.tasks[c := t.(wakeAt := NEVER)])
    case EvReturn =>
      b == a.(core := a.core.(gs := Toggle(a.core.gs), intr := true, inside := false), delivered := true,
              ret := Some(a.core.userRsp))
    case EvLeave => b == a.(core := a.core.(gs := Toggle(a.core.gs), inside := false), delivered := true, ret := None)
    case EvLoadCr3(x) =>
      b == a.(core := a.core.(cr3 := x), loading := a.loading[c := Some(x)],
              past := a.past.(cut := a.past.cut[c := false], torn := false), delivered := true, ret := None)
    case EvRecordCr3 =>
      && a.loading[c].Some?
      && b == a.(tasks := a.tasks[c := t.(cr3 := a.loading[c].value)], loading := a.loading[c := None],
                 past := a.past.(torn := a.core.cr3 != a.loading[c].value), delivered := true, ret := None)
  }

  /** An event happens exactly when it can, and then does what it says; otherwise nothing changes. */
  ghost predicate Happens(a: Snap, ev: Event, b: Snap, timerVector: nat) {
    && a.current < |a.tasks| == |a.loading| == |a.past.entry| == |a.past.cut|
    && (b.delivered <==> Possible(a, ev))
    && if b.delivered then Effect(a, ev, b, timerVector) else b == a.(delivered := false, ret := None)
  }

  ghost predicate Delivered(a: Snap, ev: Event, b: Snap, timerVector: nat) {
    StepOk(a.tasks, a.current, b.tasks, b.current, b.now, SignalOf(ev, timerVector)) && Happens(a, ev, b, timerVector)
  }

  lemma FineBounds(a: Snap)
    requires Fine(a)
    ensures a.current < |a.tasks| == |a.loading| == |a.past.entry| == |a.past.cut|
  {
    GoodBounds(a.tasks, a.current, a.nextId, a.core, a.loading, a.past);
  }

  lemma StayFair(a: seq<Task>, b: seq<Task>, current: nat, now: nat, signal: Option<nat>)
    requires current < |a| == |b| && forall i :: 0 <= i < |a| ==> b[i].state == a[i].state
    ensures StepOk(a, current, b, current, now, signal)
  {
  }

  lemma Nothing(a: Snap, ev: Event, b: Snap, timerVector: nat)
    requires b == a.(delivered := false, ret := None) && !Possible(a, ev)
    requires a.current < |a.tasks| == |a.loading| == |a.past.entry| == |a.past.cut|
    ensures Delivered(a, ev, b, timerVector)
  {
    hide StepOk;
    StayFair(a.tasks, b.tasks, a.current, b.now, SignalOf(ev, timerVector));
  }

  method IsSteady(cpu: Cpu) returns (steady: bool)
    requires cpu.current < |cpu.tasks| == |cpu.loading|
    ensures steady <==> Steady(View(cpu, false, None))
  {
    steady := cpu.loading[cpu.current].None? && cpu.tasks[cpu.current].state.Running?;
  }

  /** Events that may switch tasks. */
  method DeliverSwitch(cpu: Cpu, ev: Event, timerVector: nat) returns (delivered: bool)
    requires cpu.Valid() && (ev.EvTick? || ev.EvIrq? || ev.EvSleep? || ev.EvExit? || ev.EvWaitIrq?)
    modifies cpu
    ensures cpu.Valid() && Delivered(old(View(cpu, false, None)), ev, View(cpu, delivered, None), timerVector)
  {
    hide Good, Goes, NextStep, Signalled, StepOk, Handed, Resumed;
    ghost var a := View(cpu, false, None);
    FineBounds(a);
    var steady := IsSteady(cpu);
    delivered := true;
    match ev {
      case EvTick =>
        if cpu.core.intr && !cpu.core.inService {
          ghost var m := cpu.Tick(timerVector);
          FineBounds(View(cpu, true, None));
          assert Ticks(a, View(cpu, true, None), timerVector, m);
          return;
        }
      case EvIrq(v) => if cpu.core.intr { cpu.WakeIrqWaiters(v); return; }
      case EvSleep(ms) =>
        if steady && !cpu.core.inside {
          ghost var m := cpu.SleepMs(ms);
          FineBounds(View(cpu, true, None));
          assert Yields(a, Asleep(a.tasks[a.current], a.now, ms), Slept, a.core, View(cpu, true, None), m);
          return;
        }
      case EvExit =>
        if steady && !cpu.core.inside {
          ghost var m := cpu.ExitCurrent();
          FineBounds(View(cpu, true, None));
          assert Yields(a, Gone(a.tasks[a.current]), Slept, a.core, View(cpu, true, None), m);
          return;
        }
      case EvWaitIrq(v) =>
        if cpu.core.inside {
          ghost var m := cpu.BlockOnIrq(v);
          FineBounds(View(cpu, true, None));
          assert Yields(a, Waiting(a.tasks[a.current], v), AfterBlock(a.core.userRsp), Resting(a.core),
                        View(cpu, true, None), m);
          return;
        }
      case _ =>
    }
    delivered := false;
    Nothing(a, ev, View(cpu, false, None), timerVector);
  }

  /** Events of the current task alone. */
  method DeliverLocal(cpu: Cpu, ev: Event, timerVector: nat) returns (delivered: bool, ret: Option<nat>)
    requires cpu.Valid()
    requires ev.EvRing3? || ev.EvEnter? || ev.EvReturn? || ev.EvLeave? || ev.EvLoadCr3? || ev.EvRecordCr3?
    modifies cpu
    ensures cpu.Valid() && Delivered(old(View(cpu, false, None)), ev, View(cpu, delivered, ret), timerVector)
  {
    hide Good, StepOk;
    ghost var a := View(cpu, false, None);
    FineBounds(a);
    var steady := IsSteady(cpu);
    var outside := steady && !cpu.core.inside;
    delivered, ret := true, None;
    if ev.EvRing3? && outside && cpu.core.started { cpu.EnterRing3(); }
    else if ev.EvEnter? && outside && cpu.core.started && cpu.core.intr { var _ := cpu.SyscallEnter(ev.rsp); }
    else if ev.EvReturn? && cpu.core.inside { var rsp := cpu.SyscallReturn(); ret := Some(rsp); }
    else if ev.EvLeave? && cpu.core.inside { cpu.DoExit(); }
    else if ev.EvLoadCr3? && outside { cpu.LoadCr3(ev.root); }
    else if ev.EvRecordCr3? && cpu.loading[cpu.current].Some? { cpu.RecordCr3(); }
    else { delivered := false; Nothing(a, ev, View(cpu, false, None), timerVector); return; }
    StayFair(a.tasks, cpu.tasks, cpu.current, cpu.now, None);
  }

  method DeliverSpawn(cpu: Cpu, kstack: nat, timerVector: nat) returns (delivered: bool)
    requires cpu.Valid()
    modifies cpu
    ensures cpu.Valid()
    ensures Delivered(old(View(cpu, false, None)), EvSpawn(kstack), View(cpu, delivered, None), timerVector)
  {
    hide Good, StepOk, FirstDead;
    ghost var a := View(cpu, false, None);
    FineBounds(a);
    var steady := IsSteady(cpu);
    delivered := steady && forall i :: 0 <= i < |cpu.tasks| ==> cpu.tasks[i].kstack != kstack;
    if delivered { var slot := cpu.Spawn(kstack); } else { Nothing(a, EvSpawn(kstack), a, timerVector); }
  }

  /** One event, or nothing when it cannot happen in this state. Between loading a root and recording
      it only interrupts and the record itself happen. */
  method Deliver(cpu: Cpu, ev: Event, timerVector: nat) returns (delivered: bool, ret: Option<nat>)
    requires cpu.Valid()
    modifies cpu
    ensures cpu.Valid() && Delivered(old(View(cpu, false, None)), ev, View(cpu, delivered, ret), timerVector)
  {
    hide Good, Delivered;
    ret := None;
    if ev.EvSpawn? {
      delivered := DeliverSpawn(cpu, ev.kstack, timerVector);
    } else if ev.EvTick? || ev.EvIrq? || ev.EvSleep? || ev.EvExit? || ev.EvWaitIrq? {
      delivered := DeliverSwitch(cpu, ev, timerVector);
    } else {
      delivered, ret := DeliverLocal(cpu, ev, timerVector);
    }
  }

  // ---- runs ----------------------------------------------------------------------------------

  ghost predicate FairTrace(trace: seq<Snap>) {
    forall i :: 0 <= i < |trace| - 1 ==>
      FairStep(trace[i].tasks, trace[i].current, trace[i + 1].tasks, trace[i + 1].current)
  }

  /** Nobody woke early in any step of the run. */
  ghost predicate PatientTrace(trace: seq<Snap>, events: seq<Event>, timerVector: nat) {
    && |trace| == |events| + 1
    && forall i :: 0 <= i < |events| ==>
         WakeRule(trace[i].tasks, trace[i + 1].tasks, trace[i + 1].now, SignalOf(events[i], timerVector))
  }

  /** Every event of the run happened exactly when it could and did what it says, and the machine invariant held
      all along. */
  ghost predicate IsRun(trace: seq<Snap>, events: seq<Event>, timerVector: nat) {
    && |trace| == |events| + 1
    && (forall i :: 0 <= i < |events| ==> Happens(trace[i], events[i], trace[i + 1], timerVector))
    && (forall i :: 0 <= i < |trace| ==> Fine(trace[i]))
  }

  /** Every sequence of events, in any order, makes a run; every step of it is fair, and nobody wakes early. */
  method Run(cpu: Cpu, events: seq<Event>, timerVector: nat) returns (ghost trace: seq<Snap>)
    requires cpu.Valid()
    modifies cpu
    ensures cpu.Valid()
    ensures |trace| == |events| + 1 && IsRun(trace, events, timerVector)
    ensures FairTrace(trace) && PatientTrace(trace, events, timerVector)
    ensures trace[0] == old(View(cpu, false, None))
    ensures trace[|events|] == View(cpu, trace[|events|].delivered, trace[|events|].ret)
  {
    hide FairStep, WakeRule, Happens, Good;
    trace := [View(cpu, false, None)];
    var i := 0;
    while i < |events|
      invariant 0 <= i <= |events| && cpu.Valid() && |trace| == i + 1
      invariant IsRun(trace, events[..i], timerVector)
      invariant FairTrace(trace) && PatientTrace(trace, events[..i], timerVector)
      invariant trace[0] == old(View(cpu, false, None)) && trace[i] == View(cpu, trace[i].delivered, trace[i].ret)
    {
      ghost var a := View(cpu, false, None);
      var delivered, ret := Deliver(cpu, events[i], timerVector);
      Relabel(a, trace[i], events[i], View(cpu, delivered, ret), timerVector);
      assert events[..i + 1] == events[..i] + [events[i]];
      trace := trace + [View(cpu, delivered, ret)];
      i := i + 1;
    }
    assert events[..|events|] == events;
  }

  /** What happened before does not matter to a step. */
  lemma Relabel(a: Snap, a': Snap, ev: Event, b: Snap, timerVector: nat)
    requires Happens(a, ev, b, timerVector) && a' == a.(delivered := a'.delivered, ret := a'.ret)
    ensures Happens(a', ev, b, timerVector)
  {
    hide NextStep, Handed, Resumed, Signalled, FirstDead, Placed;
    if b.delivered { RelabelEffect(a, a', ev, b, timerVector); }
  }

  lemma RelabelEffect(a: Snap, a': Snap, ev: Event, b: Snap, timerVector: nat)
    requires a.current < |a.tasks| == |a.loading| == |a.past.entry| == |a.past.cut|
    requires Effect(a, ev, b, timerVector) && a' == a.(delivered := a'.delivered, ret := a'.ret)
    ensures Effect(a', ev, b, timerVector)
  {
    hide NextStep, Handed, Resumed, Signalled, FirstDead, Placed, Asleep, Waiting, Gone, Resting;
    var t := a.tasks[a.current];
    match ev
    case EvTick =>
      var m :| Ticks(a, b, timerVector, m);
      assert Ticks(a', b, timerVector, m);
    case EvSleep(ms) =>
      var m :| Yields(a, Asleep(t, a.now, ms), Slept, a.core, b, m);
      assert Yields(a', Asleep(t, a.now, ms), Slept, a.core, b, m);
    case EvExit =>
      var m :| Yields(a, Gone(t), Slept, a.core, b, m) && (b.current == a.current ==> b.tasks == m);
      assert Yields(a', Gone(t), Slept, a.core, b, m);
    case EvWaitIrq(v) =>
      var m :| Yields(a, Waiting(t, v), AfterBlock(a.core.userRsp), Resting(a.core), b, m);
      assert Yields(a', Waiting(t, v), AfterBlock(a.core.userRsp), Resting(a.core), b, m);
    case _ =>
  }
}
