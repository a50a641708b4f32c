/** The CPU state every task shares: the interrupt flag, the GS toggle, the one `user_rsp` scratch slot, the
    syscall and interrupt stacks and CR3, across every interleaving of system calls, blocked system
    calls, timer ticks and exits.  Each entry point is one step. */
module Machine {
  import opened Scheduler

  datatype Gs = UserGs | KernelGs

  function Max(a: nat, b: nat): nat { if a < b then b else a }

  /** What all tasks share: the GS toggle, the per-CPU block's two stack slots, the interrupt stack, CR3, the
      interrupt flag, and whether the timer waits for its last interrupt to be acknowledged.  And where the
      current task is: between system call entry and exit, and whether any switch has happened yet. */
  datatype Core = Core(gs: Gs, userRsp: nat, kernelStack: nat, rsp0: nat, cr3: nat, intr: bool, inService: bool,
                       inside: bool, started: bool)

  /** What has happened: the user stack pointer each task entered its latest system call with; whether it has been
      switched away from since its latest load of CR3; whether the current task has recorded a root other
      than the one loaded; and whether a tick has ever switched away from inside a system call. */
  datatype Past = Past(entry: seq<nat>, cut: seq<bool>, torn: bool, mixed: bool)

  function Toggle(g: Gs): Gs { if g.UserGs? then KernelGs else UserGs }

  /** The core once task `t` goes on where it was suspended.  A new task acknowledges the timer and turns interrupts
      on, a preempted one acknowledges it and gets its own flag back, which was on; one suspended in
      `sleep_ms` or `block_on_irq` goes on with whatever the flag is, as the switch does not touch it. */
  function Resumed(core: Core, t: Task): Core {
    var k := core.(kernelStack := t.kstack, rsp0 := t.kstack, cr3 := t.cr3, started := true);
    match t.resume
    case Fresh => k.(intr := true, inService := false, inside := false)
    case Ticked(inside) => k.(intr := true, inService := false, inside := inside)
    case AfterBlock(rsp) => k.(gs := Toggle(k.gs), userRsp := rsp, inside := true)
    case _ => k.(inside := false)
  }

  /** Ready tasks come closer with every switch: each is chosen, or stays ready with
      strictly fewer tasks ahead of it; without a switch all of them stay ready. */
  ghost predicate FairStep(a: seq<Task>, c: nat, b: seq<Task>, d: nat) {
    && |a| <= |b| && c < |a| && d < |b|
    && forall t :: 0 <= t < |a| && t != c && a[t].state.Ready? ==>
         if d == c then b[t].state.Ready?
         else t == d || (b[t].state.Ready? && (|b| == |a| ==> Dist(d, t, |a|) < Dist(c, t, |a|)))
  }

  /** Nobody wakes early: a blocked task stops being blocked only when its sleep is over,
      or when the very interrupt it waits for is signalled. */
  ghost predicate WakeRule(a: seq<Task>, b: seq<Task>, now: nat, signal: Option<nat>) {
    && |a| <= |b|
    && forall t :: 0 <= t < |a| && a[t].state.Blocked? && !b[t].state.Blocked? ==>
         if a[t].waitingIrq.Some? then signal == a[t].waitingIrq else now >= a[t].wakeAt
  }

  /** The table after a switch from `c` to `d`. */
  ghost function Switched(w: seq<Task>, c: nat, d: nat): seq<Task>
    requires c < |w| && d < |w|
  {
    w[c := if w[c].state.Running? then w[c].(state := Ready) else w[c]][d := w[d].(state := Running)]
  }

  /** What `next` does to the table. */
  ghost predicate NextStep(a: seq<Task>, c: nat, now: nat, b: seq<Task>, d: nat)
    requires c < |a|
  {
    if |a| < 2 then b == a && d == c
    else
      var w := Woken(a, now);
      d < |a| && Picked(w, c, if d == c then None else Some(d)) && b == if d == c then w else Switched(w, c, d)
  }

  /** From task `c` of table `a` the CPU goes to the first task that is ready once expired
      sleeps are over, or stays when there is no other. */
  ghost predicate Goes(a: seq<Task>, c: nat, now: nat, d: nat) {
    c < |a| && d < |a| && Picked(Woken(a, now), c, if d == c then None else Some(d))
  }

  /** `next` switches if and only if some other task is ready once expired sleeps are over. */
  lemma SwitchIff(a: seq<Task>, c: nat, now: nat, d: nat)
    requires Goes(a, c, now, d)
    ensures d != c <==> exists j :: 0 <= j < |a| && j != c && CanRun(a[j], now)
  {
    var w := Woken(a, now);
    if d != c { assert w[d].state.Ready? && CanRun(a[d], now); }
    if j :| 0 <= j < |a| && j != c && CanRun(a[j], now) { assert w[j].state.Ready?; }
  }

  /** A task is ready at time `now`, or sleeps and its time has come. */
  ghost predicate CanRun(t: Task, now: nat) {
    t.state == Ready || (t.state == Blocked && t.waitingIrq == None && t.wakeAt <= now)
  }

  /** Nobody but the current task sleeps past its time. */
  ghost predicate NobodyOverslept(tasks: seq<Task>, current: nat, now: nat) {
    forall i :: 0 <= i < |tasks| && i != current && tasks[i].state == Blocked && tasks[i].waitingIrq == None ==>
      tasks[i].wakeAt > now
  }

  /** What a table of which only `c` may be running becomes under `next`. */
  lemma NextTable(a: seq<Task>, c: nat, now: nat, b: seq<Task>, d: nat)
    requires c < |a| && NextStep(a, c, now, b, d)
    requires forall i :: 0 <= i < |a| && a[i].state.Running? ==> i == c
    requires forall i :: 0 <= i < |a| && a[i].waitingIrq.Some? ==> a[i].state.Blocked?
    ensures |b| == |a| && d < |b| && WakeRule(a, b, now, None) && Goes(a, c, now, d)
    ensures forall i :: 0 <= i < |b| ==> b[i] == a[i].(state := b[i].state) && (b[i].state.Dead? <==> a[i].state.Dead?)
    ensures |a| >= 2 ==> NobodyOverslept(b, d, now)
    ensures d == c ==> forall i :: 0 <= i < |b| ==> b[i] == a[i] || (Due(a[i], now) && i == c)
    ensures d != c ==>
      TableOk(b, d) && b[d].state.Running? && !b[c].state.Running? && (a[d].state.Ready? || Due(a[d], now))
  {
    var w := Woken(a, now);
    assert forall i :: 0 <= i < |a| ==> w[i] == Wake(a[i], now);
  }

  lemma NextFair(a: seq<Task>, c: nat, now: nat, b: seq<Task>, d: nat)
    requires c < |a| && NextStep(a, c, now, b, d)
    ensures FairStep(a, c, b, d)
  {
    var w := Woken(a, now);
    if |a| >= 2 && d != c {
      forall t | 0 <= t < |a| && t != c && a[t].state.Ready?
        ensures t == d || (b[t].state.Ready? && Dist(d, t, |a|) < Dist(c, t, |a|))
      {
        assert w[t].state.Ready?;
        if t != d { Closer(c, d, t, |a|); }
      }
    }
  }

  /** Going forward from `c`, a task `t` not nearer than `d` gets nearer from `d`. */
  lemma Closer(c: nat, d: nat, t: nat, n: nat)
    requires c < n && d < n && t < n && c != d && t != d
    ensures Dist(c, d, n) <= Dist(c, t, n) ==> Dist(d, t, n) < Dist(c, t, n)
  {
  }

  /** Tables that differ only in the current task. */
  ghost predicate SameBut(a: seq<Task>, b: seq<Task>, c: nat) {
    |a| == |b| && forall i :: 0 <= i < |a| && i != c ==> b[i] == a[i]
  }

  /** What each step promises about the whole table. */
  ghost predicate StepOk(a: seq<Task>, c: nat, b: seq<Task>, d: nat, now: nat, signal: Option<nat>) {
    FairStep(a, c, b, d) && WakeRule(a, b, now, signal)
  }

  class Cpu {
    var tasks: seq<Task>
    var current: nat
    var now: nat
    var nextId: nat
    var core: Core

    /** For each task, the root it has loaded and not yet recorded in the table. */
    var loading: seq<Option<nat>>

    ghost var past: Past

    ghost predicate Valid()
      reads this
    {
      Good(tasks, current, nextId, core, loading, past)
    }

    /** A step that may switch tasks, but neither enters a system call nor loads or records a root. */
    twostate predicate KeepsRecords()
      reads this
    {
      && loading == old(loading) && past.entry == old(past).entry && old(current) < |old(past).cut|
      && past.cut == (if current != old(current) then old(past).cut[old(current) := true] else old(past).cut)
      && (past.torn <==> old(past).torn && current == old(current))
    }

    /** Boot: three tasks, the first of them running on the boot stack, with interrupts on. */
    constructor (k0: nat, k1: nat, k2: nat, bootStack: nat, root: nat)
      requires k0 != k1 && k0 != k2 && k1 != k2
      ensures Valid() && current == 0 && now == 0 && nextId == FIRST_ID
      ensures tasks == [Task(0, Running, 0, None, root, k0, Plain), Task(1, Ready, 0, None, root, k1, Fresh),
                        Task(2, Ready, 0, None, root, k2, Fresh)]
      ensures core == Core(UserGs, 0, bootStack, bootStack, root, true, false, false, false)
      ensures loading == [None, None, None] && past == Past([0, 0, 0], [false, false, false], false, false)
    {
      tasks := [Task(0, Running, 0, None, root, k0, Plain), Task(1, Ready, 0, None, root, k1, Fresh),
                Task(2, Ready, 0, None, root, k2, Fresh)];
      current, now, nextId := 0, 0, FIRST_ID;
      core := Core(UserGs, 0, bootStack, bootStack, root, true, false, false, false);
      loading, past := [None, None, None], Past([0, 0, 0], [false, false, false], false, false);
    }

    /** `Scheduler::next`. */
    method Next() returns (switched: bool)
      requires current < |tasks|
      modifies this`tasks, this`current
      ensures NextStep(old(tasks), old(current), now, tasks, current)
      ensures switched <==> current != old(current)
    {
      if |tasks| < 2 { return false; }
      tasks := WakeSleepers(tasks, now);
      var next := Scan(tasks, current);
      if next.None? { return false; }
      var w := tasks;
      if tasks[current].state.Running? { tasks := tasks[current := tasks[current].(state := Ready)]; }
      tasks := tasks[next.value := tasks[next.value].(state := Running)];
      assert tasks == Switched(w, current, next.value);
      current := next.value;
      switched := true;
    }

    /** The switch itself: `from` stays suspended at `why`; the current task gets its stacks and CR3 and goes on
        where it was. */
    method Dispatch(from: nat, why: Resume)
      requires from < |tasks| && current < |tasks| && from != current && from < |past.cut|
      modifies this`tasks, this`core, this`past
      ensures tasks == Handed(old(tasks), from, why, current)
      ensures core == Resumed(old(core), old(tasks)[current])
      ensures past == Left(old(past), from, why)
      ensures var t := old(tasks)[current];
        && core.kernelStack == core.rsp0 == t.kstack && core.cr3 == t.cr3
        && (core.intr <==> old(core.intr) || t.resume == Fresh || t.resume.Ticked?)
        && (core.inService <==> old(core.inService) && t.resume != Fresh && !t.resume.Ticked?)
        && (core.gs != old(core.gs) <==> t.resume.AfterBlock?)
        && core.userRsp == (if t.resume.AfterBlock? then t.resume.savedRsp else old(core.userRsp))
        && (core.inside <==> t.resume.AfterBlock? || t.resume == Ticked(true))
    {
      var task := tasks[current];
      var k := core.(kernelStack := task.kstack, rsp0 := task.kstack, started := true);
      k := k.(cr3 := task.cr3);
      match task.resume {
        case Fresh => k := k.(intr := true, inService := false, inside := false);
        case Ticked(inside) => k := k.(intr := true, inService := false, inside := inside);
        case AfterBlock(rsp) =>
          k := k.(gs := Toggle(k.gs), inside := true);
          k := k.(userRsp := rsp);
        case _ => k := k.(inside := false);
      }
      core := k;
      tasks := tasks[from := tasks[from].(resume := why)][current := task.(resume := Plain)];
      past := Left(past, from, why);
    }

    /** `wake_irq_waiters`. */
    method WakeIrqWaiters(vector: nat)
      requires Valid()
      modifies this`tasks
      ensures Valid() && tasks == Signalled(old(tasks), vector) && |tasks| == |old(tasks)|
      ensures forall i :: 0 <= i < |tasks| ==>
        if old(tasks)[i].state == Blocked && old(tasks)[i].waitingIrq == Some(vector)
        then tasks[i] == old(tasks)[i].(state := Ready, waitingIrq := None) else tasks[i] == old(tasks)[i]
      ensures StepOk(old(tasks), current, tasks, current, now, Some(vector))
    {
      hide Good, StepOk;
      ghost var a := tasks;
      var i := 0;
      while i < |tasks|
        invariant 0 <= i <= |tasks| == |a|
        invariant forall j :: 0 <= j < |a| ==> tasks[j] == if j < i then Signal(a[j], vector) else a[j]
      {
        if tasks[i].state.Blocked? && tasks[i].waitingIrq == Some(vector) {
          tasks := tasks[i := tasks[i].(waitingIrq := None, state := Ready)];
        }
        i := i + 1;
      }
      assert tasks == Signalled(a, vector);
      SignalGood(a, vector, current, now, nextId, core, loading, past);
    }

    /** The timer interrupt, whenever interrupts are on and the last one is acknowledged: inside a system call,
        too, of a task that was resumed there with interrupts on.  GS and `user_rsp` are then left as they
        are. */
    method Tick(timerVector: nat) returns (ghost m: seq<Task>)
      requires Valid() && core.intr && !core.inService
      modifies this
      ensures Valid() && now == old(now) + 1 && nextId == old(nextId) && KeepsRecords()
      ensures StepOk(old(tasks), old(current), tasks, current, now, Some(timerVector))
      ensures old(current) < |old(tasks)|
      ensures NextStep(Signalled(old(tasks), timerVector), old(current), now, m, current)
      ensures current == old(current) ==> tasks == m && core == old(core) && past == old(past)
      ensures current != old(current) ==>
        && |m| == |old(tasks)| && current < |m|
        && tasks == Handed(m, old(current), Ticked(old(core).inside), current)
        && core == Resumed(old(core).(intr := false, inService := true), m[current])
        && past == Left(old(past), old(current), Ticked(old(core).inside))
    {
      hide Good, NextStep, StepOk, Signalled, Handed, Resumed;
      ghost var a, c0, p0, from := tasks, core, past, current;
      GoodBounds(a, current, nextId, core, loading, past);
      now := now + 1;
      core := core.(intr := false, inService := true);
      GoodIntr(tasks, current, nextId, c0, core, loading, past);
      WakeIrqWaiters(timerVector);
      ghost var b := tasks;
      GoodBounds(b, current, nextId, core, loading, past);
      var old_ := current;
      var switched := Next();
      m := tasks;
      if switched {
        TickSwitch(a, b, m, from, current, now, timerVector, nextId, c0, loading, p0);
        Dispatch(old_, Ticked(core.inside));
      } else {
        core := core.(intr := true, inService := false);
        TickStay(a, b, m, from, now, timerVector, nextId, c0, loading, p0);
      }
    }

    /** Block for `ms` milliseconds, or return at once when no other task is ready. */
    method SleepMs(ms: nat) returns (ghost m: seq<Task>)
      requires Valid() && !core.inside && tasks[current].state.Running?
      modifies this
      ensures Valid() && now == old(now) && nextId == old(nextId) && KeepsRecords()
      ensures StepOk(old(tasks), old(current), tasks, current, now, None)
      ensures Goes(old(tasks), old(current), now, current) && |tasks| == |old(tasks)| == |m|
      ensures var mark := old(tasks)[old(current)].(wakeAt := now + Max(ms / 10, 1), state := Blocked);
              NextStep(old(tasks)[old(current) := mark], old(current), now, m, current)
      ensures current == old(current) ==> core == old(core) && past == old(past)
      ensures current == old(current) ==>
        tasks == old(tasks)[current := old(tasks)[current].(wakeAt := now + if ms < 20 then 1 else ms / 10)]
      ensures current != old(current) ==>
        && tasks == Handed(m, old(current), Slept, current) && core == Resumed(old(core), m[current])
        && past == Left(old(past), old(current), Slept)
        && tasks[old(current)].state.Blocked? && tasks[old(current)].wakeAt == now + if ms < 20 then 1 else ms / 10
    {
      hide Good, NextStep, StepOk, Goes, Resumed;
      var ticks := Max(ms / 10, 1);
      ghost var a, from := tasks, current;
      GoodBounds(a, current, nextId, core, loading, past);
      tasks := tasks[current := tasks[current].(wakeAt := now + ticks, state := Blocked)];
      ghost var b := tasks;
      var old_ := current;
      var switched := Next();
      m := tasks;
      if switched {
        YieldSwitch(a, b, m, from, current, now, Slept, nextId, core, core, loading, past);
        Dispatch(old_, Slept);
      } else {
        StayTable(a, b, m, from, now);
        tasks := tasks[current := tasks[current].(state := Running)];
        YieldStay(a, b, m, tasks, from, now, nextId, core, loading, past);
      }
    }

    /** `SYS_WAIT_IRQ`: block inside the system call until `vector` fires.  GS goes back to
        its resting state and the saved user stack pointer stays with the task. */
    method BlockOnIrq(vector: nat) returns (ghost m: seq<Task>)
      requires Valid() && core.inside
      modifies this
      ensures Valid() && now == old(now) && nextId == old(nextId) && KeepsRecords()
      ensures StepOk(old(tasks), old(current), tasks, current, now, None)
      ensures Goes(old(tasks), old(current), now, current) && |tasks| == |old(tasks)| == |m|
      ensures var mark := old(tasks)[old(current)].(waitingIrq := Some(vector), wakeAt := NEVER, state := Blocked);
              NextStep(old(tasks)[old(current) := mark], old(current), now, m, current)
      ensures current == old(current) ==> core == old(core) && past == old(past)
      ensures current == old(current) ==> tasks == old(tasks)[current := old(tasks)[current].(wakeAt := NEVER)]
      ensures current != old(current) ==>
        && tasks == Handed(m, old(current), AfterBlock(old(core).userRsp), current)
        && core == Resumed(old(core).(gs := Toggle(old(core).gs), inside := false), m[current])
        && past == Left(old(past), old(current), AfterBlock(old(core).userRsp))
        && tasks[old(current)].state.Blocked? && tasks[old(current)].waitingIrq == Some(vector)
    {
      hide Good, NextStep, StepOk, Goes, Resumed;
      ghost var a, from, c0 := tasks, current, core;
      GoodBounds(a, current, nextId, core, loading, past);
      tasks := tasks[current := tasks[current].(waitingIrq := Some(vector), wakeAt := NEVER, state := Blocked)];
      ghost var b := tasks;
      var old_ := current;
      var switched := Next();
      m := tasks;
      if switched {
        var saved := core.userRsp;
        core := core.(gs := Toggle(core.gs), inside := false);
        YieldSwitch(a, b, m, from, current, now, AfterBlock(saved), nextId, c0, core, loading, past);
        Dispatch(old_, AfterBlock(saved));
      } else {
        StayTable(a, b, m, from, now);
        tasks := tasks[current := tasks[current].(state := Running, waitingIrq := None)];
        YieldStay(a, b, m, tasks, from, now, nextId, core, loading, past);
      }
    }

    /** The calling task is over; its slot may be reused.  Without another ready task the
        CPU halts here until a tick finds one. */
    method ExitCurrent() returns (ghost m: seq<Task>)
      requires Valid() && !core.inside
      modifies this
      ensures Valid() && now == old(now) && nextId == old(nextId) && KeepsRecords()
      ensures StepOk(old(tasks), old(current), tasks, current, now, None)
      ensures Goes(old(tasks), old(current), now, current) && |tasks| == |old(tasks)| == |m|
      ensures var mark := old(tasks)[old(current)].(state := Dead);
              NextStep(old(tasks)[old(current) := mark], old(current), now, m, current)
      ensures current == old(current) ==> core == old(core) && past == old(past) && tasks == m
      ensures current != old(current) ==>
        && tasks == Handed(m, old(current), Slept, current) && core == Resumed(old(core), m[current])
        && past == Left(old(past), old(current), Slept)
      ensures tasks[old(current)].state.Dead?
    {
      hide Good, NextStep, StepOk, Goes, Resumed;
      ghost var a, from := tasks, current;
      GoodBounds(a, current, nextId, core, loading, past);
      tasks := tasks[current := tasks[current].(state := Dead)];
      ghost var b := tasks;
      var old_ := current;
      var switched := Next();
      m := tasks;
      if switched {
        YieldSwitch(a, b, m, from, current, now, Slept, nextId, core, core, loading, past);
        Dispatch(old_, Slept);
      } else {
        StayTable(a, b, m, from, now);
        YieldStay(a, b, m, tasks, from, now, nextId, core, loading, past);
      }
    }

    /** A new task takes the first dead slot, or a new one; no slot in use is overwritten. */
    method Spawn(kstack: nat) returns (slot: nat)
      requires Valid() && tasks[current].state.Running?
      requires forall i :: 0 <= i < |tasks| ==> tasks[i].kstack != kstack
      modifies this`tasks, this`nextId, this`loading, this`past
      ensures Valid() && slot == FirstDead(old(tasks)) && slot < |tasks|
      ensures slot < |old(tasks)| ==> old(tasks)[slot].state.Dead? && slot != current
      ensures Placed(old(tasks), tasks, slot)
      ensures tasks[slot] == Task(old(nextId), Ready, 0, None, core.cr3, kstack, Fresh) && nextId == old(nextId) + 1
      ensures StepOk(old(tasks), current, tasks, current, now, None)
      ensures past == SpawnPast(old(past), |tasks|)
      ensures |loading| == |tasks| && loading[slot] == None
      ensures forall i :: 0 <= i < |old(loading)| && i != slot ==> loading[i] == old(loading)[i]
      ensures (exists i :: 0 <= i < |tasks| && i != slot && tasks[i].id == tasks[slot].id) <==>
                && old(nextId) == FIRST_ID
                && exists i :: 0 <= i < |old(tasks)| && i != slot && old(tasks)[i].id == FIRST_ID
    {
      hide Good, StepOk;
      var task := Task(nextId, Ready, 0, None, core.cr3, kstack, Fresh);
      nextId := nextId + 1;
      slot := FindDead();
      ghost var a, l, p := tasks, loading, past;
      GoodBounds(a, current, nextId - 1, core, loading, past);
      if slot < |tasks| {
        tasks := tasks[slot := task];
        loading := loading[slot := None];
      } else {
        tasks := tasks + [task];
        loading := loading + [None];
      }
      past := SpawnPast(past, |tasks|);
      SpawnGood(a, tasks, slot, current, nextId - 1, core, l, loading, p, now);
    }

    method FindDead() returns (slot: nat)
      ensures slot == FirstDead(tasks)
    {
      slot := 0;
      while slot < |tasks| && !tasks[slot].state.Dead?
        invariant 0 <= slot <= |tasks| && forall i :: 0 <= i < slot ==> !tasks[i].state.Dead?
      {
        slot := slot + 1;
      }
    }

    /** `enter_ring3`, or the way on there: ring 3 always runs with interrupts on. */
    method EnterRing3()
      requires Valid() && !core.inside && core.started && tasks[current].state.Running?
      modifies this`core
      ensures Valid() && core == old(core).(intr := true)
    {
      core := core.(intr := true);
    }

    /** `syscall_entry`: interrupts off, GS to the kernel's, the user stack pointer to the shared slot, and
        the current task's own stack.  With GS the wrong way around the last two are not reached. */
    method SyscallEnter(rsp: nat) returns (stack: nat)
      requires Valid() && !core.inside && core.started && core.intr && tasks[current].state.Running?
      modifies this`core, this`past
      ensures Valid() && past == old(past).(entry := old(past).entry[current := rsp])
      ensures core == Entered(old(core), rsp)
      ensures !past.mixed ==> core.gs.KernelGs? && core.userRsp == rsp && stack == tasks[current].kstack
      ensures !past.mixed ==> forall i :: 0 <= i < |tasks| && i != current ==> tasks[i].kstack != stack
    {
      core := core.(gs := Toggle(core.gs), intr := false, inside := true);
      if core.gs.KernelGs? { core := core.(userRsp := rsp); }
      stack := core.kernelStack;
      past := past.(entry := past.entry[current := rsp]);
    }

    /** The way back to ring 3: the task gets the stack pointer it entered with. */
    method SyscallReturn() returns (rsp: nat)
      requires Valid() && core.inside
      modifies this`core
      ensures Valid() && core == old(core).(gs := Toggle(old(core).gs), intr := true, inside := false)
      ensures rsp == old(core).userRsp && (!past.mixed ==> rsp == past.entry[current] && core.gs.UserGs?)
    {
      rsp := core.userRsp;
      core := core.(gs := Toggle(core.gs), intr := true, inside := false);
    }

    /** `do_exit`: the process leaves its system call for good, undoing the GS toggle. */
    method DoExit()
      requires Valid() && core.inside
      modifies this`core
      ensures Valid() && core == old(core).(gs := Toggle(old(core).gs), inside := false)
    {
      core := core.(gs := Toggle(core.gs), inside := false);
    }

    /** `write_cr3`, the first half of entering or leaving a process's address space. */
    method LoadCr3(x: nat)
      requires Valid() && loading[current].None?
      modifies this`core, this`loading, this`past
      ensures Valid() && core == old(core).(cr3 := x) && loading == old(loading)[current := Some(x)]
      ensures past == old(past).(cut := old(past).cut[current := false], torn := false)
    {
      core := core.(cr3 := x);
      loading, past := loading[current := Some(x)], past.(cut := past.cut[current := false], torn := false);
    }

    /** `set_current_cr3`, the second half. Interrupts may be on between the two. The record agrees
        with the live CR3 if and only if the task was not switched away from in between, or goes back
        to the root it had. */
    method RecordCr3()
      requires Valid() && loading[current].Some?
      modifies this`tasks, this`loading, this`past
      ensures Valid() && loading == old(loading)[current := None]
      ensures tasks == old(tasks)[current := old(tasks)[current].(cr3 := old(loading)[current].value)]
      ensures core.cr3 == tasks[current].cr3 <==>
        !past.cut[current] || old(tasks)[current].cr3 == old(loading)[current].value
      ensures past == old(past).(torn := core.cr3 != tasks[current].cr3)
    {
      hide StacksApart;
      var x := loading[current].value;
      past := past.(torn := past.cut[current] && tasks[current].cr3 != x);
      LabelsSame(tasks, tasks[current := tasks[current].(cr3 := x)], nextId);
      tasks := tasks[current := tasks[current].(cr3 := x)];
      loading := loading[current := None];
    }
  }

  // ---- what the machine keeps --------------------------------------------------------------------

  /** Everything that holds between two steps. */
  ghost predicate Good(tasks: seq<Task>, current: nat, nextId: nat, core: Core, loading: seq<Option<nat>>, p: Past) {
    && TableOk(tasks, current) && Shared(tasks, current, core, p) && Suspended(tasks, p, current)
    && Labels(tasks, nextId) && Roots(tasks, current, core.cr3, loading, p.cut, p.torn)
  }

  /** GS is the kernel's exactly inside a system call, and there `user_rsp` is the caller's. */
  ghost predicate Sane(core: Core, rsp: nat) {
    (core.gs.KernelGs? <==> core.inside) && (core.inside ==> core.userRsp == rsp)
  }

  /** The shared state is that of the current task; GS and `user_rsp` unless they have been mixed up. */
  ghost predicate Shared(tasks: seq<Task>, current: nat, core: Core, p: Past) {
    && current < |tasks| == |p.entry| && tasks[current].resume.Plain?
    && (core.inside ==> tasks[current].state.Running? && core.started)
    && (core.started ==> core.kernelStack == core.rsp0 == tasks[current].kstack)
    && (!p.mixed ==> Sane(core, p.entry[current]))
  }

  /** A task suspended inside a system call has its own stack pointer put away, and none was suspended there by
      a tick. */
  ghost predicate Own(r: Resume, rsp: nat) {
    (r.AfterBlock? ==> r.savedRsp == rsp) && (r.Ticked? ==> !r.inside)
  }

  ghost predicate Suspended(tasks: seq<Task>, p: Past, current: nat) {
    && |p.entry| == |tasks|
    && forall i :: 0 <= i < |tasks| && i != current && !tasks[i].state.Dead? ==>
         !tasks[i].resume.Plain? && (!p.mixed ==> Own(tasks[i].resume, p.entry[i]))
  }

  ghost predicate StacksApart(tasks: seq<Task>) {
    forall i, j :: 0 <= i < j < |tasks| ==> tasks[i].kstack != tasks[j].kstack
  }

  /** Every task but `current` that has loaded a root and not recorded it has been switched away from since. */
  ghost predicate CutOff(loading: seq<Option<nat>>, cut: seq<bool>, current: nat) {
    |loading| == |cut| && forall i :: 0 <= i < |cut| && i != current && loading[i].Some? ==> cut[i]
  }

  /** The live CR3 is the current task's record, except between its load and its record, and after
      a record that came too late. */
  ghost predicate Roots(tasks: seq<Task>, current: nat, cr3: nat, loading: seq<Option<nat>>, cut: seq<bool>,
                        torn: bool) {
    && current < |tasks| == |loading| && CutOff(loading, cut, current)
    && match loading[current]
       case None => cr3 == tasks[current].cr3 <==> !torn
       case Some(x) => !torn && cr3 == if cut[current] then tasks[current].cr3 else x
  }

  /** The counter starts at an id that a boot task already has. */
  const FIRST_ID: nat := 2

  /** No two tasks share a kernel stack, and no id has been given out that the counter may still reach,
      except the first. */
  ghost predicate Labels(tasks: seq<Task>, nextId: nat) {
    && StacksApart(tasks) && nextId >= FIRST_ID
    && forall i :: 0 <= i < |tasks| ==> tasks[i].id < nextId || tasks[i].id == FIRST_ID
  }

  lemma GoodBounds(tasks: seq<Task>, current: nat, nextId: nat, core: Core, loading: seq<Option<nat>>, p: Past)
    requires Good(tasks, current, nextId, core, loading, p)
    ensures current < |tasks| == |loading| == |p.cut| == |p.entry| && TableOk(tasks, current)
    ensures !core.inside || tasks[current].state.Running?
  {
    hide Suspended, Labels;
  }

  /** The interrupt flag and the timer's state do not matter to what the machine keeps. */
  lemma GoodIntr(tasks: seq<Task>, current: nat, nextId: nat, c: Core, core: Core, loading: seq<Option<nat>>, p: Past)
    requires Good(tasks, current, nextId, c, loading, p) && core == c.(intr := core.intr, inService := core.inService)
    ensures Good(tasks, current, nextId, core, loading, p)
  {
    hide TableOk, Suspended, Labels, Roots;
  }

  lemma LabelsSame(a: seq<Task>, b: seq<Task>, nextId: nat)
    requires Labels(a, nextId) && |a| == |b|
    requires forall i :: 0 <= i < |b| ==> b[i].kstack == a[i].kstack && b[i].id == a[i].id
    ensures Labels(b, nextId)
  {
  }

  /** Tables that differ in states, wake times and interrupts waited for; only `c` may have died. */
  ghost predicate Alike(a: seq<Task>, b: seq<Task>, c: nat) {
    && |a| == |b|
    && forall i :: 0 <= i < |a| ==>
         && b[i] == a[i].(state := b[i].state, wakeAt := b[i].wakeAt, waitingIrq := b[i].waitingIrq)
         && (i != c ==> (b[i].state.Dead? <==> a[i].state.Dead?))
  }

  /** Without a switch. */
  lemma StayGood(a: seq<Task>, b: seq<Task>, c: nat, nextId: nat, core: Core, loading: seq<Option<nat>>, p: Past)
    requires Good(a, c, nextId, core, loading, p) && Alike(a, b, c) && TableOk(b, c)
    requires core.inside ==> b[c].state.Running?
    ensures Good(b, c, nextId, core, loading, p)
  {
    hide StacksApart, TableOk;
    LabelsSame(a, b, nextId);
  }

  /** The table once `from` is suspended at `why` and `to` goes on. */
  function Handed(m: seq<Task>, from: nat, why: Resume, to: nat): (t: seq<Task>)
    requires from < |m| && to < |m|
    ensures |t| == |m|
  {
    m[from := m[from].(resume := why)][to := m[to].(resume := Plain)]
  }

  ghost function Left(p: Past, from: nat, why: Resume): Past
    requires from < |p.cut|
  {
    p.(cut := p.cut[from := true], torn := false, mixed := p.mixed || why == Ticked(true))
  }

  /** A switch from `from`, suspended at `why`, to `to`, the core being `k` by then.  Unless a tick came inside a
      system call, GS has to be back in its resting state. */
  ghost predicate CanSwitch(a: seq<Task>, m: seq<Task>, from: nat, to: nat, why: Resume, k: Core, p: Past) {
    && from < |a| && to < |a| && from != to && Alike(a, m, from) && TableOk(m, to) && m[to].state.Running?
    && !why.Plain? && from < |p.entry|
    && (!p.mixed && why != Ticked(true) ==> k.gs.UserGs? && Own(why, p.entry[from]))
  }

  lemma SwitchShared(a: seq<Task>, m: seq<Task>, from: nat, to: nat, why: Resume, k: Core, p: Past)
    requires CanSwitch(a, m, from, to, why, k, p) && Suspended(a, p, from) && from < |p.cut|
    ensures Shared(Handed(m, from, why, to), to, Resumed(k, m[to]), Left(p, from, why))
    ensures Suspended(Handed(m, from, why, to), Left(p, from, why), to)
  {
    hide TableOk;
  }

  lemma SwitchRoots(a: seq<Task>, m: seq<Task>, from: nat, to: nat, why: Resume, k: Core, p: Past, cr3: nat,
                    loading: seq<Option<nat>>)
    requires CanSwitch(a, m, from, to, why, k, p) && Roots(a, from, cr3, loading, p.cut, p.torn)
    ensures Roots(Handed(m, from, why, to), to, m[to].cr3, loading, Left(p, from, why).cut, false)
  {
    hide TableOk, Own;
  }

  lemma SwitchGood(a: seq<Task>, m: seq<Task>, from: nat, to: nat, why: Resume, nextId: nat, core: Core, k: Core,
                   loading: seq<Option<nat>>, p: Past)
    requires Good(a, from, nextId, core, loading, p) && CanSwitch(a, m, from, to, why, k, p)
    ensures from < |p.cut|
    ensures Good(Handed(m, from, why, to), to, nextId, Resumed(k, m[to]), loading, Left(p, from, why))
  {
    hide StacksApart, Own, Suspended, Shared;
    GoodBounds(a, from, nextId, core, loading, p);
    SwitchShared(a, m, from, to, why, k, p);
    SwitchRoots(a, m, from, to, why, k, p, core.cr3, loading);
    LabelsSame(a, Handed(m, from, why, to), nextId);
  }

  /** A switch from inside a system call that leaves GS as it is mixes it up, at once. */
  lemma MixesUp(t: Task, k: Core, rsp: nat)
    requires Own(t.resume, rsp) && k.gs.KernelGs?
    ensures !(Resumed(k, t).gs.KernelGs? <==> Resumed(k, t).inside)
  {
  }

  // ---- signals, ticks and yields as wholes --------------------------------------------------------

  function Signal(t: Task, vector: nat): Task {
    if t.state.Blocked? && t.waitingIrq == Some(vector) then t.(waitingIrq := None, state := Ready) else t
  }

  function Signalled(tasks: seq<Task>, vector: nat): (r: seq<Task>)
    ensures |r| == |tasks| && forall i :: 0 <= i < |tasks| ==> r[i] == Signal(tasks[i], vector)
  {
    seq(|tasks|, i requires 0 <= i < |tasks| => Signal(tasks[i], vector))
  }

  lemma SignalGood(a: seq<Task>, v: nat, c: nat, now: nat, nextId: nat, core: Core, loading: seq<Option<nat>>, p: Past)
    requires Good(a, c, nextId, core, loading, p)
    ensures Good(Signalled(a, v), c, nextId, core, loading, p) && Alike(a, Signalled(a, v), c)
    ensures StepOk(a, c, Signalled(a, v), c, now, Some(v))
  {
    hide Good;
    GoodBounds(a, c, nextId, core, loading, p);
    assert forall i :: 0 <= i < |a| ==> Signalled(a, v)[i] == Signal(a[i], v);
    StayGood(a, Signalled(a, v), c, nextId, core, loading, p);
  }

  /** A running or dead task is not a sleeper whose time has come. */
  lemma NotDue(a: seq<Task>, c: nat, now: nat, b: seq<Task>)
    requires c < |a| == |b| && !a[c].state.Blocked?
    requires forall i :: 0 <= i < |b| ==> b[i] == a[i] || (Due(a[i], now) && i == c)
    ensures b == a
  {
  }

  /** Only states matter to what a step promises about the table. */
  lemma StepThrough(a: seq<Task>, b: seq<Task>, m: seq<Task>, e: seq<Task>, cur: nat, next: nat, now: nat, v: nat)
    requires b == Signalled(a, v) && cur < |a| == |m| == |e| && next < |a|
    requires FairStep(b, cur, m, next) && WakeRule(b, m, now, None)
    requires forall i :: 0 <= i < |e| ==> e[i].state == m[i].state
    ensures StepOk(a, cur, e, next, now, Some(v))
  {
    assert forall i :: 0 <= i < |a| ==> b[i] == Signal(a[i], v);
  }

  lemma TickSwitch(a: seq<Task>, b: seq<Task>, m: seq<Task>, from: nat, to: nat, now: nat, v: nat, nextId: nat,
                   core: Core, loading: seq<Option<nat>>, p: Past)
    requires Good(a, from, nextId, core, loading, p) && b == Signalled(a, v) && to != from && from < |b|
    requires NextStep(b, from, now, m, to)
    ensures |m| == |a| && to < |m| && from < |p.cut|
    ensures Good(Handed(m, from, Ticked(core.inside), to), to, nextId,
                 Resumed(core.(intr := false, inService := true), m[to]), loading, Left(p, from, Ticked(core.inside)))
    ensures StepOk(a, from, Handed(m, from, Ticked(core.inside), to), to, now, Some(v))
  {
    hide Good, NextStep, StepOk, Resumed, FairStep, WakeRule, Signalled, Goes;
    GoodBounds(a, from, nextId, core, loading, p);
    SignalGood(a, v, from, now, nextId, core, loading, p);
    GoodBounds(b, from, nextId, core, loading, p);
    NextTable(b, from, now, m, to);
    NextFair(b, from, now, m, to);
    AtRest(a, from, nextId, core, loading, p);
    SwitchGood(b, m, from, to, Ticked(core.inside), nextId, core, core.(intr := false, inService := true), loading, p);
    StepThrough(a, b, m, Handed(m, from, Ticked(core.inside), to), from, to, now, v);
  }

  /** Outside system calls GS is in its resting state. */
  lemma AtRest(a: seq<Task>, c: nat, nextId: nat, core: Core, loading: seq<Option<nat>>, p: Past)
    requires Good(a, c, nextId, core, loading, p)
    ensures c < |p.entry| && (!p.mixed ==> Sane(core, p.entry[c]))
  {
    hide TableOk, Suspended, Labels, Roots;
  }

  lemma TickStay(a: seq<Task>, b: seq<Task>, m: seq<Task>, c: nat, now: nat, v: nat, nextId: nat, core: Core,
                 loading: seq<Option<nat>>, p: Past)
    requires Good(a, c, nextId, core, loading, p) && b == Signalled(a, v) && c < |b| && NextStep(b, c, now, m, c)
    ensures m == b && Good(m, c, nextId, core, loading, p) && StepOk(a, c, m, c, now, Some(v))
  {
    hide Good, NextStep, StepOk, FairStep, WakeRule, Signalled, Goes;
    GoodBounds(a, c, nextId, core, loading, p);
    SignalGood(a, v, c, now, nextId, core, loading, p);
    GoodBounds(b, c, nextId, core, loading, p);
    NextTable(b, c, now, m, c);
    NotDue(b, c, now, m);
  }

  /** The current task steps aside: it is marked, no longer running. */
  ghost predicate Marked(a: seq<Task>, b: seq<Task>, c: nat) {
    && c < |a| == |b| && SameBut(a, b, c) && !b[c].state.Running? && (b[c].waitingIrq.Some? ==> b[c].state.Blocked?)
    && b[c] == a[c].(state := b[c].state, wakeAt := b[c].wakeAt, waitingIrq := b[c].waitingIrq)
  }

  lemma YieldStep(a: seq<Task>, b: seq<Task>, m: seq<Task>, e: seq<Task>, c: nat, next: nat, now: nat)
    requires Marked(a, b, c) && |m| == |a| == |e| && next < |a| && !a[c].state.Blocked?
    requires FairStep(b, c, m, next) && WakeRule(b, m, now, None) && Goes(b, c, now, next)
    requires forall i :: 0 <= i < |e| && i != c ==> e[i].state == m[i].state
    ensures StepOk(a, c, e, next, now, None) && Goes(a, c, now, next)
  {
    var x, y := Woken(a, now), Woken(b, now);
    assert forall i :: 0 <= i < |a| && i != c ==> x[i] == y[i];
  }

  /** What a mark becomes under `next`. */
  lemma MarkStays(b: seq<Task>, m: seq<Task>, c: nat, d: nat, now: nat)
    requires c < |b| && d != c && NextStep(b, c, now, m, d) && !b[c].state.Running? && !Due(b[c], now)
    ensures |m| == |b| && m[c] == b[c]
  {
    var w := Woken(b, now);
    assert w[c] == Wake(b[c], now);
  }

  lemma YieldSwitch(a: seq<Task>, b: seq<Task>, m: seq<Task>, from: nat, to: nat, now: nat, why: Resume, nextId: nat,
                    core: Core, k: Core, loading: seq<Option<nat>>, p: Past)
    requires Good(a, from, nextId, core, loading, p) && Marked(a, b, from) && to != from
    requires NextStep(b, from, now, m, to) && !a[from].state.Blocked? && !why.Plain? && !why.Ticked?
    requires !p.mixed && Sane(core, p.entry[from]) ==> k.gs.UserGs? && Own(why, p.entry[from])
    ensures |m| == |a| && to < |m| && from < |p.cut|
    ensures Good(Handed(m, from, why, to), to, nextId, Resumed(k, m[to]), loading, Left(p, from, why))
    ensures StepOk(a, from, Handed(m, from, why, to), to, now, None) && Goes(a, from, now, to)
    ensures !Due(b[from], now) ==> m[from] == b[from]
  {
    hide Good, NextStep, StepOk, Resumed, FairStep, WakeRule, Goes, Due;
    GoodBounds(a, from, nextId, core, loading, p);
    AtRest(a, from, nextId, core, loading, p);
    NextTable(b, from, now, m, to);
    NextFair(b, from, now, m, to);
    if !Due(b[from], now) { MarkStays(b, m, from, to, now); }
    SwitchGood(a, m, from, to, why, nextId, core, k, loading, p);
    YieldStep(a, b, m, Handed(m, from, why, to), from, to, now);
  }

  /** Without a switch only the marked task may have woken. */
  lemma StayTable(a: seq<Task>, b: seq<Task>, m: seq<Task>, c: nat, now: nat)
    requires Marked(a, b, c) && TableOk(a, c) && NextStep(b, c, now, m, c)
    ensures |m| == |b| && SameBut(b, m, c) && m[c] == b[c].(state := m[c].state) && (!Due(b[c], now) ==> m[c] == b[c])
  {
    hide NextStep, Goes, WakeRule;
    NextTable(b, c, now, m, c);
  }

  lemma YieldStay(a: seq<Task>, b: seq<Task>, m: seq<Task>, e: seq<Task>, c: nat, now: nat, nextId: nat, core: Core,
                  loading: seq<Option<nat>>, p: Past)
    requires Good(a, c, nextId, core, loading, p) && Marked(a, b, c) && NextStep(b, c, now, m, c)
    requires !a[c].state.Blocked? && |e| == |m| && SameBut(m, e, c) && c < |e|
    requires |m| == |b| ==> e[c] == a[c].(state := e[c].state, wakeAt := e[c].wakeAt, waitingIrq := e[c].waitingIrq)
    requires e[c].waitingIrq.None? && (e[c].state.Running? || (e[c].state.Dead? && !core.inside))
    ensures |m| == |a| && SameBut(a, e, c) && m[c] == b[c].(state := m[c].state)
    ensures Good(e, c, nextId, core, loading, p) && StepOk(a, c, e, c, now, None) && Goes(a, c, now, c)
  {
    hide Good, NextStep, StepOk, FairStep, WakeRule, Goes, Due;
    GoodBounds(a, c, nextId, core, loading, p);
    NextTable(b, c, now, m, c);
    NextFair(b, c, now, m, c);
    StayGood(a, e, c, nextId, core, loading, p);
    YieldStep(a, b, m, e, c, c, now);
  }

  // ---- new tasks ----------------------------------------------------------------------------------

  /** The first dead slot, or the end of the table. */
  function FirstDead(tasks: seq<Task>): (slot: nat)
    ensures slot <= |tasks| && (slot < |tasks| ==> tasks[slot].state.Dead?)
    ensures forall i :: 0 <= i < slot ==> !tasks[i].state.Dead?
  {
    if tasks == [] then 0
    else
      var n := |tasks| - 1;
      var k := FirstDead(tasks[..n]);
      if k < n then k else if tasks[n].state.Dead? then n else n + 1
  }

  ghost predicate Placed(a: seq<Task>, b: seq<Task>, slot: nat) {
    slot <= |a| && slot < |b| && b == if slot < |a| then a[slot := b[slot]] else a + [b[slot]]
  }

  /** What is known of a table of `n` tasks, one of them new. */
  ghost function SpawnPast(p: Past, n: nat): Past {
    if n <= |p.entry| then p else p.(entry := p.entry + [0], cut := p.cut + [false])
  }

  /** A new task's id is another task's too if and only if it is the first one given out and the boot
      task with that id is still in the table. */
  lemma SpawnLabels(a: seq<Task>, b: seq<Task>, slot: nat, id: nat)
    requires Labels(a, id) && Placed(a, b, slot) && b[slot].id == id
    requires forall i :: 0 <= i < |a| ==> a[i].kstack != b[slot].kstack
    ensures Labels(b, id + 1)
    ensures (exists i :: 0 <= i < |b| && i != slot && b[i].id == id) <==>
              id == FIRST_ID && exists i :: 0 <= i < |a| && i != slot && a[i].id == FIRST_ID
  {
    if j :| 0 <= j < |a| && j != slot && a[j].id == FIRST_ID { assert b[j] == a[j]; }
  }

  lemma SpawnStep(a: seq<Task>, b: seq<Task>, slot: nat, current: nat, now: nat)
    requires Placed(a, b, slot) && current < |a| && b[slot].state.Ready? && slot != current
    requires slot < |a| ==> a[slot].state.Dead?
    ensures StepOk(a, current, b, current, now, None)
  {
  }

  lemma SpawnShared(a: seq<Task>, b: seq<Task>, slot: nat, c: nat, core: Core, l: seq<Option<nat>>,
                    loading: seq<Option<nat>>, p: Past)
    requires TableOk(a, c) && Shared(a, c, core, p) && Suspended(a, p, c) && Roots(a, c, core.cr3, l, p.cut, p.torn)
    requires Placed(a, b, slot) && slot != c
    requires b[slot].state.Ready? && b[slot].resume.Fresh? && b[slot].waitingIrq.None?
    requires loading == if slot < |a| then l[slot := None] else l + [None]
    ensures var q := SpawnPast(p, |b|);
      TableOk(b, c) && Shared(b, c, core, q) && Suspended(b, q, c) && Roots(b, c, core.cr3, loading, q.cut, q.torn)
  {
  }

  lemma SpawnGood(a: seq<Task>, b: seq<Task>, slot: nat, c: nat, id: nat, core: Core, l: seq<Option<nat>>,
                  loading: seq<Option<nat>>, p: Past, now: nat)
    requires Good(a, c, id, core, l, p) && Placed(a, b, slot) && slot == FirstDead(a) && a[c].state.Running?
    requires b[slot] == Task(id, Ready, 0, None, core.cr3, b[slot].kstack, Fresh)
    requires forall i :: 0 <= i < |a| ==> a[i].kstack != b[slot].kstack
    requires |l| == |a| && loading == if slot < |a| then l[slot := None] else l + [None]
    ensures Good(b, c, id + 1, core, loading, SpawnPast(p, |b|)) && StepOk(a, c, b, c, now, None)
    ensures (exists i :: 0 <= i < |b| && i != slot && b[i].id == id) <==>
              id == FIRST_ID && exists i :: 0 <= i < |a| && i != slot && a[i].id == FIRST_ID
  {
    hide TableOk, Shared, Suspended, Roots, Labels, StepOk;
    GoodBounds(a, c, id, core, l, p);
    SpawnLabels(a, b, slot, id);
    SpawnStep(a, b, slot, c, now);
    SpawnShared(a, b, slot, c, core, l, loading, p);
  }

  /** The core after `syscall_entry`. */
  function Entered(core: Core, rsp: nat): Core {
    var k := core.(gs := Toggle(core.gs), intr := false, inside := true);
    if k.gs.KernelGs? then k.(userRsp := rsp) else k
  }
}
