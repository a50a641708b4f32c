/** Runs of the machine that go wrong, step by step from boot. */
module MachineWitness {
  import opened Scheduler
  import opened Machine

  /** A tick wakes nobody: whoever is blocked waits for some other interrupt than `vector`. */
  ghost predicate NobodyDue(tasks: seq<Task>, current: nat, vector: nat) {
    && current < |tasks|
    && forall i :: 0 <= i < |tasks| && tasks[i].state.Blocked? ==>
         tasks[i].waitingIrq.Some? && tasks[i].waitingIrq.value != vector
  }

  /** `next` goes to the task after the current one if that is ready. */
  lemma NextIs(a: seq<Task>, c: nat, now: nat, m: seq<Task>, d: nat)
    requires |a| >= 2 && c < |a| && NextStep(a, c, now, m, d) && a[Forward(c, 1, |a|)].state.Ready?
    requires forall i :: 0 <= i < |a| ==> !Due(a[i], now)
    ensures d == Forward(c, 1, |a|) && m == Switched(a, c, d)
  {
    var w, n := Woken(a, now), Forward(c, 1, |a|);
    assert w == a;
    assert w[n].state.Ready? && Dist(c, n, |a|) == 1 && n != c;
  }

  /** The table once `c`, now in state `s`, is suspended at `why`, and `d` runs. */
  ghost function After(t: seq<Task>, c: nat, s: TaskState, why: Resume, d: nat): seq<Task>
    requires c < |t| && d < |t|
  {
    t[c := t[c].(state := s, resume := why)][d := t[d].(state := Running, resume := Plain)]
  }

  /** A tick that switches to the next task. */
  method TickNext(cpu: Cpu, vector: nat)
    requires cpu.Valid() && cpu.core.intr && !cpu.core.inService && NobodyDue(cpu.tasks, cpu.current, vector)
    requires |cpu.tasks| >= 2 && cpu.tasks[cpu.current].state.Running?
    requires cpu.tasks[Forward(cpu.current, 1, |cpu.tasks|)].state.Ready?
    modifies cpu
    ensures cpu.Valid() && old(cpu.current) < |old(cpu.tasks)| == |cpu.tasks| && old(cpu.current) < |old(cpu.past).cut|
    ensures cpu.current == Forward(old(cpu.current), 1, |cpu.tasks|)
    ensures cpu.tasks == After(old(cpu.tasks), old(cpu.current), Ready, Ticked(old(cpu.core).inside), cpu.current)
    ensures cpu.core == Resumed(old(cpu.core).(intr := false, inService := true), old(cpu.tasks)[cpu.current])
    ensures cpu.past == Left(old(cpu.past), old(cpu.current), Ticked(old(cpu.core).inside))
    ensures cpu.loading == old(cpu.loading) && cpu.nextId == old(cpu.nextId)
  {
    hide Good, NextStep, StepOk;
    ghost var a, c := cpu.tasks, cpu.current;
    GoodBounds(a, c, cpu.nextId, cpu.core, cpu.loading, cpu.past);
    assert Signalled(a, vector) == a;
    ghost var m := cpu.Tick(vector);
    NextIs(a, c, cpu.now, m, cpu.current);
  }

  /** Outside system calls, with interrupts on, the timer acknowledged and GS at rest. */
  ghost predicate Calm(core: Core) {
    core.intr && !core.inService && !core.inside && core.gs.UserGs?
  }

  /** Where everybody but `c` goes on, as soon as it is their turn, outside system calls and with interrupts on. */
  ghost predicate Willing(tasks: seq<Task>, c: nat, n: nat) {
    && c < |tasks| && tasks[c].state.Running?
    && forall i :: 0 <= i < n <= |tasks| && i != c ==>
         tasks[i].state.Ready? && (tasks[i].resume.Fresh? || tasks[i].resume == Ticked(false))
  }

  /** Ticks from task to task while these go on willingly. */
  method TicksTo(cpu: Cpu, to: nat, vector: nat)
    requires cpu.Valid() && Calm(cpu.core) && cpu.current < to < |cpu.tasks|
    requires NobodyDue(cpu.tasks, cpu.current, vector) && Willing(cpu.tasks, cpu.current, to + 1)
    modifies cpu
    ensures cpu.Valid() && cpu.current == to && Calm(cpu.core) && cpu.core.started && |cpu.tasks| == |old(cpu.tasks)|
    ensures NobodyDue(cpu.tasks, to, vector) && Willing(cpu.tasks, to, to + 1) && cpu.core.cr3 == cpu.tasks[to].cr3
    ensures forall i :: to < i < |cpu.tasks| ==> cpu.tasks[i] == old(cpu.tasks)[i]
    ensures forall i :: 0 <= i < |cpu.tasks| ==>
      cpu.tasks[i].cr3 == old(cpu.tasks)[i].cr3 && cpu.tasks[i].kstack == old(cpu.tasks)[i].kstack
    ensures cpu.past.mixed == old(cpu.past).mixed && cpu.loading == old(cpu.loading)
  {
    hide Good;
    while cpu.current < to
      invariant cpu.Valid() && cpu.current <= to < |cpu.tasks| == |old(cpu.tasks)| && Calm(cpu.core)
      invariant cpu.current == to ==> cpu.core.started && cpu.core.cr3 == cpu.tasks[to].cr3
      invariant NobodyDue(cpu.tasks, cpu.current, vector) && Willing(cpu.tasks, cpu.current, to + 1)
      invariant forall i :: to < i < |cpu.tasks| ==> cpu.tasks[i] == old(cpu.tasks)[i]
      invariant forall i :: 0 <= i < |cpu.tasks| ==>
        cpu.tasks[i].cr3 == old(cpu.tasks)[i].cr3 && cpu.tasks[i].kstack == old(cpu.tasks)[i].kstack
      invariant cpu.past.mixed == old(cpu.past).mixed && cpu.loading == old(cpu.loading)
    {
      TickNext(cpu, vector);
    }
  }

  /** Task 4 enters a system call and waits there for an interrupt; task 0 goes on. */
  method Blocks(cpu: Cpu, rsp: nat, irq: nat, vector: nat)
    requires cpu.Valid() && Calm(cpu.core) && cpu.core.started && cpu.current == 4 && |cpu.tasks| == 5 && irq != vector
    requires Willing(cpu.tasks, 4, 5) && !cpu.past.mixed
    modifies cpu
    ensures cpu.Valid() && Calm(cpu.core) && cpu.current == 0 && |cpu.tasks| == 5
    ensures NobodyDue(cpu.tasks, 0, vector) && Willing(cpu.tasks, 0, 4) && !cpu.past.mixed
    ensures var t := cpu.tasks[4]; t.state.Blocked? && t.waitingIrq == Some(irq) && t.resume == AfterBlock(rsp)
  {
    hide Good, NextStep, StepOk, Goes;
    cpu.EnterRing3();
    var _ := cpu.SyscallEnter(rsp);
    ghost var a := cpu.tasks;
    ghost var m := cpu.BlockOnIrq(irq);
    ghost var b := a[4 := a[4].(waitingIrq := Some(irq), wakeAt := NEVER, state := Blocked)];
    NextIs(b, 4, cpu.now, m, cpu.current);
  }

  /** Task 3 exits with interrupts on just when the interrupt that task 4 waits for has come: task 4 goes on inside its
      system call with interrupts on, and the next tick takes GS along. */
  method ExitsInto(cpu: Cpu, rsp: nat, irq: nat, vector: nat)
    requires cpu.Valid() && Calm(cpu.core) && cpu.current == 3 && |cpu.tasks| == 5 && Willing(cpu.tasks, 3, 4)
    requires var t := cpu.tasks[4]; t.state.Blocked? && t.waitingIrq == Some(irq) && t.resume == AfterBlock(rsp)
    requires irq != vector && !cpu.past.mixed
    modifies cpu
    ensures cpu.Valid() && cpu.current == 4 && |cpu.tasks| == 5 && NobodyDue(cpu.tasks, 4, vector)
    ensures cpu.core.inside && cpu.core.intr && !cpu.core.inService && cpu.core.gs.KernelGs?
    ensures cpu.tasks[4].state.Running? && cpu.tasks[3].state.Dead? && cpu.tasks[0].state.Ready?
    ensures (cpu.tasks[0].resume.Fresh? || cpu.tasks[0].resume == Ticked(false)) && !cpu.past.mixed
  {
    hide Good, NextStep, StepOk, Goes;
    ghost var t := cpu.tasks;
    cpu.WakeIrqWaiters(irq);
    ghost var a := cpu.tasks;
    assert a[4].state.Ready? && a[4].resume == AfterBlock(rsp) && a[3] == t[3] && a[0] == t[0];
    ghost var m := cpu.ExitCurrent();
    NextIs(a[3 := a[3].(state := Dead)], 3, cpu.now, m, cpu.current);
  }

  /** Boot and two spawns. */
  method Booted(k: seq<nat>, bootStack: nat, root: nat) returns (cpu: Cpu)
    requires |k| == 5 && forall i, j :: 0 <= i < j < 5 ==> k[i] != k[j]
    ensures fresh(cpu) && cpu.Valid() && Calm(cpu.core) && cpu.current == 0 && |cpu.tasks| == 5 && !cpu.past.mixed
    ensures Willing(cpu.tasks, 0, 5) && forall i :: 0 <= i < 5 ==> !cpu.tasks[i].state.Blocked?
  {
    hide Good, StepOk;
    cpu := new Cpu(k[0], k[1], k[2], bootStack, root);
    var a := cpu.Spawn(k[3]);
    var b := cpu.Spawn(k[4]);
  }

  /** From boot: a driver waits for an interrupt inside its system call; a task that was spawned before it exits, as one
      whose bytes are no ELF file does, just after that interrupt; and the next tick leaves the kernel's
      GS to a task outside any system call. */
  method MixedRun(k: seq<nat>, bootStack: nat, root: nat, rsp: nat, irq: nat, vector: nat) returns (cpu: Cpu)
    requires |k| == 5 && (forall i, j :: 0 <= i < j < 5 ==> k[i] != k[j]) && irq != vector
    ensures fresh(cpu) && cpu.Valid() && cpu.core.gs.KernelGs? && !cpu.core.inside && cpu.core.intr && cpu.current == 0
    ensures cpu.past.mixed && |cpu.tasks| == 5 && cpu.tasks[4].resume == Ticked(true)
  {
    hide Good;
    cpu := Booted(k, bootStack, root);
    TicksTo(cpu, 4, vector);
    Blocks(cpu, rsp, irq, vector);
    TicksTo(cpu, 3, vector);
    ExitsInto(cpu, rsp, irq, vector);
    TickNext(cpu, vector);
  }

  /** Boot, a spawn and three ticks: task 3 starts. */
  method Started(k: seq<nat>, bootStack: nat, root: nat, vector: nat) returns (cpu: Cpu)
    requires |k| == 5 && forall i, j :: 0 <= i < j < 5 ==> k[i] != k[j]
    ensures fresh(cpu) && cpu.Valid() && Calm(cpu.core) && cpu.core.started && cpu.current == 3 && |cpu.tasks| == 4
    ensures NobodyDue(cpu.tasks, 3, vector) && Willing(cpu.tasks, 3, 4) && cpu.loading == [None, None, None, None]
    ensures forall i :: 0 <= i < 4 ==> cpu.tasks[i].cr3 == root && cpu.tasks[i].kstack != k[4]
  {
    hide Good, StepOk;
    cpu := new Cpu(k[0], k[1], k[2], bootStack, root);
    var slot := cpu.Spawn(k[3]);
    TicksTo(cpu, 3, vector);
  }

  /** From boot: task 3 loads a root of its own, is preempted once around the table, and only then records it:
      from then on it runs in its old address space under the new one's name. */
  method TornRun(k: seq<nat>, bootStack: nat, root: nat, own: nat, vector: nat) returns (cpu: Cpu)
    requires |k| == 5 && (forall i, j :: 0 <= i < j < 5 ==> k[i] != k[j]) && own != root
    ensures fresh(cpu) && cpu.Valid() && cpu.current == 3 && |cpu.tasks| == 4 && cpu.loading == [None, None, None, None]
    ensures cpu.core.cr3 == root && cpu.tasks[3].cr3 == own
  {
    hide Good;
    cpu := Started(k, bootStack, root, vector);
    cpu.LoadCr3(own);
    TickNext(cpu, vector);
    TicksTo(cpu, 3, vector);
    cpu.RecordCr3();
  }

  /** Task 3 goes to a root of its own and, inside a system call, spawns task 4. */
  method SpawnsInside(cpu: Cpu, own: nat, rsp: nat, kstack: nat)
    requires cpu.Valid() && Calm(cpu.core) && cpu.core.started && cpu.current == 3 && |cpu.tasks| == 4
    requires Willing(cpu.tasks, 3, 4) && cpu.loading == [None, None, None, None]
    requires forall i :: 0 <= i < 4 ==> cpu.tasks[i].kstack != kstack
    modifies cpu
    ensures cpu.Valid() && cpu.core.inside && cpu.current == 3 && |cpu.tasks| == 5 == |cpu.loading|
    ensures cpu.loading[3].None? && Willing(cpu.tasks, 3, 5) && cpu.tasks[4].cr3 == own
  {
    hide Good, StepOk;
    cpu.LoadCr3(own);
    cpu.RecordCr3();
    cpu.EnterRing3();
    var _ := cpu.SyscallEnter(rsp);
    var slot := cpu.Spawn(kstack);
  }

  /** From boot: a process spawns a task inside a system call, leaves, goes back to the root it came from, as it does
      before it frees its own, and exits.  The task starts on the root that is freed by then. */
  method HeirRun(k: seq<nat>, bootStack: nat, root: nat, own: nat, rsp: nat, vector: nat) returns (cpu: Cpu)
    requires |k| == 5 && (forall i, j :: 0 <= i < j < 5 ==> k[i] != k[j]) && own != root
    ensures fresh(cpu) && cpu.Valid() && cpu.current == 4 && |cpu.tasks| == 5 && cpu.tasks[4].state.Running?
    ensures cpu.core.cr3 == cpu.tasks[4].cr3 == own && cpu.tasks[3].state.Dead? && cpu.tasks[3].cr3 == root
  {
    hide Good, StepOk, NextStep, Goes;
    cpu := Started(k, bootStack, root, vector);
    SpawnsInside(cpu, own, rsp, k[4]);
    cpu.DoExit();
    cpu.LoadCr3(root);
    cpu.RecordCr3();
    ghost var a := cpu.tasks;
    ghost var m := cpu.ExitCurrent();
    NextIs(a[3 := a[3].(state := Dead)], 3, cpu.now, m, cpu.current);
  }

  /** The first task spawned after boot gets the id of the third boot task. */
  method FirstSpawn(k0: nat, k1: nat, k2: nat, k3: nat, bootStack: nat, root: nat) returns (cpu: Cpu)
    requires k0 != k1 && k0 != k2 && k1 != k2 && k3 != k0 && k3 != k1 && k3 != k2
    ensures fresh(cpu) && cpu.Valid() && |cpu.tasks| == 4 && cpu.tasks[3].id == cpu.tasks[2].id
    ensures !cpu.tasks[2].state.Dead?
  {
    cpu := new Cpu(k0, k1, k2, bootStack, root);
    var slot := cpu.Spawn(k3);
  }
}
