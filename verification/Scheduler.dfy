/** The round-robin scheduler: which task `next` picks, and why no ready task starves. */
module Scheduler {

  datatype Option<+T> = None | Some(value: T)

  datatype TaskState = Running | Ready | Blocked | Dead

  /** Where a suspended task goes on: at its start, in the timer interrupt that preempted it (inside a system
      call or not), in `sleep_ms`, or in `block_on_irq` with the user stack pointer it saved there.  The
      current task is in none of these. */
  datatype Resume = Plain | Fresh | Ticked(inside: bool) | Slept | AfterBlock(savedRsp: nat)

  datatype Task = Task(id: nat, state: TaskState, wakeAt: nat, waitingIrq: Option<nat>, cr3: nat, kstack: nat,
    resume: Resume)

  const NEVER: nat := 0xFFFF_FFFF_FFFF_FFFF

  /** A sleeper whose time has come; a task waiting for an interrupt never is. */
  predicate Due(t: Task, now: nat) {
    t.state.Blocked? && t.waitingIrq.None? && now >= t.wakeAt
  }

  function Wake(t: Task, now: nat): Task {
    if Due(t, now) then t.(state := Ready) else t
  }

  /** The table once expired sleeps are over. */
  function Woken(tasks: seq<Task>, now: nat): (w: seq<Task>)
    ensures |w| == |tasks| && forall i :: 0 <= i < |tasks| ==> w[i] == Wake(tasks[i], now)
  {
    seq(|tasks|, i requires 0 <= i < |tasks| => Wake(tasks[i], now))
  }

  /** `d` steps forward from `c` around a table of `n`. */
  function Forward(c: nat, d: nat, n: nat): (t: nat)
    requires c < n && d <= n
    ensures t < n
  {
    if c + d < n then c + d else c + d - n
  }

  /** Steps from `c` forward around a table of `n` to reach `t`, between 1 and `n`. */
  function Dist(c: nat, t: nat, n: nat): (d: nat)
    requires c < n && t < n
    ensures 1 <= d <= n && Forward(c, d, n) == t
  {
    if t > c then t - c else t + n - c
  }

  /** `r` is the first ready task after `c`, going around; `None` if only `c` itself is ready, or none. */
  ghost predicate Picked(tasks: seq<Task>, c: nat, r: Option<nat>)
    requires c < |tasks|
  {
    match r
    case None => forall j :: 0 <= j < |tasks| && j != c ==> !tasks[j].state.Ready?
    case Some(t) =>
      && t < |tasks| && t != c && tasks[t].state.Ready?
      && forall j :: 0 <= j < |tasks| && Dist(c, j, |tasks|) < Dist(c, t, |tasks|) ==> !tasks[j].state.Ready?
  }

  /** At most one task runs, and it is the current one; only blocked tasks wait for interrupts. */
  ghost predicate TableOk(tasks: seq<Task>, current: nat) {
    && current < |tasks|
    && (tasks[current].state.Running? || tasks[current].state.Dead?)
    && (forall i :: 0 <= i < |tasks| && tasks[i].state.Running? ==> i == current)
    && (forall i :: 0 <= i < |tasks| && tasks[i].waitingIrq.Some? ==> tasks[i].state.Blocked?)
  }

  method WakeSleepers(tasks: seq<Task>, now: nat) returns (out: seq<Task>)
    ensures out == Woken(tasks, now)
  {
    out := tasks;
    var i := 0;
    while i < |out|
      invariant 0 <= i <= |out| == |tasks|
      invariant forall j :: 0 <= j < |tasks| ==> out[j] == if j < i then Wake(tasks[j], now) else tasks[j]
    {
      if out[i].state.Blocked? && out[i].waitingIrq.None? && now >= out[i].wakeAt {
        out := out[i := out[i].(state := Ready)];
      }
      i := i + 1;
    }
  }

  lemma Wrap(x: nat, n: nat)
    requires x < n
    ensures (x + 1) % n == if x + 1 == n then 0 else x + 1
  {
    if x + 1 == n { assert (x + 1) % n == 0; } else { assert (x + 1) % n == x + 1; }
  }

  /** The scan of `next`: from the task after `current`, around the table once. */
  method Scan(tasks: seq<Task>, current: nat) returns (r: Option<nat>)
    requires |tasks| >= 2 && current < |tasks|
    ensures Picked(tasks, current, r)
  {
    var n := |tasks|;
    Wrap(current, n);
    var next := (current + 1) % n;
    var k := 1;
    while k <= n && !tasks[next].state.Ready?
      invariant 1 <= k <= n + 1 && next == Forward(current, if k <= n then k else 1, n)
      invariant forall j :: 0 <= j < n && Dist(current, j, n) < k ==> !tasks[j].state.Ready?
    {
      Wrap(next, n);
      next := (next + 1) % n;
      k := k + 1;
    }
    if !tasks[next].state.Ready? { return None; }
    if next == current { return None; }
    r := Some(next);
  }
}
