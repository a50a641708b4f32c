/** What holds of every run of the machine, what does not, and exactly when. */
module MachineFacts {
  import opened Scheduler
  import opened Machine
  import opened MachineRuns

  // ---- switches ------------------------------------------------------------------------------

  predicate MaySwitch(ev: Event) { ev.EvTick? || ev.EvSleep? || ev.EvExit? || ev.EvWaitIrq? }

  /** Where the current task stays suspended if event `ev` switches away from it. */
  function Why(a: Snap, ev: Event): Resume {
    if ev.EvTick? then Ticked(a.core.inside) else if ev.EvWaitIrq? then AfterBlock(a.core.userRsp) else Slept
  }

  /** The core at that switch: interrupts are off in the timer interrupt, and `block_on_irq` has put GS back. */
  function AtSwitch(a: Snap, ev: Event): Core {
    if ev.EvTick? then a.core.(intr := false, inService := true) else if ev.EvWaitIrq? then Resting(a.core) else a.core
  }

  /** What an event that may switch does apart from states. */
  ghost predicate Moves(a: Snap, ev: Event, b: Snap) {
    && a.current < |a.tasks| == |b.tasks| && b.current < |b.tasks| && a.current < |a.past.cut|
    && b.loading == a.loading && (forall i :: 0 <= i < |a.tasks| ==> b.tasks[i].cr3 == a.tasks[i].cr3)
    && if b.current == a.current then b.core == a.core && b.past == a.past
       else && !a.tasks[b.current].state.Dead? && b.core == Resumed(AtSwitch(a, ev), a.tasks[b.current])
            && b.past == Left(a.past, a.current, Why(a, ev))
  }

  lemma NextMoves(a: Snap, t: seq<Task>, now: nat, m: seq<Task>, b: Snap, why: Resume, k: Core)
    requires Fine(a) && |t| == |a.tasks| && a.current < |t| && NextStep(t, a.current, now, m, b.current)
    requires Alike(a.tasks, t, a.current)
    requires forall i :: 0 <= i < |t| && t[i].state.Running? ==> i == a.current
    requires forall i :: 0 <= i < |t| && t[i].waitingIrq.Some? ==> t[i].state.Blocked?
    ensures |m| == |t| && b.current < |m| && forall i :: 0 <= i < |m| ==> m[i].cr3 == a.tasks[i].cr3
    ensures b.current != a.current ==>
      !a.tasks[b.current].state.Dead? && Resumed(k, m[b.current]) == Resumed(k, a.tasks[b.current])
  {
    hide Good, NextStep, Goes, WakeRule;
    NextTable(t, a.current, now, m, b.current);
  }

  lemma Marks(a: Snap, mark: Task)
    requires Fine(a) && a.current < |a.tasks| && !mark.state.Running? && (mark.waitingIrq.Some? ==> mark.state.Blocked?)
    requires var t := a.tasks[a.current];
             mark == t.(state := mark.state, wakeAt := mark.wakeAt, waitingIrq := mark.waitingIrq)
    ensures var t := a.tasks[a.current := mark];
      && Alike(a.tasks, t, a.current)
      && (forall i :: 0 <= i < |t| && t[i].state.Running? ==> i == a.current)
      && (forall i :: 0 <= i < |t| && t[i].waitingIrq.Some? ==> t[i].state.Blocked?)
  {
    hide Shared, Suspended, Labels, Roots;
  }

  lemma TickMoves(a: Snap, b: Snap, timerVector: nat, m: seq<Task>)
    requires Fine(a) && Ticks(a, b, timerVector, m)
    ensures Moves(a, EvTick, b)
  {
    hide Good, NextStep, Resumed;
    SignalGood(a.tasks, timerVector, a.current, b.now, a.nextId, a.core, a.loading, a.past);
    GoodBounds(Signalled(a.tasks, timerVector), a.current, a.nextId, a.core, a.loading, a.past);
    NextMoves(a, Signalled(a.tasks, timerVector), b.now, m, b, Ticked(a.core.inside), AtSwitch(a, EvTick));
  }

  lemma YieldMoves(a: Snap, ev: Event, mark: Task, b: Snap, m: seq<Task>)
    requires Fine(a) && Yields(a, mark, Why(a, ev), AtSwitch(a, ev), b, m)
    requires !mark.state.Running? && (mark.waitingIrq.Some? ==> mark.state.Blocked?)
    requires var t := a.tasks[a.current];
             mark == t.(state := mark.state, wakeAt := mark.wakeAt, waitingIrq := mark.waitingIrq)
    requires b.current == a.current ==>
      b.tasks == m || (|b.tasks| == |a.tasks| && forall i :: 0 <= i < |a.tasks| ==> b.tasks[i].cr3 == a.tasks[i].cr3)
    ensures Moves(a, ev, b)
  {
    hide Good, NextStep, Resumed;
    FineBounds(a);
    Marks(a, mark);
    NextMoves(a, a.tasks[a.current := mark], a.now, m, b, Why(a, ev), AtSwitch(a, ev));
  }

  lemma SwitchMoves(a: Snap, ev: Event, b: Snap, timerVector: nat)
    requires Fine(a) && Happens(a, ev, b, timerVector) && b.delivered && MaySwitch(ev)
    ensures Moves(a, ev, b)
  {
    hide Good, NextStep, Resumed, Moves;
    FineBounds(a);
    GoodBounds(a.tasks, a.current, a.nextId, a.core, a.loading, a.past);
    var t := a.tasks[a.current];
    match ev
    case EvTick =>
      var m :| Ticks(a, b, timerVector, m);
      TickMoves(a, b, timerVector, m);
    case EvSleep(ms) =>
      var m :| Yields(a, Asleep(t, a.now, ms), Slept, a.core, b, m);
      YieldMoves(a, ev, Asleep(t, a.now, ms), b, m);
    case EvExit =>
      var m :| Yields(a, Gone(t), Slept, a.core, b, m) && (b.current == a.current ==> b.tasks == m);
      YieldMoves(a, ev, Gone(t), b, m);
    case EvWaitIrq(v) =>
      var m :| Yields(a, Waiting(t, v), AfterBlock(a.core.userRsp), Resting(a.core), b, m);
      YieldMoves(a, ev, Waiting(t, v), b, m);
    case _ =>
  }

  // ---- GS and user_rsp ------------------------------------------------------------------------

  /** GS is the kernel's exactly inside a system call, and there `user_rsp` is the current task's. */
  ghost predicate SaneSnap(a: Snap) {
    a.current < |a.past.entry| && Sane(a.core, a.past.entry[a.current])
  }

  /** Event `ev` is a tick that switches away from inside a system call. */
  ghost predicate Mixes(a: Snap, ev: Event, b: Snap) {
    ev.EvTick? && b.delivered && a.core.inside && b.current != a.current
  }

  lemma MixedStep(a: Snap, ev: Event, b: Snap, timerVector: nat)
    requires Fine(a) && Happens(a, ev, b, timerVector)
    ensures b.past.mixed <==> a.past.mixed || Mixes(a, ev, b)
  {
    hide Good, NextStep, Resumed, FirstDead, Placed, Signalled;
    if b.delivered && MaySwitch(ev) { SwitchMoves(a, ev, b, timerVector); }
  }

  lemma MixesSnap(a: Snap, ev: Event, b: Snap, timerVector: nat)
    requires Fine(a) && Happens(a, ev, b, timerVector) && Mixes(a, ev, b) && !a.past.mixed
    ensures !SaneSnap(b)
  {
    hide NextStep, Resumed, TableOk, Labels, Roots;
    SwitchMoves(a, ev, b, timerVector);
    MixesUp(a.tasks[b.current], AtSwitch(a, ev), a.past.entry[b.current]);
  }

  lemma UnmixedSane(a: Snap)
    requires Fine(a) && !a.past.mixed
    ensures SaneSnap(a)
  {
    hide TableOk, Suspended, Labels, Roots;
  }

  /** Some event before `n` mixes up. */
  ghost predicate MixedBy(trace: seq<Snap>, events: seq<Event>, n: nat)
    requires |trace| == |events| + 1 && n < |trace|
  {
    exists i :: 0 <= i < n && Mixes(trace[i], events[i], trace[i + 1])
  }

  lemma {:induction false} MixedIs(trace: seq<Snap>, events: seq<Event>, timerVector: nat, n: nat)
    requires IsRun(trace, events, timerVector) && n < |trace| && !trace[0].past.mixed
    ensures trace[n].past.mixed <==> MixedBy(trace, events, n)
  {
    hide Good, Happens, Mixes;
    if n > 0 {
      MixedIs(trace, events, timerVector, n - 1);
      MixedStep(trace[n - 1], events[n - 1], trace[n], timerVector);
    }
  }

  /** In every run: GS and `user_rsp` are the current task's throughout if and only if no tick switches away from
      inside a system call. */
  lemma AlwaysSane(trace: seq<Snap>, events: seq<Event>, timerVector: nat)
    requires IsRun(trace, events, timerVector) && !trace[0].past.mixed
    ensures (forall n :: 0 <= n < |trace| ==> SaneSnap(trace[n])) <==>
              (forall i :: 0 <= i < |events| ==> !Mixes(trace[i], events[i], trace[i + 1]))
  {
    hide Good, Happens, Mixes, SaneSnap;
    if forall i :: 0 <= i < |events| ==> !Mixes(trace[i], events[i], trace[i + 1]) {
      forall n | 0 <= n < |trace| ensures SaneSnap(trace[n]) {
        MixedIs(trace, events, timerVector, n);
        UnmixedSane(trace[n]);
      }
    } else {
      var i := FirstMixing(trace, events, |events|);
      MixedIs(trace, events, timerVector, i);
      MixesSnap(trace[i], events[i], trace[i + 1], timerVector);
    }
  }

  lemma {:induction false} FirstMixing(trace: seq<Snap>, events: seq<Event>, n: nat) returns (i: nat)
    requires |trace| == |events| + 1 && n < |trace| && MixedBy(trace, events, n)
    ensures i < n && Mixes(trace[i], events[i], trace[i + 1]) && !MixedBy(trace, events, i)
  {
    hide Mixes;
    if MixedBy(trace, events, n - 1) { i := FirstMixing(trace, events, n - 1); } else { i := n - 1; }
  }

  ghost predicate WaitsFor(t: Task, vector: nat) { t.state == Blocked && t.waitingIrq == Some(vector) }

  /** When a tick does that, read off the state before it: inside a system call, with interrupts on and the timer
      acknowledged, while another task is ready once the tick has woken whom it wakes. */
  lemma MixesIff(a: Snap, b: Snap, timerVector: nat)
    requires Fine(a) && Happens(a, EvTick, b, timerVector)
    ensures Mixes(a, EvTick, b) <==>
      && a.core.inside && a.core.intr && !a.core.inService
      && exists j :: 0 <= j < |a.tasks| && j != a.current &&
                     (CanRun(a.tasks[j], a.now + 1) || WaitsFor(a.tasks[j], timerVector))
  {
    hide Good, NextStep, Resumed, Goes;
    FineBounds(a);
    if b.delivered {
      var s := Signalled(a.tasks, timerVector);
      var m :| Ticks(a, b, timerVector, m);
      SignalGood(a.tasks, timerVector, a.current, b.now, a.nextId, a.core, a.loading, a.past);
      GoodBounds(s, a.current, a.nextId, a.core, a.loading, a.past);
      NextTable(s, a.current, b.now, m, b.current);
      SwitchIff(s, a.current, b.now, b.current);
      assert forall j :: 0 <= j < |a.tasks| ==> s[j] == Signal(a.tasks[j], timerVector);
      assert forall j :: 0 <= j < |a.tasks| ==>
        (CanRun(s[j], b.now) <==> CanRun(a.tasks[j], b.now) || WaitsFor(a.tasks[j], timerVector));
    }
  }

  // ---- interrupts on inside a system call -----------------------------------------------------

  /** A switch, made with interrupts on, to a task suspended in a system call. */
  ghost predicate HotSwitch(a: Snap, ev: Event, b: Snap) {
    && b.current != a.current && !ev.EvTick? && a.core.intr
    && b.current < |a.tasks| && a.tasks[b.current].resume.AfterBlock?
  }

  /** The current task is in a system call in which its latest resumption was such a switch. */
  ghost predicate HotAt(trace: seq<Snap>, events: seq<Event>, n: nat)
    requires |trace| == |events| + 1 && n < |trace|
  {
    if n == 0 then trace[0].core.inside && trace[0].core.intr
    else
      var a, ev, b := trace[n - 1], events[n - 1], trace[n];
      if b.current != a.current then HotSwitch(a, ev, b)
      else HotAt(trace, events, n - 1) && !(b.delivered && (ev.EvReturn? || ev.EvLeave?))
  }

  ghost predicate Hot(a: Snap) { a.core.inside && a.core.intr }

  lemma HotStep(a: Snap, ev: Event, b: Snap, timerVector: nat)
    requires Fine(a) && Happens(a, ev, b, timerVector) && !a.past.mixed && !Mixes(a, ev, b)
    ensures Hot(b) <==>
      if b.current != a.current then HotSwitch(a, ev, b) else Hot(a) && !(b.delivered && (ev.EvReturn? || ev.EvLeave?))
  {
    hide NextStep, TableOk, Labels, Roots, Shared, FirstDead, Placed, Signalled;
    if b.delivered && MaySwitch(ev) {
      SwitchMoves(a, ev, b, timerVector);
    }
  }

  /** In a run without a mix-up so far, interrupts are on inside a system call if and only if the current task was
      last resumed there by a switch that another task made with interrupts on. */
  lemma {:induction false} HotIs(trace: seq<Snap>, events: seq<Event>, timerVector: nat, n: nat)
    requires IsRun(trace, events, timerVector) && n < |trace| && !trace[0].past.mixed && !MixedBy(trace, events, n)
    ensures Hot(trace[n]) <==> HotAt(trace, events, n)
  {
    hide Good, Happens, Mixes, HotSwitch;
    if n > 0 {
      HotIs(trace, events, timerVector, n - 1);
      MixedIs(trace, events, timerVector, n - 1);
      HotStep(trace[n - 1], events[n - 1], trace[n], timerVector);
    }
  }

  lemma {:induction false} ColdStays(trace: seq<Snap>, events: seq<Event>, n: nat)
    requires |trace| == |events| + 1 && n < |trace| && !Hot(trace[0])
    requires forall i :: 0 <= i < n ==> !HotSwitch(trace[i], events[i], trace[i + 1])
    ensures !HotAt(trace, events, n)
  {
    hide HotSwitch;
    if n > 0 { ColdStays(trace, events, n - 1); }
  }

  /** So a run in which nobody resumes a blocked system call with interrupts on keeps GS and `user_rsp` right. */
  lemma {:induction false} ColdRun(trace: seq<Snap>, events: seq<Event>, timerVector: nat, n: nat)
    requires IsRun(trace, events, timerVector) && n < |trace| && !trace[0].past.mixed && !Hot(trace[0])
    requires forall i :: 0 <= i < |events| ==> !HotSwitch(trace[i], events[i], trace[i + 1])
    ensures !MixedBy(trace, events, n)
  {
    hide Good, HotSwitch, Effect;
    if n > 0 {
      ColdRun(trace, events, timerVector, n - 1);
      HotIs(trace, events, timerVector, n - 1);
      ColdStays(trace, events, n - 1);
      assert Happens(trace[n - 1], events[n - 1], trace[n], timerVector);
    }
  }

  // ---- the stack pointer a task gets back -----------------------------------------------------

  /** What task `c` last entered a system call with, read off the events: the latest entry delivered
      while it was current, or what was put away for it before the run. */
  ghost function EntryAt(trace: seq<Snap>, events: seq<Event>, n: nat, c: nat): nat
    requires |trace| == |events| + 1 && n < |trace|
  {
    if n == 0 then (if c < |trace[0].past.entry| then trace[0].past.entry[c] else 0)
    else if events[n - 1].EvEnter? && trace[n].delivered && trace[n - 1].current == c then events[n - 1].rsp
    else EntryAt(trace, events, n - 1, c)
  }

  /** Only a system call entry changes the stack pointer put away for a task, its own. */
  lemma EntryStep(a: Snap, ev: Event, b: Snap, timerVector: nat, c: nat)
    requires Fine(a) && Happens(a, ev, b, timerVector)
    ensures (if c < |b.past.entry| then b.past.entry[c] else 0) ==
              if ev.EvEnter? && b.delivered && c == a.current then ev.rsp
              else if c < |a.past.entry| then a.past.entry[c] else 0
  {
    hide Good, NextStep, Resumed, FirstDead, Placed, Signalled;
    if b.delivered && MaySwitch(ev) { SwitchMoves(a, ev, b, timerVector); }
  }

  lemma {:induction false} EntryIs(trace: seq<Snap>, events: seq<Event>, timerVector: nat, n: nat, c: nat)
    requires IsRun(trace, events, timerVector) && n < |trace|
    ensures EntryAt(trace, events, n, c) == if c < |trace[n].past.entry| then trace[n].past.entry[c] else 0
  {
    hide Good, Happens;
    if n > 0 {
      EntryIs(trace, events, timerVector, n - 1, c);
      EntryStep(trace[n - 1], events[n - 1], trace[n], timerVector, c);
    }
  }

  /** In every run: a return from a system call is possible exactly inside one, and, unless a tick has switched away
      from inside a system call before, hands the task the stack pointer of its own latest entry, however many
      other tasks entered, blocked and returned in between. */
  lemma ReturnsOwn(trace: seq<Snap>, events: seq<Event>, timerVector: nat, i: nat)
    requires IsRun(trace, events, timerVector) && i < |events| && events[i].EvReturn? && !trace[0].past.mixed
    ensures trace[i + 1].delivered <==> trace[i].core.inside
    ensures trace[i + 1].delivered && !MixedBy(trace, events, i) ==>
              trace[i + 1].ret == Some(EntryAt(trace, events, i, trace[i].current))
  {
    hide Good;
    assert Happens(trace[i], events[i], trace[i + 1], timerVector);
    EntryIs(trace, events, timerVector, i, trace[i].current);
    MixedIs(trace, events, timerVector, i);
    if !trace[i].past.mixed { UnmixedSane(trace[i]); }
  }

  // ---- CR3 -----------------------------------------------------------------------------------

  /** Task `c` has been switched away from since it last loaded a root. */
  ghost predicate CutAt(trace: seq<Snap>, events: seq<Event>, n: nat, c: nat)
    requires |trace| == |events| + 1 && n < |trace|
  {
    if n == 0 then c < |trace[0].past.cut| && trace[0].past.cut[c]
    else
      && !(events[n - 1].EvLoadCr3? && trace[n].delivered && trace[n - 1].current == c)
      && (CutAt(trace, events, n - 1, c) || (trace[n - 1].current == c && trace[n].current != c))
  }

  /** Event `i` records a root late: another one than the task had, after a switch away. */
  ghost predicate LateRecord(trace: seq<Snap>, events: seq<Event>, i: nat)
    requires |trace| == |events| + 1 && i < |events|
  {
    var a := trace[i];
    && events[i].EvRecordCr3? && trace[i + 1].delivered
    && a.current < |a.tasks| == |a.loading| && a.loading[a.current].Some?
    && CutAt(trace, events, i, a.current) && a.tasks[a.current].cr3 != a.loading[a.current].value
  }

  /** The current task's latest record of a root came late, and no switch or load has followed. */
  ghost predicate TornAt(trace: seq<Snap>, events: seq<Event>, n: nat)
    requires |trace| == |events| + 1 && n < |trace|
  {
    if n == 0 then trace[0].past.torn
    else
      && trace[n].current == trace[n - 1].current
      && if events[n - 1].EvRecordCr3? && trace[n].delivered then LateRecord(trace, events, n - 1)
         else TornAt(trace, events, n - 1) && !(events[n - 1].EvLoadCr3? && trace[n].delivered)
  }

  lemma CutStep(a: Snap, ev: Event, b: Snap, timerVector: nat, c: nat)
    requires Fine(a) && Happens(a, ev, b, timerVector)
    ensures c < |b.past.cut| && b.past.cut[c] <==>
      && !(ev.EvLoadCr3? && b.delivered && a.current == c)
      && ((c < |a.past.cut| && a.past.cut[c]) || (a.current == c && b.current != c))
  {
    hide Good, NextStep, Resumed, FirstDead, Placed, Signalled;
    if b.delivered && MaySwitch(ev) { SwitchMoves(a, ev, b, timerVector); }
  }

  lemma TornStep(a: Snap, ev: Event, b: Snap, timerVector: nat)
    requires Fine(a) && Happens(a, ev, b, timerVector)
    ensures ev.EvRecordCr3? && b.delivered ==>
      && a.current < |a.tasks| == |a.loading| == |b.loading| == |a.past.cut| && a.loading[a.current].Some?
      && b.current == a.current && b.loading[a.current].None?
      && (b.past.torn <==> a.past.cut[a.current] && a.tasks[a.current].cr3 != a.loading[a.current].value)
    ensures !(ev.EvRecordCr3? && b.delivered) ==>
      (b.past.torn <==> b.current == a.current && a.past.torn && !(ev.EvLoadCr3? && b.delivered))
  {
    hide NextStep, Resumed, FirstDead, Placed, Signalled, TableOk, Shared, Suspended, Labels;
    if b.delivered && MaySwitch(ev) { SwitchMoves(a, ev, b, timerVector); }
  }

  lemma {:induction false} CutIs(trace: seq<Snap>, events: seq<Event>, timerVector: nat, n: nat, c: nat)
    requires IsRun(trace, events, timerVector) && n < |trace|
    ensures CutAt(trace, events, n, c) <==> c < |trace[n].past.cut| && trace[n].past.cut[c]
  {
    hide Good, Happens;
    if n > 0 {
      CutIs(trace, events, timerVector, n - 1, c);
      CutStep(trace[n - 1], events[n - 1], trace[n], timerVector, c);
    }
  }

  lemma {:induction false} TornIs(trace: seq<Snap>, events: seq<Event>, timerVector: nat, n: nat)
    requires IsRun(trace, events, timerVector) && n < |trace|
    ensures TornAt(trace, events, n) <==> trace[n].past.torn
  {
    hide Good, Happens;
    if n > 0 {
      TornIs(trace, events, timerVector, n - 1);
      CutIs(trace, events, timerVector, n - 1, trace[n - 1].current);
      TornStep(trace[n - 1], events[n - 1], trace[n], timerVector);
    }
  }

  /** The current task runs in its own address space, unless it is between its two stores. */
  ghost predicate OwnSpace(a: Snap) {
    a.current < |a.tasks| == |a.loading| && (a.loading[a.current].None? ==> a.core.cr3 == a.tasks[a.current].cr3)
  }

  lemma RootsSnap(a: Snap)
    requires Fine(a)
    ensures a.current < |a.tasks| == |a.loading|
    ensures a.loading[a.current].None? ==> (a.core.cr3 == a.tasks[a.current].cr3 <==> !a.past.torn)
    ensures a.loading[a.current].Some? ==> !a.past.torn
  {
    hide TableOk, Shared, Suspended, Labels;
  }

  /** In every run and at every point where the current task is not between loading a root and recording
      it: the live CR3 is the task's own if and only if its latest record did not come late. */
  lemma Cr3Iff(trace: seq<Snap>, events: seq<Event>, timerVector: nat, n: nat)
    requires IsRun(trace, events, timerVector) && n < |trace|
    ensures trace[n].current < |trace[n].tasks| == |trace[n].loading|
    ensures OwnSpace(trace[n]) <==> !TornAt(trace, events, n)
  {
    hide Good, Happens;
    RootsSnap(trace[n]);
    TornIs(trace, events, timerVector, n);
  }

  /** A whole run is free of mix-ups of address spaces if and only if no root is recorded late in it; in particular
      it is if no task is switched away from between its two stores. */
  lemma AlwaysOwn(trace: seq<Snap>, events: seq<Event>, timerVector: nat)
    requires IsRun(trace, events, timerVector) && !trace[0].past.torn
    ensures (forall n :: 0 <= n < |trace| ==> OwnSpace(trace[n])) <==>
              (forall i :: 0 <= i < |events| ==> !LateRecord(trace, events, i))
  {
    hide Good, Happens, LateRecord, TornAt, OwnSpace;
    if forall i :: 0 <= i < |events| ==> !LateRecord(trace, events, i) {
      forall n | 0 <= n < |trace| ensures OwnSpace(trace[n]) {
        NeverTorn(trace, events, n);
        Cr3Iff(trace, events, timerVector, n);
      }
    }
    forall i | 0 <= i < |events| && LateRecord(trace, events, i) ensures !OwnSpace(trace[i + 1]) {
      LateTears(trace, events, timerVector, i);
      Cr3Iff(trace, events, timerVector, i + 1);
    }
  }

  lemma LateTears(trace: seq<Snap>, events: seq<Event>, timerVector: nat, i: nat)
    requires IsRun(trace, events, timerVector) && i < |events| && LateRecord(trace, events, i)
    ensures TornAt(trace, events, i + 1)
  {
    hide Good, Happens;
    TornStep(trace[i], events[i], trace[i + 1], timerVector);
  }

  lemma {:induction false} NeverTorn(trace: seq<Snap>, events: seq<Event>, n: nat)
    requires |trace| == |events| + 1 && n < |trace| && !trace[0].past.torn
    requires forall i :: 0 <= i < |events| ==> !LateRecord(trace, events, i)
    ensures !TornAt(trace, events, n)
  {
    hide LateRecord;
    if n > 0 { NeverTorn(trace, events, n - 1); }
  }

  // ---- whose root a task has -------------------------------------------------------------------

  /** The root in the record of slot `c`, read off the events: the one live when the task there was spawned, or
      the one it has recorded since. */
  ghost function RecordAt(trace: seq<Snap>, events: seq<Event>, n: nat, c: nat): nat
    requires |trace| == |events| + 1 && n < |trace|
  {
    if n == 0 then (if c < |trace[0].tasks| then trace[0].tasks[c].cr3 else 0)
    else
      var a, ev := trace[n - 1], events[n - 1];
      if ev.EvSpawn? && trace[n].delivered && c == FirstDead(a.tasks) then a.core.cr3
      else if ev.EvRecordCr3? && trace[n].delivered && c == a.current < |a.loading| && a.loading[c].Some?
      then a.loading[c].value
      else RecordAt(trace, events, n - 1, c)
  }

  lemma RecordStep(a: Snap, ev: Event, b: Snap, timerVector: nat, c: nat)
    requires Fine(a) && Happens(a, ev, b, timerVector)
    ensures (if c < |b.tasks| then b.tasks[c].cr3 else 0) ==
              if ev.EvSpawn? && b.delivered && c == FirstDead(a.tasks) then a.core.cr3
              else if ev.EvRecordCr3? && b.delivered && c == a.current < |a.loading| && a.loading[c].Some?
              then a.loading[c].value
              else if c < |a.tasks| then a.tasks[c].cr3 else 0
  {
    hide Good, NextStep, Resumed, FirstDead;
    if b.delivered && MaySwitch(ev) { SwitchMoves(a, ev, b, timerVector); }
  }

  /** In every run a task's record is the root that was live when it was spawned, until it records another itself:
      also when that was the spawner's own space, and also after the spawner has left and freed it. */
  lemma {:induction false} RecordIs(trace: seq<Snap>, events: seq<Event>, timerVector: nat, n: nat, c: nat)
    requires IsRun(trace, events, timerVector) && n < |trace|
    ensures RecordAt(trace, events, n, c) == if c < |trace[n].tasks| then trace[n].tasks[c].cr3 else 0
  {
    hide Good, Happens, FirstDead;
    if n > 0 {
      RecordIs(trace, events, timerVector, n - 1, c);
      RecordStep(trace[n - 1], events[n - 1], trace[n], timerVector, c);
    }
  }

  /** Task `c`, once spawned at step `s`, keeps that root until it records another or its slot is given away: whatever
      the spawner does with its own space meanwhile. */
  lemma {:induction false} HeirKeeps(trace: seq<Snap>, events: seq<Event>, timerVector: nat, s: nat, n: nat, c: nat)
    requires IsRun(trace, events, timerVector) && s < n < |trace|
    requires events[s].EvSpawn? && trace[s + 1].delivered && c == FirstDead(trace[s].tasks)
    requires forall i :: s < i < n && trace[i + 1].delivered ==>
      !(events[i].EvSpawn? && c == FirstDead(trace[i].tasks)) && !(events[i].EvRecordCr3? && c == trace[i].current)
    ensures c < |trace[n].tasks| && trace[n].tasks[c].cr3 == trace[s].core.cr3
    decreases n
  {
    hide Good, Happens, FirstDead;
    if n == s + 1 {
      SpawnedAt(trace[s], events[s], trace[n], timerVector);
    } else {
      HeirKeeps(trace, events, timerVector, s, n - 1, c);
      RecordStep(trace[n - 1], events[n - 1], trace[n], timerVector, c);
      TableGrows(trace[n - 1], events[n - 1], trace[n], timerVector);
    }
  }

  lemma SpawnedAt(a: Snap, ev: Event, b: Snap, timerVector: nat)
    requires Fine(a) && Happens(a, ev, b, timerVector) && ev.EvSpawn? && b.delivered
    ensures FirstDead(a.tasks) < |b.tasks| && b.tasks[FirstDead(a.tasks)].cr3 == a.core.cr3
  {
    hide Good, FirstDead;
  }

  lemma TableGrows(a: Snap, ev: Event, b: Snap, timerVector: nat)
    requires Fine(a) && Happens(a, ev, b, timerVector)
    ensures |a.tasks| <= |b.tasks|
  {
    hide Good, NextStep, Resumed, FirstDead;
    if b.delivered && MaySwitch(ev) { SwitchMoves(a, ev, b, timerVector); }
  }

  // ---- sleepers --------------------------------------------------------------------------------

  /** Task `t` sleeps until `w`. */
  ghost predicate SleepsUntil(a: Snap, t: nat, w: nat) {
    && t < |a.tasks| && t != a.current
    && a.tasks[t].state == Blocked && a.tasks[t].waitingIrq == None && a.tasks[t].wakeAt == w
  }

  ghost predicate Awake(a: Snap, t: nat) { t < |a.tasks| && (t == a.current || a.tasks[t].state == Ready) }

  /** What `next` does to a sleeper. */
  lemma NextSleeper(s: seq<Task>, c: nat, now: nat, m: seq<Task>, d: nat, t: nat)
    requires c < |s| && NextStep(s, c, now, m, d) && t < |s| && t != c && s[t].state.Blocked? && s[t].waitingIrq.None?
    ensures |m| == |s| && d < |m| && (t == d || m[t] == s[t] || m[t] == s[t].(state := Ready))
    ensures s[t].wakeAt <= now ==> t == d || m[t].state.Ready?
  {
    var w := Woken(s, now);
    assert w[t] == Wake(s[t], now);
  }

  lemma TickSleeper(a: Snap, b: Snap, timerVector: nat, m: seq<Task>, t: nat, w: nat)
    requires Fine(a) && Ticks(a, b, timerVector, m) && SleepsUntil(a, t, w)
    ensures SleepsUntil(b, t, w) || Awake(b, t)
    ensures b.now >= w ==> Awake(b, t)
  {
    hide Good, NextStep, Resumed;
    FineBounds(a);
    var s := Signalled(a.tasks, timerVector);
    assert s[t] == a.tasks[t];
    NextSleeper(s, a.current, b.now, m, b.current, t);
  }

  lemma YieldSleeper(a: Snap, mark: Task, why: Resume, k: Core, b: Snap, m: seq<Task>, t: nat, w: nat)
    requires Fine(a) && Yields(a, mark, why, k, b, m) && SleepsUntil(a, t, w)
    requires b.current == a.current ==> b.tasks == m || (t < |b.tasks| && b.tasks[t] == a.tasks[t])
    ensures SleepsUntil(b, t, w) || Awake(b, t)
  {
    hide Good, NextStep, Resumed;
    FineBounds(a);
    NextSleeper(a.tasks[a.current := mark], a.current, a.now, m, b.current, t);
  }

  /** A sleeper stays as it is until it wakes, and it does at the first tick at or after its time. */
  lemma SleepStep(a: Snap, ev: Event, b: Snap, timerVector: nat, t: nat, w: nat)
    requires Fine(a) && Happens(a, ev, b, timerVector) && SleepsUntil(a, t, w)
    ensures SleepsUntil(b, t, w) || Awake(b, t)
    ensures ev.EvTick? && b.delivered && b.now >= w ==> Awake(b, t)
  {
    hide Good, NextStep, Resumed, FirstDead, Yields, Ticks;
    FineBounds(a);
    if b.delivered {
      var c := a.tasks[a.current];
      match ev
      case EvTick =>
        var m :| Ticks(a, b, timerVector, m);
        TickSleeper(a, b, timerVector, m, t, w);
      case EvSleep(ms) =>
        var m :| Yields(a, Asleep(c, a.now, ms), Slept, a.core, b, m);
        YieldSleeper(a, Asleep(c, a.now, ms), Slept, a.core, b, m, t, w);
      case EvExit =>
        var m :| Yields(a, Gone(c), Slept, a.core, b, m) && (b.current == a.current ==> b.tasks == m);
        YieldSleeper(a, Gone(c), Slept, a.core, b, m, t, w);
      case EvWaitIrq(v) =>
        var m :| Yields(a, Waiting(c, v), AfterBlock(a.core.userRsp), Resting(a.core), b, m);
        YieldSleeper(a, Waiting(c, v), AfterBlock(a.core.userRsp), Resting(a.core), b, m, t, w);
      case _ =>
    }
  }

  /** In every run: a task that sleeps until `w` is ready, or chosen, by the first tick at which the time is `w`
      or later. */
  lemma {:induction false} WakesOnTime(trace: seq<Snap>, events: seq<Event>, timerVector: nat, i: nat, k: nat, t: nat,
                                       w: nat)
    returns (j: nat)
    requires IsRun(trace, events, timerVector) && i <= k < |events| && SleepsUntil(trace[i], t, w)
    requires events[k].EvTick? && trace[k + 1].delivered && trace[k + 1].now >= w
    ensures i < j <= k + 1 && Awake(trace[j], t)
    decreases k - i
  {
    hide Good, Happens, SleepsUntil, Awake;
    SleepStep(trace[i], events[i], trace[i + 1], timerVector, t, w);
    if Awake(trace[i + 1], t) { j := i + 1; } else { j := WakesOnTime(trace, events, timerVector, i + 1, k, t, w); }
  }

  // ---- fairness --------------------------------------------------------------------------------

  /** Task switches in a run. */
  ghost function Switches(trace: seq<Snap>, k: nat): nat
    requires k < |trace|
  {
    if k == 0 then 0 else Switches(trace, k - 1) + if trace[k].current != trace[k - 1].current then 1 else 0
  }

  lemma {:induction false} InLine(trace: seq<Snap>, t: nat, n: nat, k: nat)
    requires FairTrace(trace) && k < |trace| && t < n
    requires forall i :: 0 <= i < |trace| ==> |trace[i].tasks| == n && trace[i].current < n && trace[i].current != t
    requires trace[0].tasks[t].state.Ready?
    ensures trace[k].tasks[t].state.Ready?
    ensures Switches(trace, k) + Dist(trace[k].current, t, n) <= Dist(trace[0].current, t, n)
    decreases k
  {
    if k > 0 {
      InLine(trace, t, n, k - 1);
      assert FairStep(trace[k - 1].tasks, trace[k - 1].current, trace[k].tasks, trace[k].current);
    }
  }

  /** No starvation: while the table does not grow, a ready task is passed over by at most
      `n - 2` switches, so it is chosen by the `n - 1`st at the latest. */
  lemma NoStarvation(trace: seq<Snap>, t: nat, n: nat)
    requires FairTrace(trace) && |trace| > 0 && t < n
    requires forall i :: 0 <= i < |trace| ==> |trace[i].tasks| == n && trace[i].current < n && trace[i].current != t
    requires trace[0].tasks[t].state.Ready?
    ensures Switches(trace, |trace| - 1) <= n - 2
  {
    InLine(trace, t, n, |trace| - 1);
  }

  lemma {:induction false} SuffixFair(trace: seq<Snap>, j: nat)
    requires FairTrace(trace) && j <= |trace|
    ensures FairTrace(trace[j..])
  {
    hide FairStep;
    var s := trace[j..];
    forall i | 0 <= i < |s| - 1 ensures FairStep(s[i].tasks, s[i].current, s[i + 1].tasks, s[i + 1].current) {
      assert s[i] == trace[j + i] && s[i + 1] == trace[j + i + 1];
    }
  }

  /** So sleep ends: while the table does not grow, at most `n - 2` switches pass over a sleeper after the first tick
      at or after its time, and the next one chooses it. */
  lemma SleeperRuns(trace: seq<Snap>, events: seq<Event>, timerVector: nat, i: nat, k: nat, t: nat, w: nat, n: nat)
    requires IsRun(trace, events, timerVector) && FairTrace(trace) && i <= k < |events| && SleepsUntil(trace[i], t, w)
    requires events[k].EvTick? && trace[k + 1].delivered && trace[k + 1].now >= w
    requires forall j :: i <= j < |trace| ==> |trace[j].tasks| == n && trace[j].current < n && trace[j].current != t
    ensures Switches(trace[k + 1..], |trace| - k - 2) <= n - 2
  {
    hide Good, Happens, FairTrace, Switches;
    var j := WakesOnTime(trace, events, timerVector, i, k, t, w);
    SuffixFair(trace, j);
    InLine(trace[j..], t, n, k + 1 - j);
    SuffixFair(trace, k + 1);
    NoStarvation(trace[k + 1..], t, n);
  }
}
