/** The AHCI mailbox. The kernel's `read_sectors`/`write_sectors` and the `ahcid` service
    loop share memory and run interleaved, one access at a time; a transfer moves one
    sector per step and may fail at any point. */
module AhciMailbox {

  type Sector = seq<int>

  const IDLE: nat := 0
  const READ: nat := 1
  const WRITE: nat := 2
  const PENDING: nat := 0
  const OK: nat := 1
  const FAILED: nat := 2

  /** `data` is the 4 KiB bounce buffer, as sectors. */
  datatype Mailbox = Mailbox(op: nat, status: nat, lba: nat, count: nat, data: seq<Sector>)

  /** One call of the kernel; `buf` is what the caller wants written. */
  datatype Request = Request(write: bool, lba: nat, count: nat, buf: seq<Sector>) {
    predicate Fits(cap: nat) { 1 <= count <= cap }
    function Op(): nat { if write then WRITE else READ }
  }

  /** Where the kernel is: the stores before handing off, the wait, and what follows it. */
  datatype Kernel = KIdle | KCopyIn | KLba | KCount | KStatus | KOp | KWait | KSeen | KCopyOut
                  | KClear(ok: bool) | KDone(ok: bool)

  /** Where the driver is in servicing a request. */
  datatype Driver = DPoll | DGotOp | DGotLba | DTransfer(i: nat) | DStatus(ok: bool) | DClear

  /** `out` is the caller's buffer after a read, `dop`, `dlba` and `dcount` what the driver read of
      the request, `disk0` the disk when the request started, `late` whether a wait ever timed out. */
  datatype State = State(mb: Mailbox, disk: seq<Sector>, k: Kernel, req: Request, out: seq<Sector>,
                         d: Driver, dop: nat, dlba: nat, dcount: nat, disk0: seq<Sector>, late: bool)

  ghost predicate Init(s: State) {
    s.mb.op == IDLE && s.mb.status == PENDING && s.k.KIdle? && s.d.DPoll? && !s.late
  }

  // ---- steps -----------------------------------------------------------------------------

  /** A call that does not fit the buffer returns at once. */
  ghost predicate Start(s: State, t: State) {
    && (t.req.write ==> |t.req.buf| == t.req.count)
    && t == s.(req := t.req, disk0 := s.disk,
               k := if !t.req.Fits(|s.mb.data|) then KDone(false) else if t.req.write then KCopyIn else KLba)
  }

  /** Each pass over `status` either sees it, goes round again or gives up. */
  ghost predicate Wait(s: State, t: State) {
    if s.mb.status == PENDING then t == s || t == s.(k := KClear(false), late := true)
    else t == s.(k := if s.req.write then KClear(s.mb.status == OK) else KSeen)
  }

  ghost predicate KernelStep(s: State, t: State) {
    match s.k
    case KIdle => Start(s, t)
    case KCopyIn => s.req.count <= |s.mb.data|
      && t == s.(mb := s.mb.(data := s.req.buf + s.mb.data[s.req.count..]), k := KLba)
    case KLba => t == s.(mb := s.mb.(lba := s.req.lba), k := KCount)
    case KCount => t == s.(mb := s.mb.(count := s.req.count), k := KStatus)
    case KStatus => t == s.(mb := s.mb.(status := PENDING), k := KOp)
    case KOp => t == s.(mb := s.mb.(op := s.req.Op()), k := KWait)
    case KWait => Wait(s, t)
    case KSeen => t == s.(k := if s.mb.status == OK then KCopyOut else KClear(false))
    case KCopyOut => s.req.count <= |s.mb.data| && t == s.(out := s.mb.data[..s.req.count], k := KClear(true))
    case KClear(ok) => t == s.(mb := s.mb.(status := PENDING), k := KDone(ok))
    case KDone(_) => t == s.(k := KIdle)
  }

  ghost predicate Transfer(s: State, t: State)
    requires s.d.DTransfer?
  {
    var i := s.d.i;
    if i >= s.dcount then t == s.(d := DStatus(true))
    else
      || t == s.(d := DStatus(false))
      || (s.dlba + i < |s.disk| && i < |s.mb.data|
          && t == if s.dop == WRITE then s.(disk := s.disk[s.dlba + i := s.mb.data[i]], d := DTransfer(i + 1))
                  else s.(mb := s.mb.(data := s.mb.data[i := s.disk[s.dlba + i]]), d := DTransfer(i + 1)))
  }

  ghost predicate DriverStep(s: State, t: State) {
    match s.d
    case DPoll => t == if s.mb.op == IDLE then s else s.(d := DGotOp, dop := s.mb.op)
    case DGotOp => t == s.(d := DGotLba, dlba := s.mb.lba)
    case DGotLba => t == s.(d := DTransfer(0), dcount := s.mb.count)
    case DTransfer(_) => Transfer(s, t)
    case DStatus(ok) => t == s.(mb := s.mb.(status := if ok then OK else FAILED), d := DClear)
    case DClear => t == s.(mb := s.mb.(op := IDLE), d := DPoll)
  }

  ghost predicate Next(s: State, t: State) { KernelStep(s, t) || DriverStep(s, t) }

  /** A run: any interleaving of the two from power-on. */
  ghost predicate Run(tr: seq<State>) {
    && |tr| > 0 && Init(tr[0])
    && forall i :: 0 <= i < |tr| - 1 ==> Next(tr[i], tr[i + 1])
  }

  // ---- what an atomic sector store does -------------------------------------------------------

  /** `disk` is `disk0` with `buf` laid over it from `lba` on. */
  ghost predicate Overlaid(disk: seq<Sector>, disk0: seq<Sector>, lba: nat, buf: seq<Sector>) {
    && |disk| == |disk0| && lba + |buf| <= |disk|
    && forall x :: 0 <= x < |disk| ==> disk[x] == if lba <= x < lba + |buf| then buf[x - lba] else disk0[x]
  }

  /** The request took effect in one piece: the atomic store's answer. */
  ghost predicate Atomic(s: State) {
    if s.req.write then Overlaid(s.disk, s.disk0, s.req.lba, s.req.buf)
    else s.disk == s.disk0 && s.req.lba + s.req.count <= |s.disk| && s.out == s.disk[s.req.lba..s.req.lba + s.req.count]
  }

  // ---- the invariant -----------------------------------------------------------------------

  /** The first `i` sectors have moved and nothing else has changed. */
  ghost predicate Moved(s: State, i: nat) {
    && i <= s.req.count <= |s.mb.data| && (i > 0 ==> s.req.lba + i <= |s.disk|)
    && if s.req.write then
         && |s.req.buf| == s.req.count && |s.disk| == |s.disk0|
         && forall x :: 0 <= x < |s.disk| ==>
              s.disk[x] == if s.req.lba <= x < s.req.lba + i then s.req.buf[x - s.req.lba] else s.disk0[x]
       else
         && s.disk == s.disk0
         && forall x :: 0 <= x < i ==> s.mb.data[x] == s.disk[s.req.lba + x]
  }

  /** Nothing outside the request's own sectors has changed, and a read changes nothing. */
  ghost predicate Confined(s: State) {
    && |s.disk| == |s.disk0| && (!s.req.write ==> s.disk == s.disk0)
    && forall x :: 0 <= x < |s.disk| && !(s.req.lba <= x < s.req.lba + s.req.count) ==> s.disk[x] == s.disk0[x]
  }

  ghost predicate Loaded(s: State) {
    s.req.write ==> |s.req.buf| == s.req.count <= |s.mb.data| && s.req.buf == s.mb.data[..s.req.count]
  }

  ghost predicate Quiet(s: State) { s.d.DPoll? || s.d.DClear? }

  ghost predicate Posting(s: State) { s.k.KCopyIn? || s.k.KLba? || s.k.KCount? || s.k.KStatus? || s.k.KOp? }

  ghost predicate Reaping(s: State) { s.k.KSeen? || s.k.KCopyOut? || s.k.KClear? }

  ghost predicate CallOk(s: State) {
    && (s.req.write && !s.k.KIdle? ==> |s.req.buf| == s.req.count) && (s.k.KCopyIn? ==> s.req.write)
    && (!s.k.KIdle? ==> Confined(s))
    && (Posting(s) || s.k.KWait? || Reaping(s) ==> s.req.Fits(|s.mb.data|))
  }

  /** While the kernel stores the request, the driver is idle or about to clear the previous one. */
  ghost predicate PostingOk(s: State) {
    && (s.k.KIdle? || s.k.KDone? || Posting(s) ==>
         s.mb.status == PENDING && Quiet(s) && (s.d.DPoll? ==> s.mb.op == IDLE))
    && (Posting(s) ==> s.disk == s.disk0 && (!s.k.KCopyIn? ==> Loaded(s)))
    && (s.k.KCount? || s.k.KStatus? || s.k.KOp? ==> s.mb.lba == s.req.lba)
    && (s.k.KStatus? || s.k.KOp? ==> s.mb.count == s.req.count)
  }

  /** The driver has read exactly the posted request and has moved exactly the sectors it says. */
  ghost predicate ServiceOk(s: State) {
    && s.mb.op == s.req.Op() && s.mb.lba == s.req.lba && s.mb.count == s.req.count && Loaded(s)
    && (!Quiet(s) ==> s.dop == s.mb.op)
    && (s.d.DTransfer? ==> s.dlba == s.req.lba && s.dcount == s.req.count && Moved(s, s.d.i))
    && (s.d.DGotLba? ==> s.dlba == s.req.lba)
    && (s.d.DStatus? ==> s.d.ok ==> Moved(s, s.req.count))
    && (Quiet(s) || s.d.DGotOp? || s.d.DGotLba? ==> Moved(s, 0))
  }

  /** While the kernel waits: the request is lost, or unanswered and in the driver's hands, or answered. */
  ghost predicate WaitOk(s: State) {
    s.k.KWait? ==>
      if s.mb.status == PENDING then (s.mb.op == IDLE && s.d.DPoll?) || ServiceOk(s)
      else Answered(s)
  }

  ghost predicate Answered(s: State) {
    && Quiet(s) && (s.d.DPoll? ==> s.mb.op == IDLE)
    && (s.mb.status == OK ==> Moved(s, s.req.count))
  }

  ghost predicate ReapOk(s: State) {
    && (Reaping(s) ==> s.mb.status != PENDING && Answered(s))
    && (s.k.KSeen? || s.k.KCopyOut? ==> !s.req.write) && (s.k.KCopyOut? ==> s.mb.status == OK)
    && (s.k.KClear? && s.k.ok ==> s.mb.status == OK)
    && ((s.k.KClear? || s.k.KDone?) && s.k.ok ==> Atomic(s))
  }

  /** A driver that has taken a request up has not cleared it yet. */
  ghost predicate OpOk(s: State) { !s.d.DPoll? ==> s.mb.op != IDLE }

  ghost predicate Inv(s: State) {
    s.late || (CallOk(s) && PostingOk(s) && WaitOk(s) && ReapOk(s) && OpOk(s))
  }

  // ---- every step keeps it -------------------------------------------------------------------

  lemma PostKeeps(s: State, t: State)
    requires Inv(s) && KernelStep(s, t) && (s.k.KIdle? || s.k.KDone? || Posting(s))
    ensures Inv(t)
  {
    if !s.late && s.k.KCopyIn? { assert t.mb.data[..s.req.count] == s.req.buf; }
  }

  lemma AwaitKeeps(s: State, t: State)
    requires Inv(s) && KernelStep(s, t) && s.k.KWait?
    ensures Inv(t)
  {
  }

  lemma ReapKeeps(s: State, t: State)
    requires Inv(s) && KernelStep(s, t) && Reaping(s)
    ensures Inv(t)
  {
  }

  lemma PickUpKeeps(s: State, t: State)
    requires Inv(s) && DriverStep(s, t) && (Quiet(s) || s.d.DGotOp? || s.d.DGotLba?)
    ensures Inv(t)
  {
  }

  lemma TransferKeeps(s: State, t: State)
    requires Inv(s) && DriverStep(s, t) && s.d.DTransfer?
    ensures Inv(t)
  {
    hide Moved, Loaded, Confined;
    if !s.late { TransferMoves(s, t); }
  }

  lemma TransferMoves(s: State, t: State)
    requires ServiceOk(s) && Confined(s) && s.d.DTransfer? && Transfer(s, t)
    ensures ServiceOk(t) && Confined(t) && |t.mb.data| == |s.mb.data|
  {
    hide Moved, Loaded, Confined;
    if t.d.DTransfer? {
      MovedMore(s, t);
      LoadedStill(s, t);
      ConfinedStill(s, t);
    } else {
      MovedSame(s, t);
    }
  }

  lemma MovedSame(s: State, t: State)
    requires t == s.(d := t.d)
    ensures forall i: nat :: Moved(s, i) ==> i <= s.req.count && Moved(t, i)
    ensures Loaded(s) ==> Loaded(t)
    ensures Confined(s) ==> Confined(t)
  {
  }

  lemma MovedMore(s: State, t: State)
    requires ServiceOk(s) && s.d.DTransfer? && Transfer(s, t) && t.d.DTransfer?
    ensures t.d.i == s.d.i + 1 && Moved(t, t.d.i)
  {
  }

  lemma LoadedStill(s: State, t: State)
    requires ServiceOk(s) && s.d.DTransfer? && Transfer(s, t) && t.d.DTransfer?
    ensures Loaded(t)
  {
    hide Moved;
  }

  lemma ConfinedStill(s: State, t: State)
    requires ServiceOk(s) && Confined(s) && s.d.DTransfer? && Transfer(s, t) && t.d.DTransfer?
    ensures Confined(t)
  {
    hide Moved;
  }

  lemma StatusKeeps(s: State, t: State)
    requires Inv(s) && DriverStep(s, t) && s.d.DStatus?
    ensures Inv(t)
  {
  }

  lemma NextKeeps(s: State, t: State)
    requires Inv(s) && Next(s, t)
    ensures Inv(t)
  {
    hide Inv;
    if KernelStep(s, t) {
      if s.k.KWait? { AwaitKeeps(s, t); } else if Reaping(s) { ReapKeeps(s, t); } else { PostKeeps(s, t); }
    } else {
      if s.d.DTransfer? { TransferKeeps(s, t); } else if s.d.DStatus? { StatusKeeps(s, t); } else { PickUpKeeps(s, t); }
    }
  }

  lemma {:induction false} RunKeeps(tr: seq<State>, n: nat)
    requires Run(tr) && n < |tr|
    ensures Inv(tr[n])
  {
    hide Inv, Next;
    if n == 0 {
      InitKeeps(tr[0]);
    } else {
      RunKeeps(tr, n - 1);
      NextKeeps(tr[n - 1], tr[n]);
    }
  }

  lemma InitKeeps(s: State)
    requires Init(s)
    ensures Inv(s)
  {
  }

  // ---- what every run promises -------------------------------------------------------------

  /** In every interleaving, as long as no wait has timed out: a call that returns true did what
      an atomic sector store would have done at one instant, and any call at all, failed ones
      included, left every sector it did not name as it was. */
  lemma ReturnsAtomic(tr: seq<State>, n: nat)
    requires Run(tr) && n < |tr| && tr[n].k.KDone? && !tr[n].late
    ensures tr[n].k.ok ==> Atomic(tr[n])
    ensures Confined(tr[n])
  {
    RunKeeps(tr, n);
  }

  /** The disk changes only while the kernel waits for a write, and then only by one of that write's own
      sectors: between calls, and during reads, it is the store the last call left. */
  lemma ChangesOnlyInWrites(tr: seq<State>, n: nat)
    requires Run(tr) && n + 1 < |tr| && !tr[n].late && tr[n + 1].disk != tr[n].disk
    ensures tr[n].k.KWait? && tr[n].req.write && tr[n].d.DTransfer?
    ensures var x := tr[n].req.lba + tr[n].d.i;
            && tr[n].d.i < |tr[n].req.buf| && x < |tr[n].disk|
            && tr[n + 1].disk == tr[n].disk[x := tr[n].req.buf[tr[n].d.i]]
  {
    RunKeeps(tr, n);
    assert Next(tr[n], tr[n + 1]);
  }

  /** The driver clears `op` after it has answered. If the kernel has already posted its next
      request by then, that request is gone. */
  ghost predicate Lost(s: State) { s.k.KWait? && s.mb.op == IDLE && s.mb.status == PENDING && s.d.DPoll? }

  /** A lost request is never answered: every later state is the same, until the wait times out. */
  lemma {:induction false} LostForever(tr: seq<State>, n: nat, m: nat)
    requires Run(tr) && n <= m < |tr| && Lost(tr[n]) && !tr[m].late
    ensures tr[m] == tr[n]
    decreases m
  {
    if n < m {
      assert Next(tr[m - 1], tr[m]);
      LateStays(tr[m - 1], tr[m]);
      LostForever(tr, n, m - 1);
    }
  }

  lemma LateStays(s: State, t: State)
    requires Next(s, t)
    ensures s.late ==> t.late
  {
  }

  /** A request that was posted into an idle mailbox, while it waits. */
  ghost predicate Safe(s: State) { s.k.KWait? && (s.mb.status == PENDING ==> s.mb.op != IDLE && !s.d.DClear?) }

  lemma SafeStays(s: State, t: State)
    requires Inv(s) && Safe(s) && Next(s, t) && t.k.KWait? && !t.late
    ensures Safe(t)
  {
    LateStays(s, t);
  }

  lemma SafePost(s: State, t: State)
    requires Inv(s) && Next(s, t) && s.k.KOp? && !s.late && s.mb.op == IDLE && t.k.KWait?
    ensures Safe(t)
  {
  }

  /** `u` goes on from `tr` by posting the request, and ends with that request lost. */
  ghost predicate Loses(tr: seq<State>, u: seq<State>) {
    && Run(u) && |tr| < |u| && u[..|tr|] == tr
    && (forall i :: |tr| <= i < |u| ==> u[i].k.KWait? && !u[i].late)
    && Lost(u[|u| - 1])
  }

  lemma {:induction false} SafeAlong(tr: seq<State>, u: seq<State>, n: nat)
    requires |tr| > 0 && Run(u) && |tr| <= n < |u| && u[..|tr|] == tr
    requires tr[|tr| - 1].k.KOp? && !tr[|tr| - 1].late && tr[|tr| - 1].mb.op == IDLE
    requires forall i :: |tr| <= i < |u| ==> u[i].k.KWait? && !u[i].late
    ensures Safe(u[n])
    decreases n
  {
    hide Inv, Next, Safe;
    RunKeeps(u, n - 1);
    assert Next(u[n - 1], u[n]);
    if n == |tr| {
      assert u[n - 1] == u[..|tr|][n - 1];
      SafePost(u[n - 1], u[n]);
    } else {
      SafeAlong(tr, u, n - 1);
      SafeStays(u[n - 1], u[n]);
    }
  }

  /** Exactly when a request can be lost: it can, without any timeout, if and only if `op` is not yet
      idle when the kernel stores its own. The kernel could read that before posting. */
  lemma LostIff(tr: seq<State>)
    requires |tr| > 0 && Run(tr) && tr[|tr| - 1].k.KOp? && !tr[|tr| - 1].late
    ensures (exists u :: Loses(tr, u)) <==> tr[|tr| - 1].mb.op != IDLE
  {
    var s := tr[|tr| - 1];
    RunKeeps(tr, |tr| - 1);
    if s.mb.op != IDLE {
      var p := s.(mb := s.mb.(op := s.req.Op()), k := KWait);
      var v := Extend(tr, p);
      var u := Extend(v, p.(mb := p.mb.(op := IDLE), d := DPoll));
      assert u == tr + [u[|tr|], u[|tr| + 1]];
      assert Loses(tr, u);
    } else {
      forall u | Loses(tr, u) ensures false { SafeAlong(tr, u, |u| - 1); }
    }
  }

  /** The smallest such run: a read, answered and taken, and the next read posted before the
      driver has cleared the first. */
  lemma LosingRun() returns (tr: seq<State>)
    ensures |tr| > 0 && Run(tr) && Lost(Last(tr)) && !Last(tr).late
  {
    hide Run;
    var a, b := Request(false, 0, 1, []), Request(false, 1, 1, []);
    var s := State(Mailbox(IDLE, PENDING, 0, 0, [[0]]), [[10], [11]], KIdle, a, [], DPoll, 0, 0, 0, [], false);
    tr := StartRun(s);
    tr := PostRead(tr, a);
    tr := Extend(tr, Last(tr).(d := DGotOp, dop := READ));
    tr := Extend(tr, Last(tr).(d := DGotLba, dlba := 0));
    tr := AnswerRead(tr);
    tr := Extend(tr, Last(tr).(k := KIdle));
    tr := PostRead(tr, b);
    tr := Extend(tr, Last(tr).(mb := Last(tr).mb.(op := IDLE), d := DPoll));
  }

  // ---- what a timeout costs --------------------------------------------------------------

  ghost function Last(tr: seq<State>): State
    requires |tr| > 0
  {
    tr[|tr| - 1]
  }

  lemma Extend(tr: seq<State>, t: State) returns (u: seq<State>)
    requires |tr| > 0 && Run(tr) && Next(Last(tr), t)
    ensures |u| > 0 && Run(u) && Last(u) == t && u == tr + [t]
  {
    hide Next, Init;
    u := tr + [t];
    forall i | 0 <= i < |u| - 1 ensures Next(u[i], u[i + 1]) {
      if i < |tr| - 1 { assert u[i] == tr[i] && u[i + 1] == tr[i + 1]; }
    }
  }

  /** The kernel posts a read, undisturbed. */
  lemma PostRead(tr: seq<State>, req: Request) returns (u: seq<State>)
    requires |tr| > 0 && Run(tr) && Last(tr).k.KIdle? && !req.write && req.Fits(|Last(tr).mb.data|)
    ensures |u| > 0 && Run(u)
    ensures Last(u) == Last(tr).(req := req, disk0 := Last(tr).disk, k := KWait,
                                 mb := Mailbox(READ, PENDING, req.lba, req.count, Last(tr).mb.data))
  {
    hide Run;
    u := Extend(tr, Last(tr).(req := req, disk0 := Last(tr).disk, k := KLba));
    u := Extend(u, Last(u).(mb := Last(u).mb.(lba := req.lba), k := KCount));
    u := Extend(u, Last(u).(mb := Last(u).mb.(count := req.count), k := KStatus));
    u := Extend(u, Last(u).(mb := Last(u).mb.(status := PENDING), k := KOp));
    u := Extend(u, Last(u).(mb := Last(u).mb.(op := READ), k := KWait));
  }

  /** Once a wait has timed out the promise is gone: the late answer to the abandoned read of
      sector 0 is taken for the answer to a read of sector 1, which returns true with the wrong sector. */
  lemma TimeoutBreaksIt() returns (tr: seq<State>)
    ensures |tr| > 0 && Run(tr) && Last(tr).k == KDone(true) && Last(tr).req.lba == 1
    ensures Last(tr).disk == [[10], [11]] && Last(tr).out == [[10]]
    ensures !Atomic(Last(tr))
  {
    hide Run;
    var a, b := Request(false, 0, 1, []), Request(false, 1, 1, []);
    var s := State(Mailbox(IDLE, PENDING, 0, 0, [[0]]), [[10], [11]], KIdle, a, [], DPoll, 0, 0, 0, [], false);
    tr := StartRun(s);
    tr := PostRead(tr, a);
    tr := Extend(tr, Last(tr).(d := DGotOp, dop := READ));
    tr := Extend(tr, Last(tr).(d := DGotLba, dlba := 0));
    tr := Extend(tr, Last(tr).(k := KClear(false), late := true));
    tr := Extend(tr, Last(tr).(mb := Last(tr).mb.(status := PENDING), k := KDone(false)));
    tr := Extend(tr, Last(tr).(k := KIdle));
    tr := PostRead(tr, b);
    tr := AnswerRead(tr);
    assert [[10], [11]][1..2] == [[11]];
    assert [[10]][0] != [[11]][0];
  }

  lemma StartRun(s: State) returns (tr: seq<State>)
    requires Init(s)
    ensures |tr| > 0 && Run(tr) && Last(tr) == s
  {
    tr := [s];
  }

  /** The driver finishes the one-sector read it began, and the waiting kernel takes the answer. */
  lemma AnswerRead(tr: seq<State>) returns (u: seq<State>)
    requires |tr| > 0 && Run(tr) && Last(tr).d.DGotLba? && Last(tr).dop == READ && Last(tr).mb.count == 1
    requires Last(tr).k.KWait? && !Last(tr).req.write && Last(tr).req.count == 1
    requires |Last(tr).mb.data| == 1 && Last(tr).dlba < |Last(tr).disk|
    ensures |u| > 0 && Run(u) && Last(u).k == KDone(true) && Last(u).req == Last(tr).req
    ensures Last(u).disk == Last(tr).disk && Last(u).out == [Last(tr).disk[Last(tr).dlba]]
    ensures Last(u).d.DClear? && Last(u).late == Last(tr).late && |Last(u).mb.data| == 1
  {
    hide Run;
    var sector := Last(tr).disk[Last(tr).dlba];
    u := Extend(tr, Last(tr).(d := DTransfer(0), dcount := 1));
    u := Extend(u, Last(u).(mb := Last(u).mb.(data := Last(u).mb.data[0 := sector]), d := DTransfer(1)));
    u := Extend(u, Last(u).(d := DStatus(true)));
    u := Extend(u, Last(u).(mb := Last(u).mb.(status := OK), d := DClear));
    u := Extend(u, Last(u).(k := KSeen));
    u := Extend(u, Last(u).(k := KCopyOut));
    u := Extend(u, Last(u).(out := Last(u).mb.data[..1], k := KClear(true)));
    u := Extend(u, Last(u).(mb := Last(u).mb.(status := PENDING), k := KDone(true)));
  }

  // ---- that requests are answered ----------------------------------------------------------

  /** The kernel posts any request that fits. */
  lemma Post(tr: seq<State>, req: Request) returns (u: seq<State>)
    requires |tr| > 0 && Run(tr) && Last(tr).k.KIdle? && req.Fits(|Last(tr).mb.data|)
    requires req.write ==> |req.buf| == req.count
    ensures |u| > 0 && Run(u) && tr <= u
    ensures Last(u).mb == Mailbox(req.Op(), PENDING, req.lba, req.count, Last(u).mb.data)
    ensures |Last(u).mb.data| == |Last(tr).mb.data|
    ensures Last(u) == Last(tr).(req := req, disk0 := Last(tr).disk, k := KWait, mb := Last(u).mb)
  {
    hide Run;
    var s := Last(tr);
    u := Extend(tr, s.(req := req, disk0 := s.disk, k := if req.write then KCopyIn else KLba));
    if req.write {
      u := Extend(u, Last(u).(mb := Last(u).mb.(data := req.buf + Last(u).mb.data[req.count..]), k := KLba));
    }
    u := Extend(u, Last(u).(mb := Last(u).mb.(lba := req.lba), k := KCount));
    u := Extend(u, Last(u).(mb := Last(u).mb.(count := req.count), k := KStatus));
    u := Extend(u, Last(u).(mb := Last(u).mb.(status := PENDING), k := KOp));
    u := Extend(u, Last(u).(mb := Last(u).mb.(op := req.Op()), k := KWait));
  }

  /** The driver moves the sectors that are left. */
  lemma {:induction false} MoveOn(tr: seq<State>, i: nat) returns (u: seq<State>)
    requires |tr| > 0 && Run(tr) && Last(tr).d == DTransfer(i) && i <= Last(tr).dcount <= |Last(tr).mb.data|
    requires Last(tr).dlba + Last(tr).dcount <= |Last(tr).disk|
    ensures |u| > 0 && Run(u) && tr <= u
    ensures |Last(u).disk| == |Last(tr).disk| && |Last(u).mb.data| == |Last(tr).mb.data|
    ensures Last(u) == Last(tr).(d := DTransfer(Last(tr).dcount), disk := Last(u).disk,
                                 mb := Last(tr).mb.(data := Last(u).mb.data))
    decreases Last(tr).dcount - i
  {
    hide Run;
    var s := Last(tr);
    if i == s.dcount {
      u := tr;
    } else {
      var t := if s.dop == WRITE then s.(disk := s.disk[s.dlba + i := s.mb.data[i]], d := DTransfer(i + 1))
               else s.(mb := s.mb.(data := s.mb.data[i := s.disk[s.dlba + i]]), d := DTransfer(i + 1));
      u := Extend(tr, t);
      u := MoveOn(u, i + 1);
    }
  }

  /** The driver takes up the posted request, serves it and clears it. */
  lemma Serve(tr: seq<State>) returns (u: seq<State>)
    requires |tr| > 0 && Run(tr) && Last(tr).d.DPoll? && Last(tr).mb.op != IDLE
    requires Last(tr).mb.count <= |Last(tr).mb.data| && Last(tr).mb.lba + Last(tr).mb.count <= |Last(tr).disk|
    ensures |u| > 0 && Run(u) && tr <= u && Last(u).d.DPoll? && |Last(u).mb.data| == |Last(tr).mb.data|
    ensures Last(u).mb == Last(tr).mb.(op := IDLE, status := OK, data := Last(u).mb.data)
    ensures Last(u) == Last(tr).(mb := Last(u).mb, disk := Last(u).disk, dop := Last(u).dop, dlba := Last(u).dlba,
                                 dcount := Last(u).dcount)
  {
    hide Run;
    u := Extend(tr, Last(tr).(d := DGotOp, dop := Last(tr).mb.op));
    u := Extend(u, Last(u).(d := DGotLba, dlba := Last(u).mb.lba));
    u := Extend(u, Last(u).(d := DTransfer(0), dcount := Last(u).mb.count));
    u := MoveOn(u, 0);
    u := Extend(u, Last(u).(d := DStatus(true)));
    u := Extend(u, Last(u).(mb := Last(u).mb.(status := OK), d := DClear));
    u := Extend(u, Last(u).(mb := Last(u).mb.(op := IDLE), d := DPoll));
  }

  /** The kernel takes the answer. */
  lemma Take(tr: seq<State>) returns (u: seq<State>)
    requires |tr| > 0 && Run(tr) && Last(tr).k.KWait? && Last(tr).mb.status == OK
    requires Last(tr).req.count <= |Last(tr).mb.data|
    ensures |u| > 0 && Run(u) && tr <= u
    ensures Last(u) == Last(tr).(k := KDone(true), mb := Last(tr).mb.(status := PENDING), out := Last(u).out)
  {
    hide Run;
    if Last(tr).req.write {
      u := Extend(tr, Last(tr).(k := KClear(true)));
    } else {
      u := Extend(tr, Last(tr).(k := KSeen));
      u := Extend(u, Last(u).(k := KCopyOut));
      u := Extend(u, Last(u).(out := Last(u).mb.data[..Last(u).req.count], k := KClear(true)));
    }
    u := Extend(u, Last(u).(mb := Last(u).mb.(status := PENDING), k := KDone(true)));
  }

  /** Every request that fits the buffer and the disk can be served: after any run that leaves both sides idle it can
      go on to the call's return with true, the request's effect on disk or buffer, and both sides idle. */
  lemma CanServe(tr: seq<State>, req: Request) returns (u: seq<State>)
    requires |tr| > 0 && Run(tr) && Last(tr).k.KIdle? && Last(tr).d.DPoll? && !Last(tr).late
    requires 1 <= req.count <= |Last(tr).mb.data| && req.lba + req.count <= |Last(tr).disk|
    requires req.write ==> |req.buf| == req.count
    ensures |u| > 0 && Run(u) && tr <= u && Last(u).k == KDone(true) && Last(u).req == req && !Last(u).late
    ensures Last(u).d.DPoll? && Last(u).mb.op == IDLE
    ensures if req.write then Overlaid(Last(u).disk, Last(tr).disk, req.lba, req.buf)
            else Last(u).disk == Last(tr).disk && Last(u).out == Last(tr).disk[req.lba..req.lba + req.count]
  {
    hide Run, Overlaid;
    u := Post(tr, req);
    u := Serve(u);
    u := Take(u);
    ReturnsAtomic(u, |u| - 1);
  }
}
