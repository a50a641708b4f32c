/** The snapshot handshake between the kernel's `request_flush` and the `gopd` compositor:
    interleaved steps over the shared mailbox, one access or one row at a time, across
    any number of stops and restarts. */
module GopHandshake {

  /** `req` and `ack` are 32-bit counters that wrap. */
  const WRAP: nat := 0x1_0000_0000

  type Row = seq<int>
  type Frame = seq<Row>

  /** Cursor position and shape: x, y, kind. */
  type Cursor = c: seq<int> | |c| == 3 witness [0, 0, 0]

  datatype Mailbox = Mailbox(y: nat, count: nat, cursor: Cursor, req: nat, ack: nat, stop: bool)

  /** What a fresh launch finds: every byte zero. */
  const ZEROED := Mailbox(0, 0, [0, 0, 0], 0, 0, false)

  /** The flush in progress covers rows `y0` to `y1`. */
  datatype Kernel = KIdle | KAck | KReq(ack: nat) | KCopy(row: nat)
                  | KDirtyY | KDirtyCount | KCursor(i: nat) | KPost | KDirect(row: nat)

  datatype Driver = DOff | DPoll | DRange | DCount(y: nat) | DCopy(row: nat, end: nat) | DCursor(i: nat) | DAck

  /** `on` says the mailbox pointer is set. `fb` is the screen under the cursor and `drawn` the cursor the
      driver draws over it. `snap` and `pointer` are the back buffer and the cursor at the instant the
      last accepted flush began its snapshot; `posted` and `done` count flushes posted and acknowledged since the
      mailbox was last zeroed. */
  datatype State = State(back: Frame, cursor: Cursor, publish: Frame, fb: Frame, drawn: Cursor, mb: Mailbox, on: bool,
                         k: Kernel, y0: nat, y1: nat, d: Driver, last: nat,
                         snap: Frame, pointer: Cursor, posted: nat, done: nat)

  /** Before the first launch the kernel writes the screen itself. */
  ghost predicate Init(s: State) {
    && |s.back| == |s.publish| == |s.fb| && s.k.KIdle? && !s.on && s.d.DOff?
    && s.mb == ZEROED && s.posted == s.done == 0 && s.snap == s.back && s.pointer == s.cursor && s.last == 0
  }

  // ---- the kernel ----------------------------------------------------------------------------

  /** Between flushes the kernel draws, or asks for rows `y` to `y + count`, cut to the screen. */
  ghost predicate Idle(s: State, t: State) {
    || (|t.back| == |s.back| && t == s.(back := t.back, cursor := t.cursor))
    || (exists y: nat, count: nat :: Ask(s, t, y, count))
  }

  ghost predicate Ask(s: State, t: State, y: nat, count: nat) {
    var y0, y1 := Min(y, |s.back|), Min(y + count, |s.back|);
    t == if y0 >= y1 then s else s.(y0 := y0, y1 := y1, k := if s.on then KAck else KDirect(y0))
  }

  function Min(a: nat, b: nat): nat { if a < b then a else b }

  ghost predicate KernelStep(s: State, t: State) {
    match s.k
    case KIdle => Idle(s, t)
    case KAck => t == s.(k := KReq(s.mb.ack))
    case KReq(ack) =>
      t == if ack != s.mb.req then s.(k := KIdle) else s.(k := KCopy(s.y0), snap := s.back, pointer := s.cursor)
    case KCopy(row) =>
      t == if row >= s.y1 || row >= |s.back| || row >= |s.publish| then s.(k := KDirtyY)
           else s.(publish := s.publish[row := s.back[row]], k := KCopy(row + 1))
    case KDirtyY => t == s.(mb := s.mb.(y := s.y0), k := KDirtyCount)
    case KDirtyCount => s.y0 <= s.y1 && t == s.(mb := s.mb.(count := s.y1 - s.y0), k := KCursor(0))
    case KCursor(i) =>
      t == if i >= 3 then s.(k := KPost)
           else s.(mb := s.mb.(cursor := s.mb.cursor[i := s.cursor[i]]), k := KCursor(i + 1))
    case KPost => t == s.(mb := s.mb.(req := (s.mb.req + 1) % WRAP), k := KIdle, posted := s.posted + 1)
    case KDirect(row) =>
      t == if row >= s.y1 || row >= |s.back| || row >= |s.fb| then s.(k := KIdle)
           else s.(fb := s.fb[row := s.back[row]], k := KDirect(row + 1))
  }

  /** Service control: ask the driver to stop, drop the pointer once it has gone, launch it
      again with a zeroed mailbox. The last two hold the display lock, so no flush is under way. */
  ghost predicate ControlStep(s: State, t: State) {
    || t == s.(mb := s.mb.(stop := true))
    || (s.d.DOff? && s.k.KIdle? && t == s.(on := false))
    || (s.d.DOff? && s.k.KIdle? && !s.on
        && t == s.(on := true, mb := ZEROED, d := DPoll, last := 0, posted := 0, done := 0))
  }

  // ---- the compositor ------------------------------------------------------------------------

  ghost predicate DriverStep(s: State, t: State) {
    match s.d
    case DOff => t == s
    case DPoll =>
      || (s.mb.stop && t == s.(d := DOff))
      || t == if s.mb.req != s.last then s.(last := s.mb.req, d := DRange) else s
    case DRange => t == s.(d := DCount(Min(s.mb.y, |s.fb|)))
    case DCount(y) => t == s.(d := DCopy(y, Min(y + s.mb.count, |s.fb|)))
    case DCopy(row, end) =>
      t == if row >= end || row >= |s.fb| || row >= |s.publish| then s.(d := DCursor(0))
           else s.(fb := s.fb[row := s.publish[row]], d := DCopy(row + 1, end))
    case DCursor(i) =>
      t == if i >= 3 then s.(d := DAck)
           else s.(drawn := s.drawn[i := s.mb.cursor[i]], d := DCursor(i + 1))
    case DAck => t == s.(mb := s.mb.(ack := s.last), d := DPoll, done := s.done + 1)
  }

  ghost predicate Next(s: State, t: State) { KernelStep(s, t) || ControlStep(s, t) || DriverStep(s, t) }

  ghost predicate Run(tr: seq<State>) {
    && |tr| > 0 && Init(tr[0])
    && forall i :: 0 <= i < |tr| - 1 ==> Next(tr[i], tr[i + 1])
  }

  // ---- the invariant -------------------------------------------------------------------------

  /** `a` shows frame `f` on rows `lo` to `hi`. */
  ghost predicate Shows(a: Frame, f: Frame, lo: nat, hi: nat) {
    && hi <= |a| == |f|
    && forall r :: lo <= r < hi ==> a[r] == f[r]
  }

  ghost predicate Serving(s: State) { s.d.DRange? || s.d.DCount? || s.d.DCopy? || s.d.DCursor? || s.d.DAck? }

  ghost predicate Snapping(s: State) { s.k.KCopy? || s.k.KDirtyY? || s.k.KDirtyCount? || s.k.KCursor? || s.k.KPost? }

  ghost predicate SizesOk(s: State) {
    && |s.back| == |s.publish| == |s.fb| == |s.snap|
    && (!s.k.KIdle? ==> s.y0 < s.y1 <= |s.back|)
    && (!s.on ==> s.d.DOff?)
    && (s.k.KDirect? ==> !s.on) && (s.k.KAck? || s.k.KReq? || Snapping(s) ==> s.on)
  }

  /** At most one posted flush is unacknowledged, and the counters tell which. */
  ghost predicate CountsOk(s: State) {
    && s.done <= s.posted <= s.done + 1
    && s.mb.req == s.posted % WRAP && s.mb.ack == s.done % WRAP
    && (s.d.DPoll? ==> s.last == s.done % WRAP)
    && (Serving(s) ==> s.posted == s.done + 1 && s.last == s.posted % WRAP)
  }

  /** The kernel snapshots only when nothing is outstanding, so never while the driver reads. */
  ghost predicate KernelOk(s: State) {
    && (s.k.KReq? && s.k.ack == s.mb.req ==> s.posted == s.done)
    && (Snapping(s) ==> s.posted == s.done && s.snap == s.back && s.pointer == s.cursor)
    && (s.k.KCopy? ==> s.y0 <= s.k.row <= s.y1 && Shows(s.publish, s.snap, s.y0, s.k.row))
    && (Snapping(s) && !s.k.KCopy? ==> Shows(s.publish, s.snap, s.y0, s.y1))
    && (s.k.KDirtyCount? || s.k.KCursor? || s.k.KPost? ==> s.mb.y == s.y0)
    && (s.k.KCursor? || s.k.KPost? ==> s.mb.count == s.y1 - s.y0)
    && (s.k.KCursor? ==> s.k.i <= 3 && s.mb.cursor[..s.k.i] == s.pointer[..s.k.i])
    && (s.k.KPost? ==> s.mb.cursor == s.pointer)
  }

  ghost predicate DriverOk(s: State) {
    && (s.posted == s.done + 1 ==> Shows(s.publish, s.snap, s.mb.y, s.mb.y + s.mb.count) && s.mb.cursor == s.pointer)
    && (s.d.DCount? ==> s.d.y == s.mb.y)
    && (s.d.DCopy? ==>
         s.d.end == s.mb.y + s.mb.count && s.mb.y <= s.d.row <= s.d.end && Shows(s.fb, s.snap, s.mb.y, s.d.row))
    && (s.d.DCursor? || s.d.DAck? ==> Shows(s.fb, s.snap, s.mb.y, s.mb.y + s.mb.count))
    && (s.d.DCursor? ==> s.d.i <= 3 && s.drawn[..s.d.i] == s.pointer[..s.d.i])
    && (s.d.DAck? ==> s.drawn == s.pointer)
  }

  ghost predicate Inv(s: State) { SizesOk(s) && CountsOk(s) && KernelOk(s) && DriverOk(s) }

  lemma InitKeeps(s: State)
    requires Init(s)
    ensures Inv(s)
  {
  }

  lemma AskKeeps(s: State, t: State)
    requires Inv(s) && KernelStep(s, t) && s.k.KIdle?
    ensures Inv(t)
  {
  }

  lemma AcceptKeeps(s: State, t: State)
    requires Inv(s) && KernelStep(s, t) && (s.k.KAck? || s.k.KReq? || s.k.KDirect?)
    ensures Inv(t)
  {
  }

  lemma CopyKeeps(s: State, t: State)
    requires Inv(s) && KernelStep(s, t) && s.k.KCopy?
    ensures Inv(t)
  {
  }

  lemma DirtyKeeps(s: State, t: State)
    requires Inv(s) && KernelStep(s, t) && (s.k.KDirtyY? || s.k.KDirtyCount?)
    ensures Inv(t)
  {
  }

  lemma CursorKeeps(s: State, t: State)
    requires Inv(s) && KernelStep(s, t) && s.k.KCursor?
    ensures Inv(t)
  {
  }

  lemma PostKeeps(s: State, t: State)
    requires Inv(s) && KernelStep(s, t) && s.k.KPost?
    ensures Inv(t)
  {
  }

  lemma KernelKeeps(s: State, t: State)
    requires Inv(s) && KernelStep(s, t)
    ensures Inv(t)
  {
    hide Inv, KernelStep;
    if s.k.KCopy? {
      CopyKeeps(s, t);
    } else if s.k.KDirtyY? || s.k.KDirtyCount? {
      DirtyKeeps(s, t);
    } else if s.k.KCursor? {
      CursorKeeps(s, t);
    } else if s.k.KPost? {
      PostKeeps(s, t);
    } else if s.k.KIdle? {
      AskKeeps(s, t);
    } else {
      AcceptKeeps(s, t);
    }
  }

  lemma ControlKeeps(s: State, t: State)
    requires Inv(s) && ControlStep(s, t)
    ensures Inv(t)
  {
  }

  lemma DriverKeeps(s: State, t: State)
    requires Inv(s) && DriverStep(s, t)
    ensures Inv(t)
  {
    hide Inv, DriverStep;
    if s.d.DCopy? { ShowKeeps(s, t); } else if s.d.DCursor? { DrawKeeps(s, t); } else { PollKeeps(s, t); }
  }

  lemma PollKeeps(s: State, t: State)
    requires Inv(s) && DriverStep(s, t) && !s.d.DCopy? && !s.d.DCursor?
    ensures Inv(t)
  {
  }

  lemma ShowKeeps(s: State, t: State)
    requires Inv(s) && DriverStep(s, t) && s.d.DCopy?
    ensures Inv(t)
  {
  }

  lemma DrawKeeps(s: State, t: State)
    requires Inv(s) && DriverStep(s, t) && s.d.DCursor?
    ensures Inv(t)
  {
    if s.d.i < 3 { assert t.drawn[..s.d.i + 1] == t.pointer[..s.d.i + 1]; }
  }

  lemma {:induction false} RunKeeps(tr: seq<State>, n: nat)
    requires Run(tr) && n < |tr|
    ensures Inv(tr[n])
  {
    hide Inv, Init, KernelStep, ControlStep, DriverStep;
    if n == 0 {
      InitKeeps(tr[0]);
    } else {
      RunKeeps(tr, n - 1);
      assert Next(tr[n - 1], tr[n]);
      var s, t := tr[n - 1], tr[n];
      if KernelStep(s, t) {
        KernelKeeps(s, t);
      } else if ControlStep(s, t) {
        ControlKeeps(s, t);
      } else {
        DriverKeeps(s, t);
      }
    }
  }

  // ---- what every run promises -----------------------------------------------------------------

  /** The step at which the kernel accepts a flush and begins its snapshot. */
  ghost predicate Accepts(s: State, t: State) { s.k.KReq? && s.k.ack == s.mb.req && t.k.KCopy? }

  /** A flush has been accepted and is not yet acknowledged. */
  ghost predicate Active(s: State) { Snapping(s) || s.posted == s.done + 1 }

  /** The flush active in `t` is the one accepted in `s`: its rows, its number, its instant. */
  ghost predicate AcceptedIn(s: State, t: State) {
    && s.back == t.snap && s.cursor == t.pointer
    && if Snapping(t) then s.posted == t.posted && s.y0 == t.y0 && s.y1 == t.y1
       else s.posted + 1 == t.posted && s.y0 == t.mb.y && s.y1 == t.mb.y + t.mb.count
  }

  /** No tearing: in every run, when the driver acknowledges a flush, the rows that flush named
      show the back buffer as it was at one single instant, the one at which that very flush was
      accepted, and the cursor drawn over them is the cursor of that same instant. No other
      flush has been accepted since. */
  lemma NoTearing(tr: seq<State>, n: nat) returns (m: nat)
    requires Run(tr) && n < |tr| && tr[n].d.DAck?
    ensures m < n && Accepts(tr[m], tr[m + 1]) && tr[m].posted + 1 == tr[n].posted == tr[n].done + 1
    ensures forall k :: m < k < n ==> !Accepts(tr[k], tr[k + 1])
    ensures tr[n].mb.y == tr[m].y0 && tr[n].mb.y + tr[n].mb.count == tr[m].y1
    ensures Shows(tr[n].fb, tr[m].back, tr[m].y0, tr[m].y1) && tr[n].drawn == tr[m].cursor
  {
    RunKeeps(tr, n);
    m := AcceptedAt(tr, n);
  }

  /** The latest acceptance before an active flush is that flush's own. */
  lemma {:induction false} AcceptedAt(tr: seq<State>, n: nat) returns (m: nat)
    requires Run(tr) && n < |tr| && Active(tr[n])
    ensures m < n && Accepts(tr[m], tr[m + 1]) && AcceptedIn(tr[m], tr[n])
    ensures forall k :: m < k < n ==> !Accepts(tr[k], tr[k + 1])
  {
    hide Inv, Next, Active, Accepts, AcceptedIn;
    RunKeeps(tr, n);
    if n == 0 {
      NotActive(tr[0]);
      assert false;
    } else {
      RunKeeps(tr, n - 1);
      assert Next(tr[n - 1], tr[n]);
      if Accepts(tr[n - 1], tr[n]) {
        AcceptStep(tr[n - 1], tr[n]);
        m := n - 1;
      } else {
        ActiveBefore(tr[n - 1], tr[n]);
        m := AcceptedAt(tr, n - 1);
        StillAccepted(tr[m], tr[n - 1], tr[n]);
      }
    }
  }

  lemma NotActive(s: State)
    requires Init(s)
    ensures !Active(s)
  {
  }

  lemma AcceptStep(s: State, t: State)
    requires Inv(s) && Next(s, t) && Accepts(s, t)
    ensures AcceptedIn(s, t)
  {
  }

  lemma ActiveBefore(s: State, t: State)
    requires Inv(s) && Next(s, t) && Active(t) && !Accepts(s, t)
    ensures Active(s)
  {
  }

  lemma StillAccepted(a: State, s: State, t: State)
    requires Inv(s) && Next(s, t) && Active(s) && Active(t) && AcceptedIn(a, s) && !Accepts(s, t)
    ensures AcceptedIn(a, t)
  {
    if KernelStep(s, t) {
      StillKernel(a, s, t);
    } else if ControlStep(s, t) {
    } else {
      StillDriver(a, s, t);
    }
  }

  lemma StillKernel(a: State, s: State, t: State)
    requires Inv(s) && KernelStep(s, t) && Active(s) && Active(t) && AcceptedIn(a, s) && !Accepts(s, t)
    ensures AcceptedIn(a, t)
  {
  }

  lemma StillDriver(a: State, s: State, t: State)
    requires Inv(s) && DriverStep(s, t) && Active(s) && Active(t) && AcceptedIn(a, s)
    ensures AcceptedIn(a, t)
  {
  }

  /** The two sides never touch the snapshot buffer at the same time. */
  lemma Exclusive(tr: seq<State>, n: nat)
    requires Run(tr) && n < |tr|
    ensures !(Snapping(tr[n]) && Serving(tr[n]))
  {
    RunKeeps(tr, n);
  }

  /** While a flush is unacknowledged, no step but a relaunch touches the snapshot, its range or its cursor. */
  lemma Frozen(tr: seq<State>, n: nat)
    requires Run(tr) && n + 1 < |tr| && tr[n].mb.req != tr[n].mb.ack && tr[n + 1].posted == tr[n].posted
    ensures tr[n + 1].publish == tr[n].publish
    ensures tr[n + 1].mb.(stop := tr[n].mb.stop, ack := tr[n].mb.ack) == tr[n].mb
  {
    RunKeeps(tr, n);
    assert Next(tr[n], tr[n + 1]);
  }

  /** A flush is dropped exactly when the previous one is unacknowledged, wrapped counters or not. */
  lemma DroppedIff(tr: seq<State>, n: nat)
    requires Run(tr) && n + 2 < |tr| && tr[n].k.KAck? && tr[n + 1].k == KReq(tr[n].mb.ack)
    requires KernelStep(tr[n + 1], tr[n + 2])
    ensures tr[n + 2].k.KIdle? <==> tr[n].posted != tr[n].done
  {
    RunKeeps(tr, n);
    RunKeeps(tr, n + 1);
    assert Next(tr[n], tr[n + 1]);
  }

  // ---- that flushes are shown -------------------------------------------------------------------

  /** `a` and `b` differ at most on rows `lo` to `hi`. */
  ghost predicate SameOutside(a: Frame, b: Frame, lo: nat, hi: nat) {
    && |a| == |b|
    && forall r :: 0 <= r < |a| && !(lo <= r < hi) ==> a[r] == b[r]
  }

  ghost function Last(tr: seq<State>): State
    requires |tr| > 0
  {
    tr[|tr| - 1]
  }

  lemma Extend(tr: seq<State>, t: State) returns (u: seq<State>)
    requires |tr| > 0 && Run(tr) && Next(Last(tr), t)
    ensures |u| > 0 && Run(u) && Last(u) == t && u == tr + [t]
  {
    hide Next, Init;
    u := tr + [t];
    forall i | 0 <= i < |u| - 1 ensures Next(u[i], u[i + 1]) {
      if i < |tr| - 1 { assert u[i] == tr[i] && u[i + 1] == tr[i + 1]; }
    }
  }

  lemma {:induction false} Snap(tr: seq<State>, row: nat) returns (u: seq<State>)
    requires |tr| > 0 && Run(tr) && Last(tr).k == KCopy(row) && row <= Last(tr).y1 <= |Last(tr).back|
    requires |Last(tr).back| == |Last(tr).publish|
    ensures |u| > 0 && Run(u) && tr <= u && Last(u) == Last(tr).(k := KDirtyY, publish := Last(u).publish)
    ensures |Last(u).publish| == |Last(tr).publish|
    decreases Last(tr).y1 - row
  {
    hide Run;
    var s := Last(tr);
    if row == s.y1 {
      u := Extend(tr, s.(k := KDirtyY));
    } else {
      u := Extend(tr, s.(publish := s.publish[row := s.back[row]], k := KCopy(row + 1)));
      u := Snap(u, row + 1);
    }
  }

  lemma {:induction false} Show(tr: seq<State>, row: nat, end: nat) returns (u: seq<State>)
    requires |tr| > 0 && Run(tr) && Last(tr).d == DCopy(row, end) && row <= end <= |Last(tr).fb|
    requires |Last(tr).fb| == |Last(tr).publish|
    ensures |u| > 0 && Run(u) && tr <= u && Last(u) == Last(tr).(d := DCursor(0), fb := Last(u).fb)
    ensures SameOutside(Last(u).fb, Last(tr).fb, row, end)
    decreases end - row
  {
    hide Run;
    var s := Last(tr);
    if row == end {
      u := Extend(tr, s.(d := DCursor(0)));
    } else {
      u := Extend(tr, s.(fb := s.fb[row := s.publish[row]], d := DCopy(row + 1, end)));
      u := Show(u, row + 1, end);
    }
  }

  /** The cursor and the request counter follow the rows. */
  lemma PostCursor(tr: seq<State>) returns (u: seq<State>)
    requires |tr| > 0 && Run(tr) && Last(tr).k == KCursor(0)
    ensures |u| > 0 && Run(u) && tr <= u
    ensures Last(u).mb == Last(tr).mb.(cursor := Last(u).mb.cursor, req := (Last(tr).mb.req + 1) % WRAP)
    ensures Last(u) == Last(tr).(k := KIdle, mb := Last(u).mb, posted := Last(tr).posted + 1)
  {
    hide Run;
    u := Extend(tr, Last(tr).(mb := Last(tr).mb.(cursor := Last(tr).mb.cursor[0 := Last(tr).cursor[0]]),
                              k := KCursor(1)));
    u := Extend(u, Last(u).(mb := Last(u).mb.(cursor := Last(u).mb.cursor[1 := Last(u).cursor[1]]), k := KCursor(2)));
    u := Extend(u, Last(u).(mb := Last(u).mb.(cursor := Last(u).mb.cursor[2 := Last(u).cursor[2]]), k := KCursor(3)));
    u := Extend(u, Last(u).(k := KPost));
    u := Extend(u, Last(u).(mb := Last(u).mb.(req := (Last(u).mb.req + 1) % WRAP), k := KIdle,
                            posted := Last(u).posted + 1));
  }

  /** From the start of the snapshot to the post. */
  lemma PostFlush(tr: seq<State>) returns (u: seq<State>)
    requires |tr| > 0 && Run(tr) && Last(tr).k == KCopy(Last(tr).y0) && Last(tr).y0 <= Last(tr).y1 <= |Last(tr).back|
    requires |Last(tr).back| == |Last(tr).publish|
    ensures |u| > 0 && Run(u) && tr <= u && |Last(u).publish| == |Last(tr).publish|
    ensures Last(u).mb == Last(tr).mb.(y := Last(tr).y0, count := Last(tr).y1 - Last(tr).y0,
                                       cursor := Last(u).mb.cursor, req := (Last(tr).mb.req + 1) % WRAP)
    ensures Last(u) == Last(tr).(k := KIdle, publish := Last(u).publish, mb := Last(u).mb,
                                 posted := Last(tr).posted + 1)
  {
    hide Run;
    u := Snap(tr, Last(tr).y0);
    u := Extend(u, Last(u).(mb := Last(u).mb.(y := Last(u).y0), k := KDirtyCount));
    u := Extend(u, Last(u).(mb := Last(u).mb.(count := Last(u).y1 - Last(u).y0), k := KCursor(0)));
    u := PostCursor(u);
  }

  lemma ShowCursor(tr: seq<State>) returns (u: seq<State>)
    requires |tr| > 0 && Run(tr) && Last(tr).d == DCursor(0)
    ensures |u| > 0 && Run(u) && tr <= u && Last(u) == Last(tr).(d := DAck, drawn := Last(u).drawn)
  {
    hide Run;
    u := Extend(tr, Last(tr).(drawn := Last(tr).drawn[0 := Last(tr).mb.cursor[0]], d := DCursor(1)));
    u := Extend(u, Last(u).(drawn := Last(u).drawn[1 := Last(u).mb.cursor[1]], d := DCursor(2)));
    u := Extend(u, Last(u).(drawn := Last(u).drawn[2 := Last(u).mb.cursor[2]], d := DCursor(3)));
    u := Extend(u, Last(u).(d := DAck));
  }

  /** From the post to the acknowledgement. */
  lemma ShowFlush(tr: seq<State>) returns (u: seq<State>)
    requires |tr| > 0 && Run(tr) && Last(tr).d.DPoll? && Last(tr).mb.req != Last(tr).last
    requires Last(tr).mb.y + Last(tr).mb.count <= |Last(tr).fb| == |Last(tr).publish|
    ensures |u| > 0 && Run(u) && tr <= u && Last(u).d.DAck?
    ensures Last(u) == Last(tr).(d := DAck, fb := Last(u).fb, drawn := Last(u).drawn, last := Last(tr).mb.req)
    ensures SameOutside(Last(u).fb, Last(tr).fb, Last(tr).mb.y, Last(tr).mb.y + Last(tr).mb.count)
  {
    hide Run;
    u := Extend(tr, Last(tr).(last := Last(tr).mb.req, d := DRange));
    u := Extend(u, Last(u).(d := DCount(Last(u).mb.y)));
    u := Extend(u, Last(u).(d := DCopy(Last(u).mb.y, Last(u).mb.y + Last(u).mb.count)));
    u := Show(u, Last(u).mb.y, Last(u).mb.y + Last(u).mb.count);
    u := ShowCursor(u);
  }

  /** Every flush can be shown: after any run that leaves the compositor polling and nothing outstanding, a request for
      rows the screen has can go on to its acknowledgement, with exactly those rows and the cursor on the
      screen. */
  lemma CanFlush(tr: seq<State>, y: nat, count: nat) returns (u: seq<State>)
    requires |tr| > 0 && Run(tr) && Last(tr).on && Last(tr).k.KIdle? && Last(tr).d.DPoll?
    requires Last(tr).posted == Last(tr).done && count > 0 && y < |Last(tr).back|
    ensures |u| > 0 && Run(u) && tr <= u && Last(u).d.DAck? && Last(u).k.KIdle? && Last(u).back == Last(tr).back
    ensures |Last(u).fb| == |Last(u).back|
    ensures forall r :: y <= r < y + count && r < |Last(u).back| ==> Last(u).fb[r] == Last(u).back[r]
    ensures SameOutside(Last(u).fb, Last(tr).fb, y, y + count)
    ensures Last(u).drawn == Last(tr).cursor && Last(u).posted == Last(tr).posted + 1
  {
    hide Run, Inv;
    var s, y0, y1 := Last(tr), y, Min(y + count, |Last(tr).back|);
    IdleFacts(tr);
    var asked := s.(y0 := y0, y1 := y1, k := KAck);
    assert Ask(s, asked, y, count);
    u := Extend(tr, asked);
    u := Extend(u, Last(u).(k := KReq(Last(u).mb.ack)));
    u := Extend(u, Last(u).(k := KCopy(y0), snap := Last(u).back, pointer := Last(u).cursor));
    u := PostFlush(u);
    u := ShowFlush(u);
    ShownFacts(u);
  }

  lemma IdleFacts(tr: seq<State>)
    requires |tr| > 0 && Run(tr)
    ensures var s := Last(tr);
      && |s.back| == |s.publish| == |s.fb| && (s.posted == s.done ==> s.mb.req == s.mb.ack)
      && (s.d.DPoll? ==> s.last == s.mb.ack) && s.mb.req < WRAP
  {
    RunKeeps(tr, |tr| - 1);
  }

  lemma ShownFacts(tr: seq<State>)
    requires |tr| > 0 && Run(tr) && Last(tr).d.DAck?
    ensures var s := Last(tr);
      Shows(s.fb, s.snap, s.mb.y, s.mb.y + s.mb.count) && s.drawn == s.pointer && |s.fb| == |s.back| == |s.snap|
  {
    RunKeeps(tr, |tr| - 1);
  }
}
