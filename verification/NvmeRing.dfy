/** The NVMe submission and completion rings: the kernel's `q_submit` and `q_wait` against a
    device that follows section 4.6 of the NVM Express Base Specification 1.4 (the phase tag). */
module NvmeRing {

  const QD: nat := 64
  const MAX_SPINS: nat := 200_000_000
  const TIMED_OUT: nat := 0xFFF

  /** `cdw0` carries the opcode in its low half and the command id in its high half. */
  datatype SqEntry = SqEntry(cdw0: nat, body: seq<nat>)

  /** Bit 0 of `status` is the phase tag, the rest the status code. */
  datatype CqEntry = CqEntry(cid: nat, status: nat)

  function Tagged(e: SqEntry, cid: nat): SqEntry { e.(cdw0 := e.cdw0 % 0x1_0000 + cid * 0x1_0000) }

  function IdOf(e: SqEntry): nat { e.cdw0 / 0x1_0000 }

  function Slot(n: nat): (r: nat)
    ensures r < QD
  {
    n % QD
  }

  /** The tag of lap number `n / QD`: the first lap writes ones into zeroed memory. */
  function Phase(n: nat): bool { n / QD % 2 == 0 }

  function Bit(b: bool): nat { if b then 1 else 0 }

  lemma NextSlot(n: nat)
    ensures Slot(n + 1) == (Slot(n) + 1) % QD
    ensures Phase(n + 1) == if Slot(n + 1) == 0 then !Phase(n) else Phase(n)
  {
  }

  lemma OneLapOn(n: nat)
    ensures Slot(n + QD) == Slot(n) && Phase(n + QD) == !Phase(n)
  {
  }

  lemma SameLap(m: nat, n: nat)
    requires m < n < m + QD
    ensures Slot(m) != Slot(n)
  {
  }

  /** Entry `f` is command `e` under the id `cid`: opcode and flags in the low half of its first word, the id in the
      high half, and every other word as the caller gave it. */
  ghost predicate Carries(f: SqEntry, e: SqEntry, cid: nat) {
    f.cdw0 % 0x1_0000 == e.cdw0 % 0x1_0000 && f.cdw0 / 0x1_0000 == cid && f.body == e.body
  }

  lemma IdReads(e: SqEntry, cid: nat)
    ensures Carries(Tagged(e, cid), e, cid) && IdOf(Tagged(e, cid)) == cid
  {
  }

  /** One command, and when and how the device will answer it. */
  datatype Job = Job(cid: nat, cmd: SqEntry, at: nat, code: nat) {
    /** The status the kernel gets: the device's code, eleven bits of it, or that it came too late. */
    function Status(): nat { if at <= MAX_SPINS then code % 0x800 else TIMED_OUT }
  }

  /** A queue pair and the device at its other end. The history fields record every command
      submitted and the id and code of every completion the device has posted. */
  class Ring {
    // kernel side
    const sq: array<SqEntry>
    const cq: array<CqEntry>
    var sqTail: nat
    var cqHead: nat
    var phase: bool
    // doorbells
    var sqBell: nat
    var cqBell: nat
    // device side
    var fetched: nat
    var tail: nat
    var tag: bool
    // history
    ghost var commands: seq<SqEntry>
    ghost var posted: seq<(nat, nat)>
    ghost var consumed: nat

    ghost predicate Valid()
      reads this, sq, cq
    {
      && sq.Length == cq.Length == QD
      && consumed <= |posted| <= |commands| <= consumed + 1
      && sqTail == sqBell == Slot(|commands|)
      && cqHead == cqBell == Slot(consumed) && phase == Phase(consumed)
      && fetched == tail == Slot(|posted|) && tag == Phase(|posted|)
      && InFlight(sq[..], commands, |posted|)
      && Holds(cq[..], posted)
      && forall k :: 0 <= k < |posted| ==> posted[k].0 == IdOf(commands[k])
    }

    constructor ()
      ensures Valid() && fresh(sq) && fresh(cq) && commands == [] && posted == [] && consumed == 0
    {
      sq := new SqEntry[QD](_ => SqEntry(0, []));
      cq := new CqEntry[QD](_ => CqEntry(0, 0));
      sqTail, cqHead, phase, sqBell, cqBell := 0, 0, true, 0, 0;
      fetched, tail, tag := 0, 0, true;
      commands, posted, consumed := [], [], 0;
    }

    /** Put a command in the ring and ring the doorbell; the id goes into the high half, and the rest of the command
        reaches the device as it is. */
    method Submit(cid: nat, cmd: SqEntry)
      requires Valid() && |commands| == consumed
      modifies this`sqTail, this`sqBell, this`commands, sq
      ensures Valid() && |commands| == |old(commands)| + 1 && commands[..|old(commands)|] == old(commands)
      ensures Carries(commands[|old(commands)|], cmd, cid)
      ensures sqBell == (old(sqTail) + 1) % QD && old(sqTail) < QD && Carries(sq[old(sqTail)], cmd, cid)
      ensures forall k :: 0 <= k < QD && k != old(sqTail) ==> sq[k] == old(sq[k])
    {
      NextSlot(|commands|);
      IdReads(cmd, cid);
      var e := Tagged(cmd, cid);
      sq[sqTail] := e;
      sqTail := (sqTail + 1) % QD;
      sqBell := sqTail;
      commands := commands + [e];
    }

    /** The device takes the oldest command it has not answered and posts its completion. */
    method DeviceAnswers(code: nat)
      requires Valid() && |posted| < |commands|
      modifies this`fetched, this`tail, this`tag, this`posted, cq
      ensures Valid() && posted == old(posted) + [(IdOf(commands[|old(posted)|]), code)]
    {
      hide Slot, Phase, Holds, IdOf;
      NextSlot(|posted|);
      var cid := IdOf(sq[fetched]);
      cq[tail] := CqEntry(cid, 2 * code + Bit(tag));
      HoldsNext(old(cq[..]), posted, cid, code);
      assert cq[..] == old(cq[..])[Slot(|posted|) := CqEntry(cid, 2 * code + Bit(Phase(|posted|)))];
      posted := posted + [(cid, code)];
      fetched := (fetched + 1) % QD;
      tail := (tail + 1) % QD;
      if tail == 0 { tag := !tag; }
    }

    /** Spin on the completion at the head. The device answers just before spin number `at`, if
        it has not answered already, with `code`. One completion is consumed, the one for this
        command, unless the device stays silent for every spin. */
    method Wait(cid: nat, at: nat, code: nat) returns (s: nat)
      requires Valid() && |commands| == consumed + 1 && IdOf(commands[consumed]) == cid
      modifies this, cq
      ensures Valid() && commands == old(commands)
      ensures old(posted) <= posted
      ensures consumed == old(consumed) + (if |posted| == |commands| then 1 else 0)
      ensures |posted| == |commands| <==> |old(posted)| == |commands| || at <= MAX_SPINS
      ensures |old(posted)| < |posted| ==> posted == old(posted) + [(cid, code)]
      ensures s == if |posted| == |commands| then posted[old(consumed)].1 % 0x800 else TIMED_OUT
    {
      hide Slot, Phase, Holds, InFlight, IdOf;
      var spins := 0;
      while true
        invariant Valid() && commands == old(commands) && consumed == old(consumed)
        invariant spins <= MAX_SPINS
        invariant posted == old(posted) || posted == old(posted) + [(cid, code)]
        invariant |old(posted)| == |commands| ==> posted == old(posted)
        invariant |posted| < |commands| <==> |old(posted)| < |commands| && spins <= at
        decreases MAX_SPINS - spins
      {
        if |posted| < |commands| { SameLap(|posted|, |commands|); }
        if spins == at && fetched != sqBell { DeviceAnswers(code); }
        var e := cq[cqHead];
        HeadEntry(cq[..], posted, commands, consumed);
        if e.status % 2 == Bit(phase) && e.cid == cid {
          s := e.status / 2 % 0x800;
          NextSlot(consumed);
          cqHead := (cqHead + 1) % QD;
          if cqHead == 0 { phase := !phase; }
          cqBell := cqHead;
          consumed := consumed + 1;
          return;
        }
        spins := spins + 1;
        if spins > MAX_SPINS { return TIMED_OUT; }
      }
    }

    /** Submit one command and wait for it. */
    method Issue(job: Job) returns (s: nat)
      requires Valid() && |commands| == consumed
      modifies this, sq, cq
      ensures Valid() && s == job.Status() && |commands| == |old(commands)| + 1
      ensures commands[..|old(commands)|] == old(commands) && Carries(commands[|old(commands)|], job.cmd, job.cid)
      ensures |posted| == consumed == old(consumed) + if job.at <= MAX_SPINS then 1 else 0
      ensures posted == if job.at <= MAX_SPINS then old(posted) + [(job.cid, job.code)] else old(posted)
    {
      hide Slot, Phase, Holds, InFlight;
      Submit(job.cid, job.cmd);
      s := Wait(job.cid, job.at, job.code);
    }

    /** Issue the commands in `jobs` in turn and wait for each, from a fresh queue or any later state, until one
        times out, which is where the kernel stops: every caller panics on that status.  However often the
        rings wrap, each call returns the device's own code for its own command, every completion is
        consumed once, and the head and tag stay in step. */
    method Session(jobs: seq<Job>) returns (codes: seq<nat>)
      requires Valid() && |commands| == consumed
      modifies this, sq, cq
      ensures Valid() && |codes| <= |jobs|
      ensures forall i :: 0 <= i < |codes| ==> codes[i] == jobs[i].Status()
      ensures forall i :: 0 <= i < |codes| - 1 ==> jobs[i].at <= MAX_SPINS
      ensures |codes| == |jobs| || (codes != [] && jobs[|codes| - 1].at > MAX_SPINS)
      ensures |commands| == old(consumed) + |codes|
      ensures var late := codes != [] && jobs[|codes| - 1].at > MAX_SPINS;
              |posted| == consumed == old(consumed) + |codes| - if late then 1 else 0
      ensures cqHead == consumed % QD && phase == (consumed / QD % 2 == 0)
      ensures forall i :: 0 <= i < consumed - old(consumed) ==> posted[old(consumed) + i] == (jobs[i].cid, jobs[i].code)
      ensures forall i :: 0 <= i < |codes| ==> Carries(commands[old(consumed) + i], jobs[i].cmd, jobs[i].cid)
    {
      hide Slot, Phase, Holds, InFlight, Carries, IdOf;
      codes := [];
      for n := 0 to |jobs|
        invariant Valid() && |codes| == n && |commands| == |posted| == consumed == old(consumed) + n
        invariant forall i :: 0 <= i < n ==> codes[i] == jobs[i].Status() && jobs[i].at <= MAX_SPINS
        invariant Issued(commands, jobs, old(consumed), n) && Answered(posted, jobs, old(consumed), n)
      {
        ghost var before, known := commands, posted;
        var s := Issue(jobs[n]);
        IssuedMore(before, commands, jobs, old(consumed), n);
        codes := codes + [s];
        if s == TIMED_OUT { Place(consumed); return; }
        AnsweredMore(known, posted, jobs, old(consumed), n);
      }
      Place(consumed);
    }
  }

  /** The first `n` jobs have been submitted as commands `from`, `from + 1` and so on. */
  ghost predicate Issued(commands: seq<SqEntry>, jobs: seq<Job>, from: nat, n: nat) {
    && n <= |jobs| && from + n <= |commands|
    && forall i :: 0 <= i < n ==> Carries(commands[from + i], jobs[i].cmd, jobs[i].cid)
  }

  ghost predicate Answered(posted: seq<(nat, nat)>, jobs: seq<Job>, from: nat, n: nat) {
    && n <= |jobs| && from + n <= |posted|
    && forall i :: 0 <= i < n ==> posted[from + i] == (jobs[i].cid, jobs[i].code)
  }

  lemma IssuedMore(a: seq<SqEntry>, b: seq<SqEntry>, jobs: seq<Job>, from: nat, n: nat)
    requires Issued(a, jobs, from, n) && n < |jobs| && |a| == from + n && |b| == |a| + 1 && b[..|a|] == a
    requires Carries(b[|a|], jobs[n].cmd, jobs[n].cid)
    ensures Issued(b, jobs, from, n + 1)
  {
    hide Carries;
    assert forall k :: 0 <= k < |a| ==> b[k] == a[k];
  }

  lemma AnsweredMore(a: seq<(nat, nat)>, b: seq<(nat, nat)>, jobs: seq<Job>, from: nat, n: nat)
    requires Answered(a, jobs, from, n) && n < |jobs| && |a| == from + n && b == a + [(jobs[n].cid, jobs[n].code)]
    ensures Answered(b, jobs, from, n + 1)
  {
  }

  lemma Place(n: nat)
    ensures Slot(n) == n % QD && Phase(n) == (n / QD % 2 == 0)
  {
  }

  /** Every command the device has yet to answer sits in its slot. */
  ghost predicate InFlight(sq: seq<SqEntry>, commands: seq<SqEntry>, from: nat)
    requires |sq| == QD
  {
    forall k :: from <= k < |commands| ==> sq[Slot(k)] == commands[k]
  }

  /** Each slot holds the last completion posted to it, tagged with its lap; an unused slot is zero. */
  ghost predicate Holds(cq: seq<CqEntry>, posted: seq<(nat, nat)>)
    requires |cq| == QD
  {
    && (forall k :: |posted| - QD <= k < |posted| && 0 <= k ==>
         cq[Slot(k)] == CqEntry(posted[k].0, 2 * posted[k].1 + Bit(Phase(k))))
    && (forall i :: |posted| <= i < QD ==> cq[i] == CqEntry(0, 0))
  }

  lemma HoldsNext(cq: seq<CqEntry>, posted: seq<(nat, nat)>, cid: nat, code: nat)
    requires |cq| == QD && Holds(cq, posted)
    ensures Holds(cq[Slot(|posted|) := CqEntry(cid, 2 * code + Bit(Phase(|posted|)))], posted + [(cid, code)])
  {
    var n := |posted|;
    var cq' := cq[Slot(n) := CqEntry(cid, 2 * code + Bit(Phase(n)))];
    var posted' := posted + [(cid, code)];
    forall k | |posted'| - QD <= k < |posted'| && 0 <= k
      ensures cq'[Slot(k)] == CqEntry(posted'[k].0, 2 * posted'[k].1 + Bit(Phase(k)))
    {
      if k < n { SameLap(k, n); }
    }
  }

  /** The entry at the head carries the expected tag exactly when the device has answered, and is then
      the answer to the oldest unanswered command: a stale entry is never taken for a new one. */
  lemma HeadEntry(cq: seq<CqEntry>, posted: seq<(nat, nat)>, commands: seq<SqEntry>, consumed: nat)
    requires |cq| == QD && Holds(cq, posted) && consumed <= |posted| <= |commands| <= consumed + 1
    ensures cq[Slot(consumed)].status % 2 == Bit(Phase(consumed)) <==> consumed < |posted|
    ensures consumed < |posted| ==>
      cq[Slot(consumed)] == CqEntry(posted[consumed].0, 2 * posted[consumed].1 + Bit(Phase(consumed)))
  {
    if consumed == |posted| && consumed >= QD {
      OneLapOn(consumed - QD);
      assert cq[Slot(consumed - QD)].status == 2 * posted[consumed - QD].1 + Bit(Phase(consumed - QD));
    }
  }
}
