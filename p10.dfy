/**
 * POWER10 thread and core control (libpdbg/p10chip.c).
 *
 * A thread's run state is decoded from three SCOM registers of its core;
 * start, stop and sreset each write one bit of the direct-control register
 * and then refresh the cached state; special wakeup is requested when a
 * core is probed and dropped on release unless a thread is still quiesced.
 *
 * All registers are reached through the core's bus (Hwunit.Bus), whose log
 * records every access with its answer, so the contracts state exactly
 * which reads and writes each operation makes.
 *
 * Bit numbering follows the Power convention (MSB-0): PPC_BIT(n) is
 * 1 << (63 - n).  The header defining PPC_BIT, PPC_BITMASK and GETFIELD is
 * not part of this model; PpcBit, PpcBitMask and GetField below are those
 * definitions.
 */
module P10 {
  import opened Hwunit

  const P10_CORE_THREAD_STATE: bv64 := 0x28412
  const P10_THREAD_INFO: bv64 := 0x28413
  const P10_DIRECT_CONTROL: bv64 := 0x28449
  const P10_RAS_STATUS: bv64 := 0x28454
  /** PCB slave registers of the core's quad management engine. */
  const QME_SSH_FSP: bv64 := 0xE8824
  const QME_SPWU_FSP: bv64 := 0xE8834

  /** Poll bounds, in 1 ms steps. */
  const RAS_STATUS_TIMEOUT: nat := 100
  const SPECIAL_WKUP_TIMEOUT: nat := 100

  // ---------------------------------------------------------------------
  // MSB-0 bit helpers.

  /** PPC_BIT(n): bit n counted from the most significant end. */
  function PpcBit(n: bv64): bv64
    requires n < 64
  {
    1 << (63 - n)
  }

  /** SPECIAL_WKUP_DONE: bit 1 of QME_SSH_FSP. */
  const SPECIAL_WKUP_DONE: bv64 := 0x4000_0000_0000_0000

  /** A check of the literal above against PPC_BIT(1). */
  lemma SpecialWakeupDoneBit()
    ensures SPECIAL_WKUP_DONE == PpcBit(1)
  {
  }

  /** PPC_BITMASK(bs, be): MSB-0 bits bs to be inclusive. */
  function PpcBitMask(bs: bv64, be: bv64): bv64
    requires bs <= be < 64
  {
    (PpcBit(bs) - PpcBit(be)) | PpcBit(bs)
  }

  /** GETFIELD(PPC_BITMASK(bs, be), v): the field shifted down by the mask's
      trailing zero count, which is 63 - be. */
  function GetField(bs: bv64, be: bv64, v: bv64): bv64
    requires bs <= be < 64
  {
    (v & PpcBitMask(bs, be)) >> (63 - be)
  }

  // ---------------------------------------------------------------------
  // Decoding the thread state (p10_thread_state).

  /** The SMT mode field of P10_THREAD_INFO, as the switch maps it. */
  function SmtOf(mode: bv64): SmtState
  {
    if mode == 0 then Smt1
    else if mode == 2 then Smt2
    else if mode == 3 then Smt4
    else SmtUnknown
  }

  /**
   * struct thread_state of thread id from the three register values ras
   * (P10_RAS_STATUS), info (P10_THREAD_INFO) and cts
   * (P10_CORE_THREAD_STATE).  The C keeps the SMT field in a uint8_t,
   * which holds it whole (SmtFieldFits).
   */
  function Decode(id: bv64, ras: bv64, info: bv64, cts: bv64): ThreadState
    requires id < 8
  {
    ThreadState(
      GetField(1 + 8 * id, 3 + 8 * id, ras) == 7,
      info & PpcBit(id) != 0,
      SmtOf(GetField(8, 9, info)),
      if cts & PpcBit(56 + id) != 0 then Stop else Run)
  }

  /** A check for Decode: the SMT field is two bits wide, so the C's uint8_t
      holds it whole. */
  lemma SmtFieldFits(info: bv64)
    ensures GetField(8, 9, info) <= 3
  {
  }

  /** Thread id is quiesced exactly when all three of its RAS status bits
      1 + 8id, 2 + 8id and 3 + 8id are set. */
  lemma QuiescedBits(id: bv64, ras: bv64)
    requires id < 8
    ensures GetField(1 + 8 * id, 3 + 8 * id, ras) == 7
            <==> ras & PpcBit(1 + 8 * id) != 0 && ras & PpcBit(2 + 8 * id) != 0 && ras & PpcBit(3 + 8 * id) != 0
  {
    QuiescedMask(id);
  }

  /** The thread's three-bit RAS status field is its three single bits. */
  lemma QuiescedMask(id: bv64)
    requires id < 8
    ensures PpcBitMask(1 + 8 * id, 3 + 8 * id) == PpcBit(1 + 8 * id) | PpcBit(2 + 8 * id) | PpcBit(3 + 8 * id)
  {
  }

  /** The SMT mode by bits 8 and 9 of P10_THREAD_INFO: neither set is SMT1,
      bit 8 alone SMT2, both SMT4, and bit 9 alone is not a known mode. */
  lemma SmtBits(info: bv64)
    ensures var b8 := info & PpcBit(8) != 0;
            var b9 := info & PpcBit(9) != 0;
            SmtOf(GetField(8, 9, info))
            == if !b8 && !b9 then Smt1 else if b8 && !b9 then Smt2 else if b8 && b9 then Smt4 else SmtUnknown
  {
  }

  /**
   * What the decoded state says, bit by bit: quiesced exactly when RAS
   * status bits 1 + 8id to 3 + 8id are all set, active exactly when thread
   * info bit id is set, stopped exactly when core thread state bit 56 + id
   * is set, and the SMT mode from thread info bits 8 and 9.
   */
  lemma DecodeBits(id: bv64, ras: bv64, info: bv64, cts: bv64)
    requires id < 8
    ensures var s := Decode(id, ras, info, cts);
            var b8 := info & PpcBit(8) != 0;
            var b9 := info & PpcBit(9) != 0;
            (s.quiesced <==> ras & PpcBit(1 + 8 * id) != 0 && ras & PpcBit(2 + 8 * id) != 0 && ras & PpcBit(3 + 8 * id) != 0)
            && (s.active <==> info & PpcBit(id) != 0)
            && (s.sleepState == Stop <==> cts & PpcBit(56 + id) != 0)
            && s.smtState == if !b8 && !b9 then Smt1 else if b8 && !b9 then Smt2 else if b8 && b9 then Smt4 else SmtUnknown
  {
    QuiescedBits(id, ras);
    SmtBits(info);
  }

  /** Positions k, k + 1, k + 2 of a bus log are the three reads of one
      p10_thread_state call. */
  ghost predicate Polled(log: seq<BusOp>, k: nat)
  {
    k + 3 <= |log|
    && log[k].Read? && log[k].addr == P10_RAS_STATUS
    && log[k + 1].Read? && log[k + 1].addr == P10_THREAD_INFO
    && log[k + 2].Read? && log[k + 2].addr == P10_CORE_THREAD_STATE
  }

  /** The state decoded from the three reads at position k. */
  ghost function StateAt(log: seq<BusOp>, k: nat, id: bv64): ThreadState
    requires Polled(log, k) && id < 8
  {
    Decode(id, log[k].value, log[k + 1].value, log[k + 2].value)
  }

  /** A poll recorded in a log stays there as the log grows. */
  lemma PolledKept(log: seq<BusOp>, log': seq<BusOp>, k: nat, id: bv64)
    requires Polled(log, k) && id < 8 && |log| <= |log'| && log'[..|log|] == log
    ensures Polled(log', k) && StateAt(log', k, id) == StateAt(log, k, id)
  {
    assert log'[k] == log[k] && log'[k + 1] == log[k + 1] && log'[k + 2] == log[k + 2];
  }

  /**
   * p10_thread_state: read P10_RAS_STATUS, P10_THREAD_INFO and
   * P10_CORE_THREAD_STATE, in that order, and decode them.  The reads'
   * return codes are ignored, as in the C.
   */
  method State(thread: Thread) returns (s: ThreadState)
    requires thread.id < 8
    modifies thread.core.bus`log
    ensures var t := old(thread.core.bus.log);
            var log := thread.core.bus.log;
            |log| == |t| + 3 && log[..|t|] == t && Polled(log, |t|)
            && s == StateAt(log, |t|, thread.id)
  {
    var bus := thread.core.bus;
    var _, ras := bus.Read(P10_RAS_STATUS);
    var _, info := bus.Read(P10_THREAD_INFO);
    var _, cts := bus.Read(P10_CORE_THREAD_STATE);
    s := Decode(thread.id, ras, info, cts);
  }

  // ---------------------------------------------------------------------
  // Thread operations.

  /** p10_thread_probe: the thread's id is its index under the core, and
      its cached state is read afresh. */
  method ThreadProbe(thread: Thread) returns (rc: int)
    requires thread.index < 8
    modifies thread`id, thread`status, thread.core.bus`log
    ensures rc == 0 && thread.id == thread.index
    ensures var t := old(thread.core.bus.log);
            var log := thread.core.bus.log;
            |log| == |t| + 3 && log[..|t|] == t && Polled(log, |t|)
            && thread.status == StateAt(log, |t|, thread.id)
  {
    thread.id := thread.index;
    thread.status := State(thread);
    return 0;
  }

  /** p10_thread_release: a thread still quiesced keeps special wakeup
      asserted by clearing its core's release flag; the flag is never set
      here. */
  method ThreadRelease(thread: Thread)
    modifies thread.core`releaseSpwkup
    ensures thread.core.releaseSpwkup == (old(thread.core.releaseSpwkup) && !thread.status.quiesced)
  {
    if thread.status.quiesced {
      thread.core.releaseSpwkup := false;
    }
  }

  /** The direct-control bit p10_thread_start writes for a thread in state
      s: clear maintenance mode (bit 3 of the thread's byte) when the thread
      is inactive or stopped, start (bit 6) otherwise. */
  function StartBit(s: ThreadState, id: bv64): bv64
    requires id < 8
  {
    if !s.active || s.sleepState == Stop then PpcBit(3 + 8 * id) else PpcBit(6 + 8 * id)
  }

  /**
   * A guarded control write: refused (1, nothing written, state unchanged)
   * unless the cached state is quiesced; otherwise one write of bit to
   * P10_DIRECT_CONTROL, then a fresh state read.
   */
  ghost predicate ControlWrite(t: seq<BusOp>, log: seq<BusOp>, bit: bv64, id: bv64, before: ThreadState, after: ThreadState, rc: int)
    requires id < 8
  {
    if !before.quiesced then
      rc == 1 && log == t && after == before
    else
      rc == 0 && |log| == |t| + 4 && log[..|t|] == t
      && log[|t|].Write? && log[|t|].addr == P10_DIRECT_CONTROL && log[|t|].value == bit
      && Polled(log, |t| + 1) && after == StateAt(log, |t| + 1, id)
  }

  /** The write-and-refresh part shared by start and sreset: one write of
      bit to P10_DIRECT_CONTROL, then a fresh state read. */
  method ControlAndRefresh(thread: Thread, bit: bv64)
    requires thread.id < 8
    modifies thread`status, thread.core.bus`log
    ensures var t := old(thread.core.bus.log);
            var log := thread.core.bus.log;
            |log| == |t| + 4 && log[..|t|] == t
            && log[|t|].Write? && log[|t|].addr == P10_DIRECT_CONTROL && log[|t|].value == bit
            && Polled(log, |t| + 1) && thread.status == StateAt(log, |t| + 1, thread.id)
  {
    var bus := thread.core.bus;
    ghost var t := bus.log;
    var _ := bus.Write(P10_DIRECT_CONTROL, bit);
    ghost var t1 := bus.log;
    var s := State(thread);
    assert bus.log[..|t1|] == t1;
    assert bus.log[..|t|] == t1[..|t|];
    assert bus.log[|t|] == t1[|t|];
    thread.status := s;
  }

  /** p10_thread_start. */
  method ThreadStart(thread: Thread) returns (rc: int)
    requires thread.id < 8
    modifies thread`status, thread.core.bus`log
    ensures ControlWrite(old(thread.core.bus.log), thread.core.bus.log, StartBit(old(thread.status), thread.id),
                         thread.id, old(thread.status), thread.status, rc)
  {
    if !thread.status.quiesced {
      return 1;
    }
    ControlAndRefresh(thread, StartBit(thread.status, thread.id));
    return 0;
  }

  /** p10_thread_sreset: system reset (bit 4 of the thread's byte), again
      only for a quiesced thread. */
  method ThreadSreset(thread: Thread) returns (rc: int)
    requires thread.id < 8
    modifies thread`status, thread.core.bus`log
    ensures ControlWrite(old(thread.core.bus.log), thread.core.bus.log, PpcBit(4 + 8 * thread.id),
                         thread.id, old(thread.status), thread.status, rc)
  {
    if !thread.status.quiesced {
      return 1;
    }
    ControlAndRefresh(thread, PpcBit(4 + 8 * thread.id));
    return 0;
  }

  /** Position of poll j of a run of polls starting at base. */
  function PollPos(base: nat, j: nat): nat
  {
    base + 3 * j
  }

  /**
   * The polls of p10_thread_stop: n state reads back to back from base,
   * all but the last not quiesced, and the last either quiesced or the
   * 102nd (the C breaks once its counter, post-incremented, exceeds
   * RAS_STATUS_TIMEOUT).
   */
  ghost predicate StopPolls(log: seq<BusOp>, base: nat, n: nat, id: bv64)
    requires id < 8
  {
    1 <= n <= RAS_STATUS_TIMEOUT + 2
    && (forall j | 0 <= j < n :: Polled(log, PollPos(base, j)))
    && (forall j | 0 <= j < n - 1 :: !StateAt(log, PollPos(base, j), id).quiesced)
    && (StateAt(log, PollPos(base, n - 1), id).quiesced || n == RAS_STATUS_TIMEOUT + 2)
  }

  /** n polls back to back from base, none but possibly the last
      quiesced: the state of the log at the head of the polling loop. */
  ghost predicate PollRun(log: seq<BusOp>, base: nat, n: nat, id: bv64)
    requires id < 8
  {
    |log| == base + 3 * n
    && (forall j | 0 <= j < n :: Polled(log, PollPos(base, j)))
    && (forall j | 0 <= j < n - 1 :: !StateAt(log, PollPos(base, j), id).quiesced)
  }

  /** One more poll after a last one that was not quiesced. */
  lemma PollRunNext(log: seq<BusOp>, log': seq<BusOp>, base: nat, n: nat, id: bv64)
    requires id < 8 && 1 <= n && PollRun(log, base, n, id)
    requires !StateAt(log, PollPos(base, n - 1), id).quiesced
    requires |log'| == |log| + 3 && log'[..|log|] == log && Polled(log', |log|)
    ensures PollRun(log', base, n + 1, id) && PollPos(base, n) == |log|
  {
    PollsKept(log, log', base, n, id);
  }

  /** A run that ends on a quiesced poll, or on the last poll allowed, is
      what p10_thread_stop leaves in the log. */
  lemma PollRunDone(log: seq<BusOp>, base: nat, n: nat, id: bv64)
    requires id < 8 && 1 <= n <= RAS_STATUS_TIMEOUT + 2 && PollRun(log, base, n, id)
    requires StateAt(log, PollPos(base, n - 1), id).quiesced || n == RAS_STATUS_TIMEOUT + 2
    ensures StopPolls(log, base, n, id)
  {
  }

  /** The polling loop of p10_thread_stop. */
  method PollStopped(thread: Thread) returns (ghost polls: nat)
    requires thread.id < 8
    modifies thread.core.bus`log
    ensures var t := old(thread.core.bus.log);
            var log := thread.core.bus.log;
            |log| == |t| + 3 * polls && log[..|t|] == t && StopPolls(log, |t|, polls, thread.id)
  {
    var bus := thread.core.bus;
    ghost var t := bus.log;
    ghost var base := |t|;
    var i := 0;
    var s := State(thread);
    polls := 1;
    assert PollRun(bus.log, base, 1, thread.id);
    while !s.quiesced
      invariant 0 <= i <= RAS_STATUS_TIMEOUT + 1 && polls == i + 1
      invariant PollRun(bus.log, base, polls, thread.id) && bus.log[..base] == t
      invariant s == StateAt(bus.log, PollPos(base, polls - 1), thread.id)
      decreases RAS_STATUS_TIMEOUT + 1 - i
    {
      // usleep(1000)
      if i > RAS_STATUS_TIMEOUT {
        break;
      }
      i := i + 1;
      ghost var before := bus.log;
      s := State(thread);
      PollRunNext(before, bus.log, base, polls, thread.id);
      assert bus.log[..base] == before[..base];
      polls := polls + 1;
    }
    PollRunDone(bus.log, base, polls, thread.id);
  }

  /**
   * p10_thread_stop: write the stop bit (bit 7 of the thread's byte), poll
   * the state until the thread is quiesced or the poll bound is reached,
   * and cache one more fresh state.  It returns 0 either way.
   */
  method ThreadStop(thread: Thread) returns (rc: int, ghost polls: nat)
    requires thread.id < 8
    modifies thread`status, thread.core.bus`log
    ensures var t := old(thread.core.bus.log);
            var log := thread.core.bus.log;
            rc == 0
            && |log| == |t| + 1 + 3 * polls + 3 && log[..|t|] == t
            && log[|t|].Write? && log[|t|].addr == P10_DIRECT_CONTROL && log[|t|].value == PpcBit(7 + 8 * thread.id)
            && StopPolls(log, |t| + 1, polls, thread.id)
            && Polled(log, |log| - 3) && thread.status == StateAt(log, |log| - 3, thread.id)
  {
    var bus := thread.core.bus;
    ghost var t := bus.log;
    var _ := bus.Write(P10_DIRECT_CONTROL, PpcBit(7 + 8 * thread.id));
    ghost var t1 := bus.log;
    polls := PollStopped(thread);
    ghost var t2 := bus.log;
    var s := State(thread);
    StopPollsKept(t2, bus.log, |t1|, polls, thread.id);
    assert bus.log[..|t|] == t1[..|t|];
    assert bus.log[|t|] == t1[|t|];
    thread.status := s;
    return 0, polls;
  }

  /** A run of stop polls stays in the log as it grows. */
  lemma StopPollsKept(log: seq<BusOp>, log': seq<BusOp>, base: nat, n: nat, id: bv64)
    requires id < 8 && |log| <= |log'| && log'[..|log|] == log
    requires StopPolls(log, base, n, id)
    ensures StopPolls(log', base, n, id)
  {
    PollsKept(log, log', base, n, id);
  }

  /** Polls recorded in a log stay there, with their states, as it grows. */
  lemma PollsKept(log: seq<BusOp>, log': seq<BusOp>, base: nat, n: nat, id: bv64)
    requires id < 8 && |log| <= |log'| && log'[..|log|] == log
    requires forall j | 0 <= j < n :: Polled(log, PollPos(base, j))
    ensures forall j | 0 <= j < n :: Polled(log', PollPos(base, j))
                                  && StateAt(log', PollPos(base, j), id) == StateAt(log, PollPos(base, j), id)
  {
    forall j | 0 <= j < n
      ensures Polled(log', PollPos(base, j)) && StateAt(log', PollPos(base, j), id) == StateAt(log, PollPos(base, j), id)
    {
      PolledKept(log, log', PollPos(base, j), id);
    }
  }

  // ---------------------------------------------------------------------
  // Core operations.

  /** Reads of QME_SSH_FSP from base on that succeeded without seeing the
      wakeup done bit: n trips of the p10_core_probe loop that went on. */
  ghost predicate WakeupPending(log: seq<BusOp>, base: nat, n: nat)
  {
    base + n <= |log|
    && forall j | base <= j < base + n ::
         log[j].Read? && log[j].addr == QME_SSH_FSP && log[j].rc == 0 && log[j].value & SPECIAL_WKUP_DONE == 0
  }

  /**
   * The reads p10_core_probe makes after its wakeup request: n reads of
   * QME_SSH_FSP from base, all but the last successful and not done; the
   * last one failed (rc is its code), saw the done bit, or was the 102nd
   * (the loop gives up once its post-incremented counter exceeds
   * SPECIAL_WKUP_TIMEOUT).
   */
  ghost predicate WakeupPolls(log: seq<BusOp>, base: nat, n: nat, rc: int)
  {
    1 <= n <= SPECIAL_WKUP_TIMEOUT + 2 && |log| == base + n && WakeupPending(log, base, n - 1)
    && log[base + n - 1].Read? && log[base + n - 1].addr == QME_SSH_FSP && log[base + n - 1].rc == rc
    && (rc != 0 || log[base + n - 1].value & SPECIAL_WKUP_DONE != 0 || n == SPECIAL_WKUP_TIMEOUT + 2)
  }

  /** A pending run grows by one read that succeeded without the done bit. */
  lemma WakeupPendingNext(log: seq<BusOp>, log': seq<BusOp>, base: nat, n: nat)
    requires WakeupPending(log, base, n) && |log| == base + n
    requires |log'| == |log| + 1 && log'[..|log|] == log
    requires log'[|log|].Read? && log'[|log|].addr == QME_SSH_FSP && log'[|log|].rc == 0
    requires log'[|log|].value & SPECIAL_WKUP_DONE == 0
    ensures WakeupPending(log', base, n + 1)
  {
  }

  /** The do-while loop of p10_core_probe. */
  method WakeupPoll(bus: Bus) returns (rc: int, ghost polls: nat)
    modifies bus`log
    ensures |bus.log| > |old(bus.log)| && bus.log[..|old(bus.log)|] == old(bus.log)
    ensures WakeupPolls(bus.log, |old(bus.log)|, polls, rc)
  {
    ghost var t := bus.log;
    ghost var base := |t|;
    var i := 0;
    polls := 0;
    while true
      invariant 0 <= i <= SPECIAL_WKUP_TIMEOUT + 1 && polls == i
      invariant |bus.log| == base + polls && bus.log[..base] == t && WakeupPending(bus.log, base, polls)
      decreases SPECIAL_WKUP_TIMEOUT + 1 - i
    {
      // usleep(1000)
      ghost var before := bus.log;
      var value;
      rc, value := bus.Read(QME_SSH_FSP);
      assert bus.log[..base] == before[..base];
      polls := polls + 1;
      if rc != 0 {
        return rc, polls;
      }
      var timedOut := i > SPECIAL_WKUP_TIMEOUT;
      i := i + 1;
      if timedOut || value & SPECIAL_WKUP_DONE != 0 {
        return rc, polls;
      }
      WakeupPendingNext(before, bus.log, base, polls - 1);
    }
  }

  /**
   * p10_core_probe: request special wakeup (PPC_BIT(0) of QME_SPWU_FSP) and
   * poll QME_SSH_FSP for the done bit.  A failed access returns its code
   * at once; otherwise, done or timed out, the core is marked as owning
   * the wakeup it must release, and the probe succeeds.
   */
  method CoreProbe(core: Core) returns (rc: int, ghost polls: nat)
    modifies core.bus`log, core`releaseSpwkup
    ensures var t := old(core.bus.log);
            var log := core.bus.log;
            |t| < |log| && log[..|t|] == t
            && log[|t|] == BusOp.Write(QME_SPWU_FSP, PpcBit(0), log[|t|].rc)
            && (if log[|t|].rc != 0 then rc == log[|t|].rc && |log| == |t| + 1
                else WakeupPolls(log, |t| + 1, polls, rc))
    ensures core.releaseSpwkup == (rc == 0 || old(core.releaseSpwkup))
  {
    var bus := core.bus;
    ghost var t := bus.log;
    rc := bus.Write(QME_SPWU_FSP, PpcBit(0));
    if rc != 0 {
      return rc, 0;
    }
    ghost var t1 := bus.log;
    rc, polls := WakeupPoll(bus);
    assert bus.log[..|t|] == t1[..|t|];
    assert bus.log[|t|] == t1[|t|];
    if rc != 0 {
      return rc, polls;
    }
    core.releaseSpwkup := true;
    return 0, polls;
  }

  /** Whether p10_core_release releases a thread whose target status was
      s: one already released is skipped, and pdbg_target_probe leaves a
      disabled one disabled. */
  predicate Releasing(s: TargetStatus)
  {
    s == Unknown || s == Enabled
  }

  /**
   * One child thread of p10_core_release: skip it if already released;
   * otherwise probe it (pdbg_target_probe, which probes a target whose
   * status is not yet known and marks it enabled) and, if enabled, release
   * it (pdbg_target_release: p10_thread_release, then marked released).
   */
  method ReleaseChild(core: Core, thread: Thread)
    requires thread.core == core && thread.index < 8
    modifies thread`targetStatus, thread`id, thread`status, core.bus`log, core`releaseSpwkup
    ensures thread.targetStatus == if Releasing(old(thread.targetStatus)) then Released else old(thread.targetStatus)
    ensures core.releaseSpwkup
            == (old(core.releaseSpwkup) && !(Releasing(old(thread.targetStatus)) && thread.status.quiesced))
    ensures var t := old(core.bus.log);
            var log := core.bus.log;
            if old(thread.targetStatus) == Unknown then
              thread.id == thread.index && |log| == |t| + 3 && log[..|t|] == t
              && Polled(log, |t|) && thread.status == StateAt(log, |t|, thread.id)
            else
              log == t && thread.id == old(thread.id) && thread.status == old(thread.status)
  {
    var status := thread.targetStatus;
    if status == Released {
      return;
    }
    if status == Unknown {
      var _ := ThreadProbe(thread);
      thread.targetStatus := Enabled;
      status := Enabled;
    }
    if status != Enabled {
      return;
    }
    ThreadRelease(thread);
    thread.targetStatus := Released;
  }

  /** What a core release reads and writes of one thread: its target
      status, its id and its cached state. */
  datatype ThreadRec = ThreadRec(target: TargetStatus, id: bv64, status: ThreadState)

  /** The records of a list of threads. */
  function Recs(threads: seq<Thread>): (r: seq<ThreadRec>)
    reads threads
    ensures |r| == |threads|
    ensures forall j | 0 <= j < |threads| ::
              r[j] == ThreadRec(threads[j].targetStatus, threads[j].id, threads[j].status)
  {
    seq(|threads|, j requires 0 <= j < |threads| reads threads =>
                     ThreadRec(threads[j].targetStatus, threads[j].id, threads[j].status))
  }

  /** The indexes of a list of threads under their core. */
  function Indexes(threads: seq<Thread>): (idx: seq<bv64>)
    ensures |idx| == |threads| && forall j | 0 <= j < |threads| :: idx[j] == threads[j].index
  {
    seq(|threads|, j requires 0 <= j < |threads| => threads[j].index)
  }

  /** The target status a core release leaves behind. */
  function AfterRelease(s: TargetStatus): TargetStatus
  {
    if Releasing(s) then Released else s
  }

  /** Where the probe reads of each of the first k threads begin when
      threads with records recs are released from log position base on:
      a thread of unknown status is probed, with three reads.  The last
      entry is where they all end. */
  function ProbeStarts(recs: seq<ThreadRec>, k: nat, base: nat): (at: seq<nat>)
    requires k <= |recs|
    ensures |at| == k + 1 && at[0] == base
    ensures forall j | 0 <= j < k :: at[j + 1] == at[j] + if recs[j].target == Unknown then 3 else 0
  {
    if k == 0 then [base]
    else
      var at := ProbeStarts(recs, k - 1, base);
      at + [at[k - 1] + if recs[k - 1].target == Unknown then 3 else 0]
  }

  /** A core release part way through: the thread records, the release
      flag, how far the bus log has been consumed, and whether the log
      held the reads of every probe so far. */
  datatype Progress = Progress(recs: seq<ThreadRec>, flag: bool, end: nat, ok: bool)

  /** One trip of the p10_core_release loop, on values: release thread j,
      whose record is r and whose index is i, after progress p.  A thread
      of unknown status is probed with the next three reads of log. */
  ghost function ReleaseNext(p: Progress, j: nat, r: ThreadRec, i: bv64, log: seq<BusOp>): (p': Progress)
    requires j < |p.recs|
    ensures |p'.recs| == |p.recs| && p.end <= p'.end
    ensures forall m | 0 <= m < |p.recs| && m != j :: p'.recs[m] == p.recs[m]
  {
    if r.target == Unknown then
      var ok := p.ok && i < 8 && Polled(log, p.end);
      var s := if ok then StateAt(log, p.end, i) else r.status;
      Progress(p.recs[j := ThreadRec(Released, i, s)], p.flag && !s.quiesced, p.end + 3, ok)
    else if r.target == Enabled then
      Progress(p.recs[j := r.(target := Released)], p.flag && !r.status.quiesced, p.end, p.ok)
    else
      p
  }

  /**
   * The reference definition of the p10_core_release loop, on values:
   * the first k threads, whose records were recs0 and whose indexes are
   * idx, are released in order, with the flag starting at flag0 and each
   * probe taking the next three reads of log from position base on.
   */
  ghost function ReleaseFirst(recs0: seq<ThreadRec>, idx: seq<bv64>, log: seq<BusOp>, base: nat, flag0: bool, k: nat)
    : (p: Progress)
    requires k <= |recs0| && |idx| == |recs0|
    ensures |p.recs| == |recs0| && base <= p.end
    ensures forall j | k <= j < |recs0| :: p.recs[j] == recs0[j]
  {
    if k == 0 then Progress(recs0, flag0, base, true)
    else ReleaseNext(ReleaseFirst(recs0, idx, log, base, flag0, k - 1), k - 1, recs0[k - 1], idx[k - 1], log)
  }

  /** The release of the first k threads depends only on the log up to
      where its reads end. */
  lemma {:induction false} ReleaseFirstKept(recs0: seq<ThreadRec>, idx: seq<bv64>, log: seq<BusOp>, log': seq<BusOp>,
                                            base: nat, flag0: bool, k: nat)
    requires k <= |recs0| && |idx| == |recs0|
    requires |log| <= |log'| && log'[..|log|] == log
    requires ReleaseFirst(recs0, idx, log, base, flag0, k).ok
    requires ReleaseFirst(recs0, idx, log, base, flag0, k).end <= |log|
    ensures ReleaseFirst(recs0, idx, log', base, flag0, k) == ReleaseFirst(recs0, idx, log, base, flag0, k)
  {
    if k > 0 {
      var p := ReleaseFirst(recs0, idx, log, base, flag0, k - 1);
      ReleaseFirstKept(recs0, idx, log, log', base, flag0, k - 1);
      if recs0[k - 1].target == Unknown {
        PolledKept(log, log', p.end, idx[k - 1]);
      }
    }
  }

  /** The probe reads of the first k threads end where ProbeStarts says,
      within the log. */
  lemma {:induction false} ReleaseFirstEnd(recs0: seq<ThreadRec>, idx: seq<bv64>, log: seq<BusOp>,
                                           base: nat, flag0: bool, k: nat)
    requires k <= |recs0| && |idx| == |recs0|
    requires base <= |log| && ReleaseFirst(recs0, idx, log, base, flag0, k).ok
    ensures ReleaseFirst(recs0, idx, log, base, flag0, k).end == ProbeStarts(recs0, k, base)[k]
    ensures ReleaseFirst(recs0, idx, log, base, flag0, k).end <= |log|
  {
    if k > 0 {
      ReleaseFirstEnd(recs0, idx, log, base, flag0, k - 1);
    }
  }

  /** Position j of the log, between base and the end of the probe reads
      of the first k threads, is a read. */
  lemma {:induction false} ReleaseFirstRead(recs0: seq<ThreadRec>, idx: seq<bv64>, log: seq<BusOp>,
                                            base: nat, flag0: bool, k: nat, j: nat)
    requires k <= |recs0| && |idx| == |recs0|
    requires ReleaseFirst(recs0, idx, log, base, flag0, k).ok
    requires base <= j < ReleaseFirst(recs0, idx, log, base, flag0, k).end
    ensures j < |log| && log[j].Read?
  {
    var q := ReleaseFirst(recs0, idx, log, base, flag0, k - 1);
    if j < q.end {
      ReleaseFirstRead(recs0, idx, log, base, flag0, k - 1, j);
    }
  }

  /** The probe reads of the first k threads end where ProbeStarts says,
      within the log, and are all reads. */
  lemma {:induction false} ReleaseFirstReads(recs0: seq<ThreadRec>, idx: seq<bv64>, log: seq<BusOp>,
                                             base: nat, flag0: bool, k: nat)
    requires k <= |recs0| && |idx| == |recs0|
    requires base <= |log| && ReleaseFirst(recs0, idx, log, base, flag0, k).ok
    ensures var p := ReleaseFirst(recs0, idx, log, base, flag0, k);
            p.end == ProbeStarts(recs0, k, base)[k] && p.end <= |log|
            && forall j | base <= j < p.end :: log[j].Read?
  {
    ReleaseFirstEnd(recs0, idx, log, base, flag0, k);
    forall j | base <= j < ReleaseFirst(recs0, idx, log, base, flag0, k).end
      ensures log[j].Read?
    {
      ReleaseFirstRead(recs0, idx, log, base, flag0, k, j);
    }
  }

  /**
   * What a core release leaves in a thread whose record was r0 and whose
   * index is i, probed (if at all) by the reads at position at of the log:
   * its target status is AfterRelease of its old one; a thread of unknown
   * status gets its index as id and the state decoded from those reads;
   * any other keeps its id and cached state.
   */
  ghost predicate ReleasedRec(r0: ThreadRec, i: bv64, log: seq<BusOp>, at: nat, r: ThreadRec)
  {
    r.target == AfterRelease(r0.target)
    && if r0.target == Unknown then
         r.id == i && i < 8 && Polled(log, at) && r.status == StateAt(log, at, i)
       else
         r.id == r0.id && r.status == r0.status
  }

  /** One trip of the loop releases its thread, not touched before, as
      ReleasedRec says, with the reads where the previous trips ended. */
  lemma ReleaseNextRec(p: Progress, j: nat, r: ThreadRec, i: bv64, log: seq<BusOp>)
    requires j < |p.recs| && p.recs[j] == r && ReleaseNext(p, j, r, i, log).ok
    ensures p.ok && ReleasedRec(r, i, log, p.end, ReleaseNext(p, j, r, i, log).recs[j])
  {
  }

  /** Thread j among the first k is released as ReleasedRec says, with its
      reads where ProbeStarts puts them. */
  lemma {:induction false} ReleaseFirstThread(recs0: seq<ThreadRec>, idx: seq<bv64>, log: seq<BusOp>,
                                              base: nat, flag0: bool, k: nat, j: nat)
    requires j < k <= |recs0| && |idx| == |recs0|
    requires base <= |log| && ReleaseFirst(recs0, idx, log, base, flag0, k).ok
    ensures ReleasedRec(recs0[j], idx[j], log, ProbeStarts(recs0, k, base)[j],
                        ReleaseFirst(recs0, idx, log, base, flag0, k).recs[j])
  {
    var q := ReleaseFirst(recs0, idx, log, base, flag0, k - 1);
    var p := ReleaseFirst(recs0, idx, log, base, flag0, k);
    assert p == ReleaseNext(q, k - 1, recs0[k - 1], idx[k - 1], log);
    ReleaseNextRec(q, k - 1, recs0[k - 1], idx[k - 1], log);
    if j < k - 1 {
      ReleaseFirstThread(recs0, idx, log, base, flag0, k - 1, j);
      assert p.recs[j] == q.recs[j];
      assert ProbeStarts(recs0, k, base)[j] == ProbeStarts(recs0, k - 1, base)[j];
    } else {
      ReleaseFirstEnd(recs0, idx, log, base, flag0, k - 1);
    }
  }

  /** Every thread among the first k is released as ReleasedRec says. */
  lemma ReleaseFirstThreads(recs0: seq<ThreadRec>, idx: seq<bv64>, log: seq<BusOp>,
                            base: nat, flag0: bool, k: nat)
    requires k <= |recs0| && |idx| == |recs0|
    requires base <= |log| && ReleaseFirst(recs0, idx, log, base, flag0, k).ok
    ensures forall j | 0 <= j < k ::
              ReleasedRec(recs0[j], idx[j], log, ProbeStarts(recs0, k, base)[j],
                          ReleaseFirst(recs0, idx, log, base, flag0, k).recs[j])
  {
    forall j | 0 <= j < k
      ensures ReleasedRec(recs0[j], idx[j], log, ProbeStarts(recs0, k, base)[j],
                          ReleaseFirst(recs0, idx, log, base, flag0, k).recs[j])
    {
      ReleaseFirstThread(recs0, idx, log, base, flag0, k, j);
    }
  }

  /** The flag survives the release of the first k threads exactly when
      no thread released among them is quiesced. */
  lemma {:induction false} ReleaseFirstFlag(recs0: seq<ThreadRec>, idx: seq<bv64>, log: seq<BusOp>,
                                            base: nat, flag0: bool, k: nat)
    requires k <= |recs0| && |idx| == |recs0|
    ensures var p := ReleaseFirst(recs0, idx, log, base, flag0, k);
            p.flag == (flag0 && forall j | 0 <= j < k && Releasing(recs0[j].target) :: !p.recs[j].status.quiesced)
  {
    if k > 0 {
      var q := ReleaseFirst(recs0, idx, log, base, flag0, k - 1);
      var p := ReleaseFirst(recs0, idx, log, base, flag0, k);
      ReleaseFirstFlag(recs0, idx, log, base, flag0, k - 1);
      assert forall j | 0 <= j < k - 1 :: p.recs[j] == q.recs[j];
      assert (forall j | 0 <= j < k && Releasing(recs0[j].target) :: !p.recs[j].status.quiesced)
             == ((forall j | 0 <= j < k - 1 && Releasing(recs0[j].target) :: !q.recs[j].status.quiesced)
                 && !(Releasing(recs0[k - 1].target) && p.recs[k - 1].status.quiesced));
    }
  }

  /** The first k threads have been released: their records are recs, the
      flag is flag, and the log grew from t to log by their probe reads. */
  ghost predicate ReleasedFirst(recs0: seq<ThreadRec>, idx: seq<bv64>, t: seq<BusOp>, flag0: bool, k: nat,
                                recs: seq<ThreadRec>, log: seq<BusOp>, flag: bool)
  {
    k <= |recs0| && |idx| == |recs0| && |t| <= |log| && log[..|t|] == t
    && var p := ReleaseFirst(recs0, idx, log, |t|, flag0, k);
       p.ok && p.end == |log| && recs == p.recs && flag == p.flag
  }

  /** Releasing thread k, as ReleaseChild does, carries ReleasedFirst from
      k to k + 1. */
  lemma ReleasedFirstNext(recs0: seq<ThreadRec>, idx: seq<bv64>, t: seq<BusOp>, flag0: bool, k: nat,
                          recs: seq<ThreadRec>, log: seq<BusOp>, flag: bool,
                          r: ThreadRec, log': seq<BusOp>, flag': bool)
    requires ReleasedFirst(recs0, idx, t, flag0, k, recs, log, flag) && k < |recs0|
    requires r.target == AfterRelease(recs0[k].target)
    requires flag' == (flag && !(Releasing(recs0[k].target) && r.status.quiesced))
    requires if recs0[k].target == Unknown then
               r.id == idx[k] && idx[k] < 8 && |log'| == |log| + 3 && log'[..|log|] == log
               && Polled(log', |log|) && r.status == StateAt(log', |log|, r.id)
             else
               log' == log && r.id == recs0[k].id && r.status == recs0[k].status
    ensures ReleasedFirst(recs0, idx, t, flag0, k + 1, recs[k := r], log', flag')
  {
    ReleaseFirstKept(recs0, idx, log, log', |t|, flag0, k);
    assert log'[..|t|] == log[..|t|];
  }

  /** One trip of the p10_core_release loop: release thread k. */
  method ReleaseStep(core: Core, threads: seq<Thread>, k: nat, thread: Thread,
                     ghost recs0: seq<ThreadRec>, ghost idx: seq<bv64>, ghost t: seq<BusOp>, ghost flag0: bool)
    requires k < |threads| && threads[k] == thread && thread.core == core && thread.index < 8
    requires forall j | 0 <= j < |threads| && j != k :: threads[j] != thread
    requires ReleasedFirst(recs0, idx, t, flag0, k, Recs(threads), core.bus.log, core.releaseSpwkup)
    requires idx[k] == thread.index
    modifies thread`targetStatus, thread`id, thread`status, core.bus`log, core`releaseSpwkup
    ensures ReleasedFirst(recs0, idx, t, flag0, k + 1, Recs(threads), core.bus.log, core.releaseSpwkup)
  {
    ghost var recs, log, flag := Recs(threads), core.bus.log, core.releaseSpwkup;
    assert recs[k] == recs0[k];
    ReleaseChild(core, thread);
    ghost var r := ThreadRec(thread.targetStatus, thread.id, thread.status);
    ReleasedFirstNext(recs0, idx, t, flag0, k, recs, log, flag, r, core.bus.log, core.releaseSpwkup);
    assert Recs(threads) == recs[k := r];
  }

  /** A whole core release, on values: every thread released as
      ReleaseFirst says, then the closing write of 0 to QME_SPWU_FSP
      exactly when the flag is still set. */
  ghost predicate ReleasedAll(recs0: seq<ThreadRec>, idx: seq<bv64>, t: seq<BusOp>, flag0: bool,
                              recs: seq<ThreadRec>, log: seq<BusOp>, flag: bool)
  {
    |idx| == |recs0| && |t| <= |log| && log[..|t|] == t
    && var p := ReleaseFirst(recs0, idx, log, |t|, flag0, |recs0|);
       p.ok && recs == p.recs && flag == p.flag && |log| == p.end + (if flag then 1 else 0)
       && (flag ==> log[p.end].Write? && log[p.end].addr == QME_SPWU_FSP && log[p.end].value == 0)
  }

  /** After the loop, the closing write (made only when the flag is still
      set) completes the release. */
  lemma ReleasedAllClose(recs0: seq<ThreadRec>, idx: seq<bv64>, t: seq<BusOp>, flag0: bool,
                         recs: seq<ThreadRec>, log: seq<BusOp>, flag: bool, log': seq<BusOp>, rc: int)
    requires ReleasedFirst(recs0, idx, t, flag0, |recs0|, recs, log, flag)
    requires log' == if flag then log + [BusOp.Write(QME_SPWU_FSP, 0, rc)] else log
    ensures ReleasedAll(recs0, idx, t, flag0, recs, log', flag)
  {
    ReleaseFirstKept(recs0, idx, log, log', |t|, flag0, |recs0|);
    assert log'[..|t|] == log[..|t|];
  }

  /**
   * A whole core release thread by thread: each thread is released as
   * ReleasedRec says, the probe reads coming in thread order from where
   * the log stood; between them and the optional closing write the log
   * holds nothing but reads; and the flag survives exactly when no
   * released thread is quiesced.
   */
  ghost predicate ReleasedEach(recs0: seq<ThreadRec>, idx: seq<bv64>, t: seq<BusOp>, flag0: bool,
                               recs: seq<ThreadRec>, log: seq<BusOp>, flag: bool)
  {
    |idx| == |recs| == |recs0|
    && var at := ProbeStarts(recs0, |recs0|, |t|);
       var n := at[|recs0|];
       (forall j | 0 <= j < |recs0| :: ReleasedRec(recs0[j], idx[j], log, at[j], recs[j]))
       && flag == (flag0 && forall j | 0 <= j < |recs0| && Releasing(recs0[j].target) :: !recs[j].status.quiesced)
       && |log| == n + (if flag then 1 else 0) && forall j | |t| <= j < n :: log[j].Read?
  }

  /** ReleaseFirst, run over every thread, releases them as ReleasedEach
      says. */
  lemma ReleasedAllThreads(recs0: seq<ThreadRec>, idx: seq<bv64>, t: seq<BusOp>, flag0: bool,
                           recs: seq<ThreadRec>, log: seq<BusOp>, flag: bool)
    requires ReleasedAll(recs0, idx, t, flag0, recs, log, flag)
    ensures ReleasedEach(recs0, idx, t, flag0, recs, log, flag)
  {
    ReleaseFirstThreads(recs0, idx, log, |t|, flag0, |recs0|);
    ReleaseFirstFlag(recs0, idx, log, |t|, flag0, |recs0|);
    ReleaseFirstReads(recs0, idx, log, |t|, flag0, |recs0|);
  }

  /** The loop of p10_core_release: release every child thread, in order. */
  method ReleaseThreads(core: Core, ghost recs0: seq<ThreadRec>, ghost idx: seq<bv64>)
    requires forall k | 0 <= k < |core.threads| :: core.threads[k].core == core && core.threads[k].index < 8
    requires forall i, j | 0 <= i < j < |core.threads| :: core.threads[i] != core.threads[j]
    requires recs0 == Recs(core.threads) && idx == Indexes(core.threads)
    modifies core.threads`targetStatus, core.threads`id, core.threads`status, core.bus`log, core`releaseSpwkup
    ensures core.threads == old(core.threads)
    ensures ReleasedFirst(recs0, idx, old(core.bus.log), old(core.releaseSpwkup), |recs0|,
                          Recs(core.threads), core.bus.log, core.releaseSpwkup)
  {
    var threads := core.threads;
    ghost var t := core.bus.log;
    ghost var flag0 := core.releaseSpwkup;
    assert t[..|t|] == t;
    var k := 0;
    while k < |threads|
      invariant core.threads == threads && k <= |threads|
      invariant ReleasedFirst(recs0, idx, t, flag0, k, Recs(threads), core.bus.log, core.releaseSpwkup)
    {
      ReleaseStep(core, threads, k, threads[k], recs0, idx, t, flag0);
      k := k + 1;
    }
  }

  /**
   * p10_core_release: release every child thread not yet released, in
   * order, so that a quiesced one keeps special wakeup asserted, then drop
   * special wakeup (write 0 to QME_SPWU_FSP) if the core still owns it.
   */
  method CoreRelease(core: Core)
    requires forall k | 0 <= k < |core.threads| :: core.threads[k].core == core && core.threads[k].index < 8
    requires forall i, j | 0 <= i < j < |core.threads| :: core.threads[i] != core.threads[j]
    modifies core.threads`targetStatus, core.threads`id, core.threads`status, core.bus`log, core`releaseSpwkup
    ensures ReleasedAll(old(Recs(core.threads)), Indexes(core.threads), old(core.bus.log), old(core.releaseSpwkup),
                        Recs(core.threads), core.bus.log, core.releaseSpwkup)
    ensures ReleasedEach(old(Recs(core.threads)), Indexes(core.threads), old(core.bus.log), old(core.releaseSpwkup),
                         Recs(core.threads), core.bus.log, core.releaseSpwkup)
  {
    var bus := core.bus;
    ghost var t := bus.log;
    ghost var flag0 := core.releaseSpwkup;
    ghost var recs0, idx := Recs(core.threads), Indexes(core.threads);
    ReleaseThreads(core, recs0, idx);
    ghost var before := bus.log;
    var rc := 0;
    if core.releaseSpwkup {
      rc := bus.Write(QME_SPWU_FSP, 0);
    }
    ghost var recs := Recs(core.threads);
    ReleasedAllClose(recs0, idx, t, flag0, recs, before, core.releaseSpwkup, bus.log, rc);
    ReleasedAllThreads(recs0, idx, t, flag0, recs, bus.log, core.releaseSpwkup);
  }

  // ---------------------------------------------------------------------
  // Address translation (p10_core_translate).

  // NUM_CORES_PER_EQ: a quad (EQ chiplet) holds four cores, written 4 below.
  const EQ0_CHIPLET_ID: bv64 := 0x20

  /** The region select of core index % 4 within its quad: one bit each,
      the highest for the first core. */
  function Region(slot: bv64): bv64
  {
    if slot == 0 then 8 else if slot == 1 then 4 else if slot == 2 then 2 else if slot == 3 then 1 else 0
  }

  /** The chiplet id field (bits 24-29, LSB-0) of a PCB address. */
  function ChipletOf(addr: bv64): bv64 { (addr >> 24) & 0x3f }
  /** The region field (bits 12-15, LSB-0) of a PCB address. */
  function RegionOf(addr: bv64): bv64 { (addr >> 12) & 0xf }
  /** The bits translation rewrites. */
  const TRANSLATED_BITS: bv64 := 0x3f00_f000

  /**
   * p10_core_translate: aim a core-relative SCOM address at the core's
   * quad (chiplet 0x20 + index / 4) and at the core within it (the region
   * select).  The index is the C's int, so it is taken non-negative; the
   * quotient and remainder by NUM_CORES_PER_EQ (4) are written as the shift
   * and mask they equal there (QuadSlot).
   */
  function Translate(index: bv64, addr: bv64): (r: bv64)
    requires index < 0x8000_0000
    ensures ChipletOf(r) == (EQ0_CHIPLET_ID + (index >> 2)) & 0x3f
    ensures RegionOf(r) == Region(index & 3)
    ensures r & !TRANSLATED_BITS == addr & !TRANSLATED_BITS
  {
    var chipletId := EQ0_CHIPLET_ID + (index >> 2);
    var region := Region(index & 3);
    var a := (addr & 0xFFFF_FFFF_C0FF_FFFF) | ((chipletId & 0x3f) << 24);
    (a & 0xFFFF_FFFF_FFFF_0FFF) | ((region & 0xf) << 12)
  }

  /** Division and remainder by the quad size are the shift and mask. */
  lemma QuadSlot(index: bv64)
    ensures index / 4 == index >> 2 && index % 4 == index & 3
  {
  }

  /** An address is its untranslated bits with its two fields put back. */
  lemma AddressFields(x: bv64)
    ensures x == (x & !TRANSLATED_BITS) | (ChipletOf(x) << 24) | (RegionOf(x) << 12)
  {
  }

  /** The region select is one-hot: core k of a quad gets bit 3 - k. */
  lemma RegionOneHot(index: bv64)
    ensures Region(index % 4) == 8 >> (index % 4)
  {
    QuadSlot(index);
  }

  /** For the 128 cores the 6-bit field can address, the chiplet id is the
      quad number counted from EQ0 without wrapping. */
  lemma TranslateChiplet(index: bv64, addr: bv64)
    requires index < 128
    ensures ChipletOf(Translate(index, addr)) == EQ0_CHIPLET_ID + index / 4
    ensures RegionOf(Translate(index, addr)) == Region(index % 4)
  {
    QuadSlot(index);
  }

  /** Translating an address that is already translated changes nothing. */
  lemma TranslateIdempotent(index: bv64, addr: bv64)
    requires index < 0x8000_0000
    ensures Translate(index, Translate(index, addr)) == Translate(index, addr)
  {
    var r := Translate(index, addr);
    AddressFields(r);
    AddressFields(Translate(index, r));
  }

  /** Distinct cores among the first 128 get distinct translations of any
      address. */
  lemma TranslateDistinct(i: bv64, j: bv64, addr: bv64)
    requires i < 128 && j < 128 && i != j
    ensures Translate(i, addr) != Translate(j, addr)
  {
    TranslateChiplet(i, addr);
    TranslateChiplet(j, addr);
    QuadSlot(i);
    QuadSlot(j);
  }
}
