/**
 * The hardware-unit records the core works on: a thread (with its
 * instruction-injection hooks and its cached run state), a core (with its
 * special-wakeup ownership flag) and the debug bus shared by both.
 *
 * Everything the core cannot see -- the backend's injection hooks, the bus
 * transport -- is an oracle: a total function of the history of calls made
 * so far.  Every call is appended, together with the answer it received, to
 * a log, so that contracts can speak about the exact sequence of calls.
 */
module Hwunit {

  /** One call of a thread's backend hook, with the answer it returned. */
  datatype Event =
    | Setup(rc: int)
    | Inject(opcode: bv64, fed: bv64, rc: int, got: bv64)
    | GetXer(rc: int, xer: bv64)
    | Destroy(rc: int)

  /** What a hook returns besides its status: the scratch (or register) value. */
  datatype Reply = Reply(rc: int, value: bv64)

  /**
   * The backend's hooks (thread->ram_setup, ram_instruction, getxer,
   * ram_destroy).  Each answer may depend on everything that happened
   * before, so any hardware behaviour is covered.
   */
  datatype Backend = Backend(
    setup: seq<Event> -> int,
    inject: (seq<Event>, bv64, bv64) -> Reply,
    getxer: seq<Event> -> Reply,
    destroy: seq<Event> -> int)

  /** Sleep state of a thread (the two values the POWER10 decoder produces). */
  datatype SleepState = Run | Stop

  /** SMT mode of a core as seen by one of its threads. */
  datatype SmtState = SmtUnknown | Smt1 | Smt2 | Smt4

  /** struct thread_state: the decoded run state of one thread. */
  datatype ThreadState = ThreadState(
    quiesced: bool,
    active: bool,
    smtState: SmtState,
    sleepState: SleepState)

  /** Life-cycle status of a target in the target tree. */
  datatype TargetStatus = Unknown | Enabled | Disabled | Released

  /** One bus access (pib_read / pib_write) with the status it returned. */
  datatype BusOp =
    | Read(addr: bv64, rc: int, value: bv64)
    | Write(addr: bv64, value: bv64, rc: int)

  /** The debug bus of one core: an oracle for reads and writes, and the log. */
  class Bus {
    const read: (seq<BusOp>, bv64) -> Reply
    const write: (seq<BusOp>, bv64, bv64) -> int
    var log: seq<BusOp>

    constructor (read: (seq<BusOp>, bv64) -> Reply, write: (seq<BusOp>, bv64, bv64) -> int)
      ensures this.read == read && this.write == write && log == []
    {
      this.read := read;
      this.write := write;
      log := [];
    }

    /** pib_read: one read access, answered by the oracle. */
    method Read(addr: bv64) returns (rc: int, value: bv64)
      modifies this`log
      ensures Reply(rc, value) == read(old(log), addr)
      ensures log == old(log) + [BusOp.Read(addr, rc, value)]
    {
      var r := read(log, addr);
      rc, value := r.rc, r.value;
      log := log + [BusOp.Read(addr, rc, value)];
    }

    /** pib_write: one write access, answered by the oracle. */
    method Write(addr: bv64, value: bv64) returns (rc: int)
      modifies this`log
      ensures rc == write(old(log), addr, value)
      ensures log == old(log) + [BusOp.Write(addr, value, rc)]
    {
      rc := write(log, addr, value);
      log := log + [BusOp.Write(addr, value, rc)];
    }
  }

  /** struct core: owns its threads and records who clears special wakeup. */
  class Core {
    const index: bv64
    const bus: Bus
    var threads: seq<Thread>
    var releaseSpwkup: bool

    constructor (index: bv64, bus: Bus)
      ensures this.index == index && this.bus == bus
      ensures threads == [] && !releaseSpwkup
    {
      this.index := index;
      this.bus := bus;
      threads := [];
      releaseSpwkup := false;
    }
  }

  /** struct thread: instruction-injection session state and cached run state. */
  class Thread {
    const backend: Backend
    const core: Core
    /** The position of the thread within its core in the target tree. */
    const index: bv64
    var id: bv64
    var ramIsSetup: bool
    var status: ThreadState
    var targetStatus: TargetStatus
    /** Every backend hook call made on this thread so far. */
    var trace: seq<Event>

    constructor (backend: Backend, core: Core, index: bv64)
      ensures this.backend == backend && this.core == core && this.index == index
      ensures id == 0 && !ramIsSetup && targetStatus == Unknown && trace == []
    {
      this.backend := backend;
      this.core := core;
      this.index := index;
      id := 0;
      ramIsSetup := false;
      status := ThreadState(false, false, SmtUnknown, Run);
      targetStatus := Unknown;
      trace := [];
    }

    /**
     * thread->ram_setup.  A backend opens the injection session when it
     * succeeds; a failed setup leaves the flag as it was.
     */
    method RamSetup() returns (rc: int)
      modifies this`trace, this`ramIsSetup
      ensures rc == backend.setup(old(trace))
      ensures trace == old(trace) + [Setup(rc)]
      ensures ramIsSetup == (old(ramIsSetup) || rc == 0)
    {
      rc := backend.setup(trace);
      trace := trace + [Setup(rc)];
      if rc == 0 {
        ramIsSetup := true;
      }
    }

    /** thread->ram_instruction: inject one opcode with the scratch value. */
    method RamInstruction(opcode: bv64, scratch: bv64) returns (rc: int, got: bv64)
      modifies this`trace
      ensures Reply(rc, got) == backend.inject(old(trace), opcode, scratch)
      ensures trace == old(trace) + [Inject(opcode, scratch, rc, got)]
    {
      var r := backend.inject(trace, opcode, scratch);
      rc, got := r.rc, r.value;
      trace := trace + [Inject(opcode, scratch, rc, got)];
    }

    /** thread->getxer: the backend's own way of reading the XER. */
    method GetXer() returns (rc: int, xer: bv64)
      modifies this`trace
      ensures Reply(rc, xer) == backend.getxer(old(trace))
      ensures trace == old(trace) + [Event.GetXer(rc, xer)]
    {
      var r := backend.getxer(trace);
      rc, xer := r.rc, r.value;
      trace := trace + [Event.GetXer(rc, xer)];
    }

    /** thread->ram_destroy: close the injection session. */
    method RamDestroy() returns (rc: int)
      modifies this`trace, this`ramIsSetup
      ensures rc == backend.destroy(old(trace))
      ensures trace == old(trace) + [Destroy(rc)]
      ensures !ramIsSetup
    {
      rc := backend.destroy(trace);
      trace := trace + [Destroy(rc)];
      ramIsSetup := false;
    }
  }
}
