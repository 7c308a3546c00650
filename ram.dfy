/**
 * ram_instructions: run a list of opcodes on a stopped thread through the
 * backend's injection hook, one at a time, with a single scratch value that
 * both feeds each opcode and captures what it leaves behind.  GPRs r0 and r1
 * are saved through the scratch register before the caller's opcodes and
 * restored after them.
 *
 * Three descriptions of one run, proved to agree:
 *  - RamInstructions, the method, written as the C loop (its index jumps to
 *    the restore steps when a caller opcode fails);
 *  - Step, Loop and Ram, the specification functions of that loop;
 *  - Sequence, a phase-by-phase reference definition (save r1, save r0, the
 *    caller's opcodes, restore r0, restore r1).
 * The lemmas at the end state what a run does in terms of the hook calls it
 * makes: their order, the value fed to each, what ends up in results[], and
 * the return code.
 */
module RamEngine {
  import opened Hwunit
  import opened Opcodes

  // The four bookend opcodes, as the encoders build them (SaveRestoreOpcodes
  // below checks each value against its encoder).

  /** mtspr 277, r1: copy r1 into the scratch register. */
  const SAVE_R1: bv64 := 0x7c35_43a6
  /** mtspr 277, r0 */
  const SAVE_R0: bv64 := 0x7c15_43a6
  /** mfspr r0, 277: load r0 back from the scratch register. */
  const RESTORE_R0: bv64 := 0x7c15_42a6
  /** mfspr r1, 277 */
  const RESTORE_R1: bv64 := 0x7c35_42a6

  /** The bookend opcodes are mtspr(277, r1), mtspr(277, r0), mfspr(r0, 277)
      and mfspr(r1, 277). */
  lemma SaveRestoreOpcodes()
    ensures SAVE_R1 == Mtspr(SCRATCH_SPR, 1) && SAVE_R0 == Mtspr(SCRATCH_SPR, 0)
    ensures RESTORE_R0 == Mfspr(0, SCRATCH_SPR) && RESTORE_R1 == Mfspr(1, SCRATCH_SPR)
  {
  }

  /** Concatenation is associative. */
  lemma AppendAssoc<T>(x: seq<T>, y: seq<T>, z: seq<T>)
    ensures x + y + z == x + (y + z)
  {
  }

  /** The locals of the C loop, results[] and the thread's hook trace. */
  datatype Locals = Locals(
    trace: seq<Event>,
    results: seq<bv64>,
    r0: bv64,
    r1: bv64,
    scratch: bv64,
    exception: bool)

  /** What the backend answers, recorded as an event, for one injection. */
  function Answer(b: Backend, t: seq<Event>, opcode: bv64, fed: bv64): (e: Event)
    ensures e.Inject? && e.opcode == opcode && e.fed == fed
  {
    var r := b.inject(t, opcode, fed);
    Inject(opcode, fed, r.rc, r.value)
  }

  /** Every event of c is an injection. */
  ghost predicate Injections(c: seq<Event>)
  {
    forall k | 0 <= k < |c| :: c[k].Inject?
  }

  // ---------------------------------------------------------------------
  // The C loop, one iteration at a time.

  /** The opcode step i of the loop injects (i runs from -2 to len+1). */
  function StepOpcode(ops: seq<bv64>, i: int): bv64
    requires -2 <= i < |ops| + 2
  {
    if i == -2 then SAVE_R1
    else if i == -1 then SAVE_R0
    else if i < |ops| then ops[i]
    else if i == |ops| then RESTORE_R0
    else RESTORE_R1
  }

  /** The scratch value step i feeds: the save steps leave scratch as it is. */
  function StepInput(ops: seq<bv64>, s: Locals, i: int): bv64
    requires -2 <= i < |ops| + 2 && |s.results| == |ops|
  {
    if i < 0 then s.scratch
    else if i < |ops| then s.results[i]
    else if i == |ops| then s.r0
    else s.r1
  }

  /** The write-back at the end of an iteration whose index is j. */
  function WriteBack(s: Locals, j: int, v: bv64): Locals
  {
    if j == -2 then s.(r1 := v)
    else if j == -1 then s.(r0 := v)
    else if 0 <= j < |s.results| then s.(results := s.results[j := v])
    else s
  }

  /**
   * One iteration from index i: the new locals and the index the next
   * iteration starts from (|ops| + 2 when the loop breaks).  A failing step
   * outside the caller's range breaks out of the loop; a failing caller step
   * sets i to len-1, so the write-back goes to results[len-1] and the loop
   * goes on with the restore of r0.
   */
  function Step(b: Backend, ops: seq<bv64>, s: Locals, i: int): (r: (Locals, int))
    requires -2 <= i < |ops| + 2 && |s.results| == |ops|
    ensures |r.0.results| == |ops| && i < r.1 <= |ops| + 2
  {
    var e := Answer(b, s.trace, StepOpcode(ops, i), StepInput(ops, s, i));
    var s1 := s.(trace := s.trace + [e], scratch := e.got);
    if e.rc != 0 && !(0 <= i < |ops|) then
      (s1.(exception := true), |ops| + 2)
    else
      var j := if e.rc != 0 then |ops| - 1 else i;
      (WriteBack(s1.(exception := s.exception || e.rc != 0), j, e.got), j + 1)
  }

  /** The loop of ram_instructions from index i on. */
  function Loop(b: Backend, ops: seq<bv64>, s: Locals, i: int): (r: Locals)
    requires -2 <= i <= |ops| + 2 && |s.results| == |ops|
    ensures |r.results| == |ops|
    decreases |ops| + 2 - i
  {
    if i == |ops| + 2 then s
    else
      var next := Step(b, ops, s, i);
      Loop(b, ops, next.0, next.1)
  }

  /** An iteration in the caller's range. */
  lemma StepUser(b: Backend, ops: seq<bv64>, s: Locals, i: int)
    requires 0 <= i < |ops| == |s.results|
    ensures var e := Answer(b, s.trace, ops[i], s.results[i]);
            Step(b, ops, s, i)
            == if e.rc == 0 then (Locals(s.trace + [e], s.results[i := e.got], s.r0, s.r1, e.got, s.exception), i + 1)
               else (Locals(s.trace + [e], s.results[|ops| - 1 := e.got], s.r0, s.r1, e.got, true), |ops|)
  {
  }

  /** An iteration outside the caller's range: the save and restore steps. */
  lemma StepBookend(b: Backend, ops: seq<bv64>, s: Locals, i: int)
    requires |s.results| == |ops| && (i == -2 || i == -1 || i == |ops| || i == |ops| + 1)
    ensures var e := Answer(b, s.trace, StepOpcode(ops, i), StepInput(ops, s, i));
            var s1 := Locals(s.trace + [e], s.results, s.r0, s.r1, e.got, s.exception);
            Step(b, ops, s, i)
            == if e.rc != 0 then (s1.(exception := true), |ops| + 2)
               else if i == -2 then (s1.(r1 := e.got), -1)
               else if i == -1 then (s1.(r0 := e.got), 0)
               else (s1, i + 1)
  {
  }

  /** The result of ram_instructions: return code, hook trace, results[]. */
  datatype RamOutcome = RamOutcome(rc: int, trace: seq<Event>, results: seq<bv64>)

  /**
   * ram_instructions on a thread whose session flag is isSetup, whose trace
   * so far is trace0, with opcodes ops and initial results res.  A session is
   * opened (and closed again) only when none was open; a setup error is
   * returned at once, and a teardown error replaces the exception flag.
   */
  function Ram(b: Backend, isSetup: bool, trace0: seq<Event>, ops: seq<bv64>, res: seq<bv64>): (o: RamOutcome)
    requires |res| == |ops|
    ensures |o.results| == |ops|
  {
    var rcSetup := b.setup(trace0);
    if !isSetup && rcSetup != 0 then
      RamOutcome(rcSetup, trace0 + [Setup(rcSetup)], res)
    else
      var t1 := if isSetup then trace0 else trace0 + [Setup(0)];
      var s := Loop(b, ops, Locals(t1, res, 0, 0, 0, false), -2);
      var exception := if s.exception then 1 else 0;
      if isSetup then
        RamOutcome(exception, s.trace, s.results)
      else
        var rcDestroy := b.destroy(s.trace);
        RamOutcome(if rcDestroy != 0 then rcDestroy else exception,
                   s.trace + [Destroy(rcDestroy)], s.results)
  }

  /**
   * The injection of iteration i: the opcode (a save, the caller's opcode
   * i, or a restore) is injected fed with the scratch value, results[i] or
   * the saved r0 or r1.
   */
  method InjectStep(thread: Thread, opcodes: seq<bv64>, results: array<bv64>, i: int, r0: bv64, r1: bv64, scratch: bv64)
    returns (failed: int, got: bv64)
    requires -2 <= i < |opcodes| + 2 && results.Length == |opcodes|
    modifies thread`trace
    ensures var s := Locals(old(thread.trace), results[..], r0, r1, scratch, false);
            var e := Answer(thread.backend, s.trace, StepOpcode(opcodes, i), StepInput(opcodes, s, i));
            failed == e.rc && got == e.got && thread.trace == old(thread.trace) + [e]
  {
    var opcode: bv64, fed := 0, scratch;
    if i == -2 {
      opcode := SAVE_R1;
    } else if i == -1 {
      opcode := SAVE_R0;
    } else if i < |opcodes| {
      fed := results[i];
      opcode := opcodes[i];
    } else if i == |opcodes| {
      fed := r0;
      opcode := RESTORE_R0;
    } else {
      fed := r1;
      opcode := RESTORE_R1;
    }
    failed, got := thread.RamInstruction(opcode, fed);
  }

  /**
   * The loop of ram_instructions, from the save of r1 to the restore of r1:
   * it leaves the trace, results[] and the exception flag as Loop does.
   */
  method InjectAll(thread: Thread, opcodes: seq<bv64>, results: array<bv64>) returns (exception: int)
    requires results.Length == |opcodes|
    modifies thread`trace, results
    ensures var s := Loop(thread.backend, opcodes, Locals(old(thread.trace), old(results[..]), 0, 0, 0, false), -2);
            thread.trace == s.trace && results[..] == s.results && exception == (if s.exception then 1 else 0)
  {
    ghost var b := thread.backend;
    ghost var start := Locals(thread.trace, results[..], 0, 0, 0, false);
    var len := |opcodes|;
    var r0: bv64, r1: bv64, scratch: bv64 := 0, 0, 0;
    exception := 0;
    var i := -2;
    while i < len + 2
      invariant -2 <= i <= len + 2
      invariant exception == 0 || exception == 1
      invariant Loop(b, opcodes, Locals(thread.trace, results[..], r0, r1, scratch, exception == 1), i)
             == Loop(b, opcodes, start, -2)
      decreases len + 2 - i
    {
      ghost var before := Locals(thread.trace, results[..], r0, r1, scratch, exception == 1);
      ghost var step := Step(b, opcodes, before, i);
      ghost var e := Answer(b, before.trace, StepOpcode(opcodes, i), StepInput(opcodes, before, i));
      if 0 <= i < len {
        StepUser(b, opcodes, before, i);
      } else {
        StepBookend(b, opcodes, before, i);
      }
      var failed;
      failed, scratch := InjectStep(thread, opcodes, results, i, r0, r1, scratch);
      assert failed == e.rc && scratch == e.got && thread.trace == before.trace + [e];
      if failed != 0 {
        exception := 1;
        if i >= 0 && i < len {
          // skip the remaining opcodes and go on to restore r0 and r1
          i := len - 1;
        } else {
          assert Locals(thread.trace, results[..], r0, r1, scratch, true) == step.0;
          break;
        }
      }

      if i == -2 {
        r1 := scratch;
      } else if i == -1 {
        r0 := scratch;
      } else if i < len {
        results[i] := scratch;
        assert results[..] == before.results[i := scratch];
      }
      i := i + 1;
      assert Locals(thread.trace, results[..], r0, r1, scratch, exception == 1) == step.0 && i == step.1;
    }
  }

  /**
   * ram_instructions: open a session unless one is open, run the loop, and
   * close the session again if this call opened it.  The result is Ram's.
   */
  method RamInstructions(thread: Thread, opcodes: seq<bv64>, results: array<bv64>) returns (rc: int)
    requires results.Length == |opcodes|
    modifies thread`trace, thread`ramIsSetup, results
    ensures var o := Ram(thread.backend, old(thread.ramIsSetup), old(thread.trace), opcodes, old(results[..]));
            rc == o.rc && thread.trace == o.trace && results[..] == o.results
    ensures thread.ramIsSetup == old(thread.ramIsSetup)
  {
    var didSetup := false;
    if !thread.ramIsSetup {
      rc := thread.RamSetup();
      if rc != 0 {
        return;
      }
      didSetup := true;
    }

    var exception := InjectAll(thread, opcodes, results);

    if didSetup {
      rc := thread.RamDestroy();
      if rc != 0 {
        return;
      }
    }
    rc := exception;
  }

  // ---------------------------------------------------------------------
  // The reference definition, phase by phase.  Each phase returns the hook
  // calls it appends to the trace t it starts from.

  /** Running the caller's opcodes from index i: the calls made, results[],
      whether an opcode failed, and the last scratch value. */
  datatype UserRun = UserRun(calls: seq<Event>, results: seq<bv64>, failed: bool, scratch: bv64)

  /**
   * The caller's opcodes from index i on.  Opcode k is fed res[k] and its
   * scratch is written back to results[k]; the first failure ends the phase
   * with its scratch in results[len-1].
   */
  function User(b: Backend, ops: seq<bv64>, t: seq<Event>, res: seq<bv64>, i: nat, scratch: bv64): (u: UserRun)
    requires i <= |ops| == |res|
    ensures |u.results| == |ops| && |u.calls| <= |ops| - i && Injections(u.calls)
    ensures u.failed ==> |u.calls| > 0
    ensures !u.failed ==> |u.calls| == |ops| - i
    decreases |ops| - i
  {
    if i == |ops| then
      UserRun([], res, false, scratch)
    else
      var e := Answer(b, t, ops[i], res[i]);
      if e.rc != 0 then
        UserRun([e], res[|ops| - 1 := e.got], true, e.got)
      else
        var u := User(b, ops, t + [e], res[i := e.got], i + 1, e.got);
        u.(calls := [e] + u.calls)
  }

  /**
   * Call j of the user phase is the backend's answer, given everything
   * before it, to opcode i + j fed with res[i + j]; it fails exactly when it
   * is the failing last call of the phase.
   */
  lemma {:induction false} UserCallAt(b: Backend, ops: seq<bv64>, t: seq<Event>, res: seq<bv64>, i: nat, scratch: bv64, j: nat)
    requires i <= |ops| == |res|
    requires j < |User(b, ops, t, res, i, scratch).calls|
    decreases |ops| - i
    ensures var u := User(b, ops, t, res, i, scratch);
            i + j < |ops|
            && u.calls[j] == Answer(b, t + u.calls[..j], ops[i + j], res[i + j])
            && (u.calls[j].rc != 0 <==> u.failed && j == |u.calls| - 1)
  {
    var u := User(b, ops, t, res, i, scratch);
    var e := Answer(b, t, ops[i], res[i]);
    if e.rc == 0 {
      var t', res' := t + [e], res[i := e.got];
      var u' := User(b, ops, t', res', i + 1, e.got);
      assert u.calls == [e] + u'.calls;
      if j == 0 {
        assert t + u.calls[..0] == t;
      } else {
        UserCallAt(b, ops, t', res', i + 1, e.got, j - 1);
        assert u.calls[..j] == [e] + u'.calls[..j - 1];
        AppendAssoc(t, [e], u'.calls[..j - 1]);
      }
    } else {
      assert t + u.calls[..0] == t;
    }
  }

  /**
   * Slot k of results[] after the user phase: the scratch of opcode k for
   * every opcode that ran and did not fail, the input in every slot after
   * that, except that a failure puts its scratch in the last slot.
   */
  lemma {:induction false} UserResultAt(b: Backend, ops: seq<bv64>, t: seq<Event>, res: seq<bv64>, i: nat, scratch: bv64, k: nat)
    requires i <= |ops| == |res| && k < |ops|
    decreases |ops| - i
    ensures var u := User(b, ops, t, res, i, scratch);
            var done := i + |u.calls| - (if u.failed then 1 else 0);
            (k < i ==> u.results[k] == res[k])
            && (i <= k < done ==> u.results[k] == u.calls[k - i].got)
            && (done <= k < |ops| - 1 ==> u.results[k] == res[k])
            && (k == |ops| - 1 && u.failed ==> u.results[k] == u.calls[|u.calls| - 1].got)
  {
    if i < |ops| {
      var e := Answer(b, t, ops[i], res[i]);
      if e.rc == 0 {
        var t', res' := t + [e], res[i := e.got];
        UserResultAt(b, ops, t', res', i + 1, e.got, k);
      }
    }
  }

  /** The restore steps from trace t: restore r0, then, unless that fails,
      restore r1. */
  function Restore(b: Backend, t: seq<Event>, r0: bv64, r1: bv64): (r: seq<Event>)
    ensures 1 <= |r| <= 2 && r[0] == Answer(b, t, RESTORE_R0, r0)
    ensures |r| == 2 <==> r[0].rc == 0
    ensures |r| == 2 ==> r[1] == Answer(b, t + [r[0]], RESTORE_R1, r1)
  {
    var e3 := Answer(b, t, RESTORE_R0, r0);
    if e3.rc != 0 then [e3] else [e3, Answer(b, t + [e3], RESTORE_R1, r1)]
  }

  /** A whole run, as its description reads: save, user phase, restore. */
  datatype SeqRun = SeqRun(calls: seq<Event>, results: seq<bv64>, exception: bool)

  function Sequence(b: Backend, ops: seq<bv64>, t: seq<Event>, res: seq<bv64>): (q: SeqRun)
    requires |res| == |ops|
    ensures |q.results| == |ops| && 0 < |q.calls| <= |ops| + 4 && Injections(q.calls)
  {
    var e1 := Answer(b, t, SAVE_R1, 0);
    if e1.rc != 0 then SeqRun([e1], res, true)
    else
      var e2 := Answer(b, t + [e1], SAVE_R0, e1.got);
      if e2.rc != 0 then SeqRun([e1, e2], res, true)
      else
        var u := User(b, ops, t + [e1, e2], res, 0, e2.got);
        var r := Restore(b, t + [e1, e2] + u.calls, e2.got, e1.got);
        SeqRun([e1, e2] + u.calls + r, u.results, u.failed || r[|r| - 1].rc != 0)
  }

  /** The user phase of the loop is User: from index i the loop reaches the
      restore of r0 in the state User describes. */
  /** The loop's locals when it reaches the restore of r0, by User. */
  function AtRestore(b: Backend, ops: seq<bv64>, s: Locals, i: nat): (r: Locals)
    requires i <= |ops| == |s.results|
    ensures |r.results| == |ops|
  {
    var u := User(b, ops, s.trace, s.results, i, s.scratch);
    Locals(s.trace + u.calls, u.results, s.r0, s.r1, u.scratch, s.exception || u.failed)
  }

  lemma AtRestoreStep(b: Backend, ops: seq<bv64>, s: Locals, i: nat)
    requires i < |ops| == |s.results|
    ensures var e := Answer(b, s.trace, ops[i], s.results[i]);
            e.rc == 0 ==>
              AtRestore(b, ops, s, i)
              == AtRestore(b, ops, Locals(s.trace + [e], s.results[i := e.got], s.r0, s.r1, e.got, s.exception), i + 1)
  {
    var e := Answer(b, s.trace, ops[i], s.results[i]);
    if e.rc == 0 {
      var s' := Locals(s.trace + [e], s.results[i := e.got], s.r0, s.r1, e.got, s.exception);
      var u' := User(b, ops, s'.trace, s'.results, i + 1, e.got);
      assert s'.trace + u'.calls == s.trace + ([e] + u'.calls);
    }
  }

  lemma {:induction false} LoopUser(b: Backend, ops: seq<bv64>, s: Locals, i: nat)
    requires i <= |ops| == |s.results|
    ensures Loop(b, ops, s, i) == Loop(b, ops, AtRestore(b, ops, s, i), |ops|)
    decreases |ops| - i
  {
    if i < |ops| {
      var e := Answer(b, s.trace, ops[i], s.results[i]);
      StepUser(b, ops, s, i);
      if e.rc == 0 {
        var s' := Locals(s.trace + [e], s.results[i := e.got], s.r0, s.r1, e.got, s.exception);
        LoopUser(b, ops, s', i + 1);
        AtRestoreStep(b, ops, s, i);
      }
    } else {
      assert s.trace + [] == s.trace;
    }
  }

  /** The loop's locals after both save steps succeeded. */
  function Saved(b: Backend, t: seq<Event>, res: seq<bv64>): Locals
  {
    var e1 := Answer(b, t, SAVE_R1, 0);
    var e2 := Answer(b, t + [e1], SAVE_R0, e1.got);
    Locals(t + [e1, e2], res, e2.got, e1.got, e2.got, false)
  }

  /** The two save steps of the loop: a failure ends the loop. */
  lemma LoopSaves(b: Backend, ops: seq<bv64>, t: seq<Event>, res: seq<bv64>)
    requires |res| == |ops|
    ensures var s0 := Locals(t, res, 0, 0, 0, false);
            var e1 := Answer(b, t, SAVE_R1, 0);
            var e2 := Answer(b, t + [e1], SAVE_R0, e1.got);
            (e1.rc != 0 ==> Loop(b, ops, s0, -2) == Locals(t + [e1], res, 0, 0, e1.got, true))
            && (e1.rc == 0 && e2.rc != 0 ==>
                  Loop(b, ops, s0, -2) == Locals(t + [e1, e2], res, 0, e1.got, e2.got, true))
            && (e1.rc == 0 && e2.rc == 0 ==> Loop(b, ops, s0, -2) == Loop(b, ops, Saved(b, t, res), 0))
  {
    var s0 := Locals(t, res, 0, 0, 0, false);
    var e1 := Answer(b, t, SAVE_R1, 0);
    StepBookend(b, ops, s0, -2);
    if e1.rc == 0 {
      var s1 := Locals(t + [e1], res, 0, e1.got, e1.got, false);
      assert Loop(b, ops, s0, -2) == Loop(b, ops, s1, -1);
      var e2 := Answer(b, t + [e1], SAVE_R0, e1.got);
      StepBookend(b, ops, s1, -1);
      assert t + [e1] + [e2] == t + [e1, e2];
      if e2.rc != 0 {
        var s2 := Locals(t + [e1, e2], res, 0, e1.got, e2.got, true);
        assert Loop(b, ops, s1, -1) == Loop(b, ops, s2, |ops| + 2);
      } else {
        assert Loop(b, ops, s1, -1) == Loop(b, ops, Saved(b, t, res), 0);
      }
    }
  }

  /** The two restore steps of the loop, from index len on, are Restore. */
  lemma LoopRestores(b: Backend, ops: seq<bv64>, s: Locals)
    requires |s.results| == |ops|
    ensures var r := Restore(b, s.trace, s.r0, s.r1);
            Loop(b, ops, s, |ops|)
            == Locals(s.trace + r, s.results, s.r0, s.r1, r[|r| - 1].got, s.exception || r[|r| - 1].rc != 0)
  {
    var e3 := Answer(b, s.trace, RESTORE_R0, s.r0);
    StepBookend(b, ops, s, |ops|);
    if e3.rc == 0 {
      var s3 := Locals(s.trace + [e3], s.results, s.r0, s.r1, e3.got, s.exception);
      assert Loop(b, ops, s, |ops|) == Loop(b, ops, s3, |ops| + 1);
      var e4 := Answer(b, s.trace + [e3], RESTORE_R1, s.r1);
      StepBookend(b, ops, s3, |ops| + 1);
      assert s.trace + [e3] + [e4] == s.trace + [e3, e4];
      var s4 := Locals(s.trace + [e3, e4], s.results, s.r0, s.r1, e4.got, s.exception || e4.rc != 0);
      assert Loop(b, ops, s3, |ops| + 1) == Loop(b, ops, s4, |ops| + 2);
    } else {
      var s3 := Locals(s.trace + [e3], s.results, s.r0, s.r1, e3.got, true);
      assert Loop(b, ops, s, |ops|) == Loop(b, ops, s3, |ops| + 2);
    }
  }

  /** The C loop and the phase-by-phase definition describe the same run. */
  lemma LoopIsSequence(b: Backend, ops: seq<bv64>, t: seq<Event>, res: seq<bv64>)
    requires |res| == |ops|
    ensures var s := Loop(b, ops, Locals(t, res, 0, 0, 0, false), -2);
            var q := Sequence(b, ops, t, res);
            s.trace == t + q.calls && s.results == q.results && s.exception == q.exception
  {
    LoopSaves(b, ops, t, res);
    var e1 := Answer(b, t, SAVE_R1, 0);
    var e2 := Answer(b, t + [e1], SAVE_R0, e1.got);
    if e1.rc == 0 && e2.rc == 0 {
      var s2 := Saved(b, t, res);
      LoopUser(b, ops, s2, 0);
      var u := User(b, ops, s2.trace, res, 0, e2.got);
      var s3 := AtRestore(b, ops, s2, 0);
      assert s3 == Locals(t + [e1, e2] + u.calls, u.results, e2.got, e1.got, u.scratch, u.failed);
      LoopRestores(b, ops, s3);
      var r := Restore(b, s3.trace, e2.got, e1.got);
      AppendAssoc(t, [e1, e2], u.calls);
      AppendAssoc(t, [e1, e2] + u.calls, r);
    }
  }

  /** The hook calls a run makes between its setup and its destroy (none
      when the setup fails). */
  function Calls(b: Backend, isSetup: bool, trace0: seq<Event>, ops: seq<bv64>, res: seq<bv64>): (c: seq<Event>)
    requires |res| == |ops|
    ensures Injections(c)
  {
    if !isSetup && b.setup(trace0) != 0 then []
    else
      var t1 := if isSetup then trace0 else trace0 + [Setup(0)];
      Sequence(b, ops, t1, res).calls
  }

  // ---------------------------------------------------------------------
  // What a run does, stated on the phase-by-phase definition.

  /**
   * The calls of a run, phase by phase: save r1, then (when that succeeds)
   * save r0, then (when both succeed) the user phase followed by the
   * restore steps.
   */
  lemma SequenceShape(b: Backend, ops: seq<bv64>, t: seq<Event>, res: seq<bv64>)
    requires |res| == |ops|
    ensures var q := Sequence(b, ops, t, res);
            var e1 := Answer(b, t, SAVE_R1, 0);
            var e2 := Answer(b, t + [e1], SAVE_R0, e1.got);
            var u := User(b, ops, t + [e1, e2], res, 0, e2.got);
            var r := Restore(b, t + [e1, e2] + u.calls, e2.got, e1.got);
            q.calls[0] == e1
            && (e1.rc != 0 ==> q == SeqRun([e1], res, true))
            && (e1.rc == 0 ==> q.calls[1] == e2)
            && (e1.rc == 0 && e2.rc != 0 ==> q == SeqRun([e1, e2], res, true))
            && (e1.rc == 0 && e2.rc == 0 ==>
                  q == SeqRun([e1, e2] + u.calls + r, u.results, u.failed || r[|r| - 1].rc != 0))
  {
  }

  /**
   * What a user phase run from index 0 looks like: call j injects opcode j
   * fed res[j] and fails exactly when it is the failing last call; without
   * a failure every opcode runs; results[k] is what opcode k returned for
   * every opcode that ran and did not fail, the input after that, and the
   * failing opcode's scratch in the last slot.
   */
  ghost predicate UserShape(ops: seq<bv64>, res: seq<bv64>, u: UserRun)
    requires |res| == |ops|
  {
    var done := |u.calls| - (if u.failed then 1 else 0);
    |u.results| == |ops| && |u.calls| <= |ops| && 0 <= done
    && (u.failed ==> |u.calls| > 0)
    && (!u.failed ==> |u.calls| == |ops|)
    && (forall j | 0 <= j < |u.calls| ::
          u.calls[j].Inject? && u.calls[j].opcode == ops[j] && u.calls[j].fed == res[j]
          && (u.calls[j].rc != 0 <==> u.failed && j == |u.calls| - 1))
    && (forall k | 0 <= k < |ops| ::
          (k < done ==> u.results[k] == u.calls[k].got)
          && (done <= k < |ops| - 1 ==> u.results[k] == res[k])
          && (k == |ops| - 1 && u.failed ==> u.results[k] == u.calls[|u.calls| - 1].got))
  }

  lemma UserHasShape(b: Backend, ops: seq<bv64>, t: seq<Event>, res: seq<bv64>, scratch: bv64)
    requires |res| == |ops|
    ensures UserShape(ops, res, User(b, ops, t, res, 0, scratch))
  {
    var u := User(b, ops, t, res, 0, scratch);
    forall j | 0 <= j < |u.calls|
      ensures u.calls[j].Inject? && u.calls[j].opcode == ops[j] && u.calls[j].fed == res[j]
              && (u.calls[j].rc != 0 <==> u.failed && j == |u.calls| - 1)
    {
      UserCallAt(b, ops, t, res, 0, scratch, j);
    }
    forall k | 0 <= k < |ops|
      ensures var done := |u.calls| - (if u.failed then 1 else 0);
              (k < done ==> u.results[k] == u.calls[k].got)
              && (done <= k < |ops| - 1 ==> u.results[k] == res[k])
              && (k == |ops| - 1 && u.failed ==> u.results[k] == u.calls[|u.calls| - 1].got)
    {
      UserResultAt(b, ops, t, res, 0, scratch, k);
    }
  }

  /** What Restore guarantees, as a property of its calls. */
  ghost predicate RestoreShape(r: seq<Event>, r0: bv64, r1: bv64)
  {
    1 <= |r| <= 2
    && r[0].Inject? && r[0].opcode == RESTORE_R0 && r[0].fed == r0
    && (|r| == 2 <==> r[0].rc == 0)
    && (|r| == 2 ==> r[1].Inject? && r[1].opcode == RESTORE_R1 && r[1].fed == r1)
  }

  /** A run whose two saves succeeded, described by its phases: the saves
      e1 and e2, the user phase u and the restore calls r. */
  ghost predicate SavedRun(ops: seq<bv64>, res: seq<bv64>, q: SeqRun, e1: Event, e2: Event, u: UserRun, r: seq<Event>)
    requires |res| == |ops|
  {
    e1.Inject? && e1.opcode == SAVE_R1 && e1.fed == 0 && e1.rc == 0
    && e2.Inject? && e2.opcode == SAVE_R0 && e2.fed == e1.got && e2.rc == 0
    && UserShape(ops, res, u) && RestoreShape(r, e2.got, e1.got)
    && q == SeqRun([e1, e2] + u.calls + r, u.results, u.failed || r[|r| - 1].rc != 0)
  }

  lemma SavedRunHolds(b: Backend, ops: seq<bv64>, t: seq<Event>, res: seq<bv64>)
    requires |res| == |ops|
    ensures var e1 := Answer(b, t, SAVE_R1, 0);
            var e2 := Answer(b, t + [e1], SAVE_R0, e1.got);
            var u := User(b, ops, t + [e1, e2], res, 0, e2.got);
            var r := Restore(b, t + [e1, e2] + u.calls, e2.got, e1.got);
            e1.rc == 0 && e2.rc == 0 ==> SavedRun(ops, res, Sequence(b, ops, t, res), e1, e2, u, r)
  {
    SequenceShape(b, ops, t, res);
    var e1 := Answer(b, t, SAVE_R1, 0);
    var e2 := Answer(b, t + [e1], SAVE_R0, e1.got);
    if e1.rc == 0 && e2.rc == 0 {
      UserHasShape(b, ops, t + [e1, e2], res, e2.got);
    }
  }

  lemma SavedRunException(ops: seq<bv64>, res: seq<bv64>, q: SeqRun, e1: Event, e2: Event, u: UserRun, r: seq<Event>)
    requires |res| == |ops| && SavedRun(ops, res, q, e1, e2, u, r)
    ensures q.exception <==> exists p | 0 <= p < |q.calls| :: q.calls[p].rc != 0
  {
    var c := q.calls;
    if u.failed {
      assert c[2 + (|u.calls| - 1)] == u.calls[|u.calls| - 1];
    } else if r[|r| - 1].rc != 0 {
      assert c[2 + |u.calls| + (|r| - 1)] == r[|r| - 1];
    } else {
      forall p | 0 <= p < |c| ensures c[p].rc == 0 {
        if 2 <= p < 2 + |u.calls| {
          assert c[p] == u.calls[p - 2];
        } else if 2 + |u.calls| <= p {
          assert c[p] == r[p - 2 - |u.calls|];
        }
      }
    }
  }

  lemma SavedRunWithoutFailure(ops: seq<bv64>, res: seq<bv64>, q: SeqRun, e1: Event, e2: Event, u: UserRun, r: seq<Event>)
    requires |res| == |ops| && SavedRun(ops, res, q, e1, e2, u, r)
    ensures var c, n := q.calls, |ops|;
            (forall p | 0 <= p < |c| :: c[p].rc == 0) ==>
              !q.exception && |c| == n + 4
              && c[0].opcode == SAVE_R1 && c[0].fed == 0
              && c[1].opcode == SAVE_R0 && c[1].fed == c[0].got
              && (forall k | 0 <= k < n ::
                    c[2 + k].opcode == ops[k] && c[2 + k].fed == res[k] && q.results[k] == c[2 + k].got)
              && c[n + 2].opcode == RESTORE_R0 && c[n + 2].fed == c[1].got
              && c[n + 3].opcode == RESTORE_R1 && c[n + 3].fed == c[0].got
  {
    var c := q.calls;
    if u.failed {
      assert c[2 + (|u.calls| - 1)] == u.calls[|u.calls| - 1];
    }
    assert c[2 + |u.calls|] == r[0];
    if |r| == 2 {
      assert c[3 + |u.calls|] == r[1];
    }
    forall k | 0 <= k < |u.calls| ensures c[2 + k] == u.calls[k] {
    }
  }

  /** The first failing call of a run, if it is caller opcode k, ends the
      user phase. */
  lemma SavedRunFailsAt(ops: seq<bv64>, res: seq<bv64>, q: SeqRun, e1: Event, e2: Event, u: UserRun, r: seq<Event>, k: nat)
    requires |res| == |ops| && k < |ops| && SavedRun(ops, res, q, e1, e2, u, r)
    requires 2 + k < |q.calls| && q.calls[2 + k].rc != 0
    requires forall p | 0 <= p < 2 + k :: q.calls[p].rc == 0
    ensures u.failed && |u.calls| == k + 1
  {
    var c := q.calls;
    if u.failed {
      assert c[2 + (|u.calls| - 1)] == u.calls[|u.calls| - 1];
    }
    assert c[2 + k] == u.calls[k];
  }

  lemma SavedRunUserFailure(ops: seq<bv64>, res: seq<bv64>, q: SeqRun, e1: Event, e2: Event, u: UserRun, r: seq<Event>, k: nat)
    requires |res| == |ops| && k < |ops| && SavedRun(ops, res, q, e1, e2, u, r)
    requires u.failed && |u.calls| == k + 1
    ensures var c, n := q.calls, |ops|;
            q.exception
            && c[2 + k].rc != 0 && c[2 + k].opcode == ops[k] && c[2 + k].fed == res[k]
            && (forall j | 0 <= j < k :: q.results[j] == c[2 + j].got)
            && (forall j | k <= j < n - 1 :: q.results[j] == res[j])
            && q.results[n - 1] == c[2 + k].got
            && k + 4 <= |c| <= k + 5
            && c[k + 3].opcode == RESTORE_R0 && c[k + 3].fed == c[1].got
            && (|c| == k + 5 <==> c[k + 3].rc == 0)
            && (|c| == k + 5 ==> c[k + 4].opcode == RESTORE_R1 && c[k + 4].fed == c[0].got)
  {
    var c := q.calls;
    assert c[2 + k] == u.calls[k];
    assert c[k + 3] == r[0];
    if |r| == 2 {
      assert c[k + 4] == r[1];
    }
    forall j | 0 <= j < k ensures q.results[j] == c[2 + j].got {
      assert c[2 + j] == u.calls[j];
    }
  }

  lemma SavedRunRestoreFailure(ops: seq<bv64>, res: seq<bv64>, q: SeqRun, e1: Event, e2: Event, u: UserRun, r: seq<Event>, f: nat)
    requires |res| == |ops| && |ops| + 2 <= f && SavedRun(ops, res, q, e1, e2, u, r)
    ensures var c, n := q.calls, |ops|;
            (f < |c| && c[f].rc != 0 && forall p | 0 <= p < f :: c[p].rc == 0) ==>
              q.exception && |c| == f + 1
              && c[f].opcode == (if f == n + 2 then RESTORE_R0 else RESTORE_R1)
              && forall k | 0 <= k < n :: q.results[k] == c[2 + k].got
  {
    var c := q.calls;
    if u.failed {
      assert c[2 + (|u.calls| - 1)] == u.calls[|u.calls| - 1];
    }
    assert c[2 + |u.calls|] == r[0];
    if |r| == 2 {
      assert c[3 + |u.calls|] == r[1];
    }
    forall k | 0 <= k < |u.calls| ensures c[2 + k] == u.calls[k] {
    }
  }

  /** A run reports an exception exactly when one of its calls failed. */
  lemma SequenceException(b: Backend, ops: seq<bv64>, t: seq<Event>, res: seq<bv64>)
    requires |res| == |ops|
    ensures var q := Sequence(b, ops, t, res);
            q.exception <==> exists p | 0 <= p < |q.calls| :: q.calls[p].rc != 0
  {
    SequenceShape(b, ops, t, res);
    SavedRunHolds(b, ops, t, res);
    var q := Sequence(b, ops, t, res);
    var e1 := Answer(b, t, SAVE_R1, 0);
    var e2 := Answer(b, t + [e1], SAVE_R0, e1.got);
    if e1.rc != 0 {
      assert q.calls[0].rc != 0;
    } else if e2.rc != 0 {
      assert q.calls[1].rc != 0;
    } else {
      var u := User(b, ops, t + [e1, e2], res, 0, e2.got);
      SavedRunException(ops, res, q, e1, e2, u, Restore(b, t + [e1, e2] + u.calls, e2.got, e1.got));
    }
  }

  /**
   * A run in which no call fails makes exactly len+4 calls: save r1 (fed
   * 0), save r0 (fed what save r1 returned), opcode k fed res[k] for every
   * k, restore r0 fed what save r0 returned, restore r1 fed what save r1
   * returned.  Every results[k] is what opcode k returned.
   */
  lemma RunWithoutFailure(b: Backend, ops: seq<bv64>, t: seq<Event>, res: seq<bv64>)
    requires |res| == |ops|
    ensures var q := Sequence(b, ops, t, res);
            var c, n := q.calls, |ops|;
            (forall p | 0 <= p < |c| :: c[p].rc == 0) ==>
              !q.exception && |c| == n + 4
              && c[0].opcode == SAVE_R1 && c[0].fed == 0
              && c[1].opcode == SAVE_R0 && c[1].fed == c[0].got
              && (forall k | 0 <= k < n ::
                    c[2 + k].opcode == ops[k] && c[2 + k].fed == res[k] && q.results[k] == c[2 + k].got)
              && c[n + 2].opcode == RESTORE_R0 && c[n + 2].fed == c[1].got
              && c[n + 3].opcode == RESTORE_R1 && c[n + 3].fed == c[0].got
  {
    SequenceShape(b, ops, t, res);
    SavedRunHolds(b, ops, t, res);
    var e1 := Answer(b, t, SAVE_R1, 0);
    var e2 := Answer(b, t + [e1], SAVE_R0, e1.got);
    if e1.rc == 0 && e2.rc == 0 {
      var u := User(b, ops, t + [e1, e2], res, 0, e2.got);
      SavedRunWithoutFailure(ops, res, Sequence(b, ops, t, res), e1, e2, u,
                             Restore(b, t + [e1, e2] + u.calls, e2.got, e1.got));
    }
  }

  /**
   * A run whose first failing call is caller opcode k injects no further
   * caller opcode but still goes on to restore r0 (fed what save r0
   * returned) and, unless that fails, r1 (fed what save r1 returned).  It
   * reports an exception; results[0..k) hold what opcodes 0..k-1 returned,
   * results[k..len-1) keep their inputs and results[len-1] holds what the
   * failing opcode returned.
   */
  lemma RunWithUserFailure(b: Backend, ops: seq<bv64>, t: seq<Event>, res: seq<bv64>, k: nat)
    requires |res| == |ops| && k < |ops|
    ensures var q := Sequence(b, ops, t, res);
            var c, n := q.calls, |ops|;
            (2 + k < |c| && c[2 + k].rc != 0 && forall p | 0 <= p < 2 + k :: c[p].rc == 0) ==>
              q.exception
              && c[2 + k].opcode == ops[k] && c[2 + k].fed == res[k]
              && (forall j | 0 <= j < k :: q.results[j] == c[2 + j].got)
              && (forall j | k <= j < n - 1 :: q.results[j] == res[j])
              && q.results[n - 1] == c[2 + k].got
              && k + 4 <= |c| <= k + 5
              && c[k + 3].opcode == RESTORE_R0 && c[k + 3].fed == c[1].got
              && (|c| == k + 5 <==> c[k + 3].rc == 0)
              && (|c| == k + 5 ==> c[k + 4].opcode == RESTORE_R1 && c[k + 4].fed == c[0].got)
  {
    SequenceShape(b, ops, t, res);
    SavedRunHolds(b, ops, t, res);
    var e1 := Answer(b, t, SAVE_R1, 0);
    var e2 := Answer(b, t + [e1], SAVE_R0, e1.got);
    if e1.rc == 0 && e2.rc == 0 {
      var q := Sequence(b, ops, t, res);
      var c := q.calls;
      var u := User(b, ops, t + [e1, e2], res, 0, e2.got);
      var r := Restore(b, t + [e1, e2] + u.calls, e2.got, e1.got);
      if 2 + k < |c| && c[2 + k].rc != 0 && forall p | 0 <= p < 2 + k :: c[p].rc == 0 {
        SavedRunFailsAt(ops, res, q, e1, e2, u, r, k);
        SavedRunUserFailure(ops, res, q, e1, e2, u, r, k);
      }
    }
  }

  /**
   * A run whose first failing call is one of the save or restore steps
   * stops right there: that call is the last one, the run reports an
   * exception, and results[] is untouched (a save failed) or holds what
   * every caller opcode returned (a restore failed).
   */
  lemma RunWithSaveRestoreFailure(b: Backend, ops: seq<bv64>, t: seq<Event>, res: seq<bv64>, f: nat)
    requires |res| == |ops| && (f < 2 || |ops| + 2 <= f)
    ensures var q := Sequence(b, ops, t, res);
            var c, n := q.calls, |ops|;
            (f < |c| && c[f].rc != 0 && forall p | 0 <= p < f :: c[p].rc == 0) ==>
              q.exception && |c| == f + 1
              && c[f].opcode == (if f == 0 then SAVE_R1 else if f == 1 then SAVE_R0
                                 else if f == n + 2 then RESTORE_R0 else RESTORE_R1)
              && (f < 2 ==> q.results == res)
              && (f >= 2 ==> forall k | 0 <= k < n :: q.results[k] == c[2 + k].got)
  {
    SequenceShape(b, ops, t, res);
    SavedRunHolds(b, ops, t, res);
    var e1 := Answer(b, t, SAVE_R1, 0);
    var e2 := Answer(b, t + [e1], SAVE_R0, e1.got);
    if e1.rc == 0 && e2.rc == 0 && f >= 2 {
      var u := User(b, ops, t + [e1, e2], res, 0, e2.got);
      SavedRunRestoreFailure(ops, res, Sequence(b, ops, t, res), e1, e2, u,
                             Restore(b, t + [e1, e2] + u.calls, e2.got, e1.got), f);
    }
  }

  // ---------------------------------------------------------------------
  // What a call of ram_instructions does.

  /** ram_instructions is the phase-by-phase run, bracketed by a setup and
      a destroy exactly when no session was open. */
  lemma RamIsSequence(b: Backend, isSetup: bool, t0: seq<Event>, ops: seq<bv64>, res: seq<bv64>)
    requires |res| == |ops|
    ensures var o := Ram(b, isSetup, t0, ops, res);
            var c := Calls(b, isSetup, t0, ops, res);
            var t1 := if isSetup then t0 else t0 + [Setup(0)];
            var q := Sequence(b, ops, t1, res);
            Injections(c)
            && (!isSetup && b.setup(t0) != 0 ==>
                  c == [] && o == RamOutcome(b.setup(t0), t0 + [Setup(b.setup(t0))], res))
            && (isSetup || b.setup(t0) == 0 ==> c == q.calls && o.results == q.results)
            && (isSetup ==> o.trace == t0 + c && o.rc == (if q.exception then 1 else 0))
            && (!isSetup && b.setup(t0) == 0 ==>
                  var d := b.destroy(t1 + c);
                  o.trace == t1 + c + [Destroy(d)]
                  && o.rc == (if d != 0 then d else if q.exception then 1 else 0))
  {
    if isSetup || b.setup(t0) == 0 {
      var t1 := if isSetup then t0 else t0 + [Setup(0)];
      LoopIsSequence(b, ops, t1, res);
      SequenceException(b, ops, t1, res);
    }
  }

  /** A call that finds a session open makes injections only. */
  lemma RamInSession(b: Backend, t0: seq<Event>, ops: seq<bv64>, res: seq<bv64>)
    requires |res| == |ops|
    ensures var o := Ram(b, true, t0, ops, res);
            |t0| < |o.trace| && o.trace[..|t0|] == t0
            && forall k | |t0| <= k < |o.trace| :: o.trace[k].Inject?
  {
    RamIsSequence(b, true, t0, ops, res);
    var o := Ram(b, true, t0, ops, res);
    var c := Calls(b, true, t0, ops, res);
    assert o.trace == t0 + c;
    forall k | |t0| <= k < |o.trace| ensures o.trace[k].Inject? {
      assert o.trace[k] == c[k - |t0|];
    }
  }

  /** A call that finds no session open and whose setup succeeds makes the
      setup call, injections, and the destroy call. */
  lemma RamOpensSession(b: Backend, t0: seq<Event>, ops: seq<bv64>, res: seq<bv64>)
    requires |res| == |ops| && b.setup(t0) == 0
    ensures var o := Ram(b, false, t0, ops, res);
            |t0| + 1 < |o.trace| && o.trace[..|t0|] == t0 && o.trace[|t0|] == Setup(0)
            && o.trace[|o.trace| - 1].Destroy?
            && forall k | |t0| < k < |o.trace| - 1 :: o.trace[k].Inject?
  {
    RamIsSequence(b, false, t0, ops, res);
    var o := Ram(b, false, t0, ops, res);
    var c := Calls(b, false, t0, ops, res);
    var d := b.destroy(t0 + [Setup(0)] + c);
    assert o.trace == t0 + [Setup(0)] + c + [Destroy(d)];
    forall k | |t0| < k < |o.trace| - 1 ensures o.trace[k].Inject? {
      assert o.trace[k] == c[k - |t0| - 1];
    }
  }

  /**
   * Session ownership: a call that finds no session open makes one setup
   * call first and, when that succeeds, one destroy call last, with nothing
   * but injections between; a failed setup is the only call made.  A call
   * that finds a session open makes injections only.  The calls made before
   * are left as they were.
   */
  lemma RamOwnsSession(b: Backend, isSetup: bool, t0: seq<Event>, ops: seq<bv64>, res: seq<bv64>)
    requires |res| == |ops|
    ensures var o := Ram(b, isSetup, t0, ops, res);
            |t0| < |o.trace| && o.trace[..|t0|] == t0
            && (isSetup ==> forall k | |t0| <= k < |o.trace| :: o.trace[k].Inject?)
            && (!isSetup ==> o.trace[|t0|] == Setup(b.setup(t0)))
            && (!isSetup && b.setup(t0) != 0 ==> |o.trace| == |t0| + 1 && o.rc == b.setup(t0))
            && (!isSetup && b.setup(t0) == 0 ==>
                  o.trace[|o.trace| - 1].Destroy?
                  && forall k | |t0| < k < |o.trace| - 1 :: o.trace[k].Inject?)
  {
    if isSetup {
      RamInSession(b, t0, ops, res);
    } else if b.setup(t0) == 0 {
      RamOpensSession(b, t0, ops, res);
    }
  }

  /**
   * The return code: the setup error when an implicit setup fails, else
   * the destroy error when an implicit destroy fails, else 1 when any
   * injection failed and 0 when none did.
   */
  lemma RamReturnCode(b: Backend, isSetup: bool, t0: seq<Event>, ops: seq<bv64>, res: seq<bv64>)
    requires |res| == |ops|
    ensures var o := Ram(b, isSetup, t0, ops, res);
            var c := Calls(b, isSetup, t0, ops, res);
            var failed := exists p | 0 <= p < |c| :: c[p].rc != 0;
            o.rc == (if !isSetup && b.setup(t0) != 0 then b.setup(t0)
                     else if !isSetup && b.destroy(t0 + [Setup(0)] + c) != 0 then b.destroy(t0 + [Setup(0)] + c)
                     else if failed then 1 else 0)
  {
    RamIsSequence(b, isSetup, t0, ops, res);
    if isSetup || b.setup(t0) == 0 {
      var t1 := if isSetup then t0 else t0 + [Setup(0)];
      SequenceException(b, ops, t1, res);
    }
  }

  /**
   * A call that returns 0 made every injection succeed, so it made all
   * len+4 of them in order, and results[k] is what opcode k returned when
   * fed res[k].
   */
  lemma RamSucceeded(b: Backend, isSetup: bool, t0: seq<Event>, ops: seq<bv64>, res: seq<bv64>)
    requires |res| == |ops|
    ensures var o := Ram(b, isSetup, t0, ops, res);
            var c := Calls(b, isSetup, t0, ops, res);
            o.rc == 0 ==>
              (isSetup || b.setup(t0) == 0) && |c| == |ops| + 4
              && (forall p | 0 <= p < |c| :: c[p].rc == 0)
              && forall k | 0 <= k < |ops| ::
                   c[2 + k].opcode == ops[k] && c[2 + k].fed == res[k] && o.results[k] == c[2 + k].got
  {
    RamIsSequence(b, isSetup, t0, ops, res);
    RamReturnCode(b, isSetup, t0, ops, res);
    if isSetup || b.setup(t0) == 0 {
      var t1 := if isSetup then t0 else t0 + [Setup(0)];
      RunWithoutFailure(b, ops, t1, res);
    }
  }
}
