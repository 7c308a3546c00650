/**
 * The register and memory accessors of libpdbg/chip.c built on
 * ram_instructions, and ram_getregs, which reads a whole register set in
 * one injection session.
 *
 * Every accessor hands a fixed opcode list and a results[] array of the
 * same length to RamInstructions and, when that returns 0, reads its answer
 * out of one results[] slot.  A failure is returned as it is (the C's
 * CHECK_ERR) and leaves the caller's output untouched: the output is
 * modelled by a `prior` parameter, the value the caller's variable held.
 *
 * Each contract ties the call to Ram, the specification of
 * ram_instructions, and states what a successful call means in terms of
 * the hook calls: which opcodes were injected, which one was fed the
 * caller's value, and which one's scratch became the answer.
 */
module Registers {
  import opened Hwunit
  import opened Opcodes
  import opened RamEngine
  import opened CondReg

  // Special-purpose register numbers (the Power ISA numbering; the header
  // that defines them is not part of this model).
  const SPR_DSISR: bv64 := 18
  const SPR_DAR: bv64 := 19
  const SPR_DEC: bv64 := 22
  const SPR_SRR0: bv64 := 26
  const SPR_SRR1: bv64 := 27
  const SPR_CFAR: bv64 := 28
  const SPR_LR: bv64 := 8
  const SPR_CTR: bv64 := 9
  const SPR_PIDR: bv64 := 48
  const SPR_FSCR: bv64 := 153
  const SPR_HFSCR: bv64 := 190
  const SPR_TB: bv64 := 268
  const SPR_SPRG0: bv64 := 272
  const SPR_SPRG1: bv64 := 273
  const SPR_SPRG2: bv64 := 274
  const SPR_SPRG3: bv64 := 275
  const SPR_HSPRG0: bv64 := 304
  const SPR_HSPRG1: bv64 := 305
  const SPR_HDSISR: bv64 := 306
  const SPR_HDAR: bv64 := 307
  const SPR_HDEC: bv64 := 310
  const SPR_HSRR0: bv64 := 314
  const SPR_HSRR1: bv64 := 315
  const SPR_LPCR: bv64 := 318
  const SPR_LPIDR: bv64 := 319
  const SPR_HEIR: bv64 := 339
  const SPR_PTCR: bv64 := 464
  const SPR_PPR: bv64 := 896
  const SPR_HID: bv64 := 1008
  /** The target address register, which ram_getregs names by number. */
  const SPR_TAR: bv64 := 815

  /** Trace t extends t0 by injections only (at least one). */
  ghost predicate InjectsOnly(t0: seq<Event>, t: seq<Event>)
  {
    |t0| < |t| && t[..|t0|] == t0 && forall k | |t0| <= k < |t| :: t[k].Inject?
  }

  /**
   * Run ops with initial results res through RamInstructions on a fresh
   * array: the outcome is Ram's, and a successful run made all |ops| + 4
   * injections, opcode k fed res[k] with results[k] its scratch.
   */
  method Run(thread: Thread, ops: seq<bv64>, res: seq<bv64>) returns (rc: int, results: seq<bv64>)
    requires |res| == |ops|
    modifies thread`trace, thread`ramIsSetup
    ensures var o := Ram(thread.backend, old(thread.ramIsSetup), old(thread.trace), ops, res);
            rc == o.rc && thread.trace == o.trace && results == o.results
    ensures thread.ramIsSetup == old(thread.ramIsSetup)
    ensures var c := Calls(thread.backend, old(thread.ramIsSetup), old(thread.trace), ops, res);
            rc == 0 ==>
              |c| == |ops| + 4 && (forall p | 0 <= p < |c| :: c[p].rc == 0)
              && forall p | 2 <= p < |ops| + 2 ::
                   c[p].opcode == ops[p - 2] && c[p].fed == res[p - 2] && results[p - 2] == c[p].got
    ensures old(thread.ramIsSetup) ==> InjectsOnly(old(thread.trace), thread.trace)
  {
    ghost var b, s0, t0 := thread.backend, thread.ramIsSetup, thread.trace;
    var a := new bv64[|res|](i requires 0 <= i < |res| => res[i]);
    assert a[..] == res;
    rc := RamInstructions(thread, ops, a);
    results := a[..];
    RamSucceeded(b, s0, t0, ops, res);
    RamOwnsSession(b, s0, t0, ops, res);
    ghost var c := Calls(b, s0, t0, ops, res);
    if rc == 0 {
      forall p | 2 <= p < |ops| + 2
        ensures c[p].opcode == ops[p - 2] && c[p].fed == res[p - 2] && results[p - 2] == c[p].got
      {
        assert c[2 + (p - 2)] == c[p];
      }
    }
  }

  /** ram_getgpr: copy GPR gpr to the scratch register and read it back. */
  method RamGetGpr(thread: Thread, gpr: bv64, prior: bv64) returns (rc: int, value: bv64)
    modifies thread`trace, thread`ramIsSetup
    ensures var o := Ram(thread.backend, old(thread.ramIsSetup), old(thread.trace), [Mtspr(SCRATCH_SPR, gpr)], [0]);
            rc == o.rc && thread.trace == o.trace && value == (if rc == 0 then o.results[0] else prior)
    ensures thread.ramIsSetup == old(thread.ramIsSetup)
    ensures old(thread.ramIsSetup) ==> InjectsOnly(old(thread.trace), thread.trace)
    ensures var c := Calls(thread.backend, old(thread.ramIsSetup), old(thread.trace), [Mtspr(SCRATCH_SPR, gpr)], [0]);
            rc == 0 ==> |c| == 5 && c[2].opcode == Mtspr(SCRATCH_SPR, gpr) && value == c[2].got
  {
    var opcodes := [Mtspr(SCRATCH_SPR, gpr)];
    var results;
    rc, results := Run(thread, opcodes, [0]);
    if rc != 0 {
      return rc, prior;
    }
    value := results[0];
  }

  /** ram_putgpr: feed value through the scratch register into GPR gpr. */
  method RamPutGpr(thread: Thread, gpr: bv64, value: bv64) returns (rc: int)
    modifies thread`trace, thread`ramIsSetup
    ensures var o := Ram(thread.backend, old(thread.ramIsSetup), old(thread.trace), [Mfspr(gpr, SCRATCH_SPR)], [value]);
            rc == o.rc && thread.trace == o.trace
    ensures thread.ramIsSetup == old(thread.ramIsSetup)
    ensures old(thread.ramIsSetup) ==> InjectsOnly(old(thread.trace), thread.trace)
    ensures var c := Calls(thread.backend, old(thread.ramIsSetup), old(thread.trace), [Mfspr(gpr, SCRATCH_SPR)], [value]);
            rc == 0 ==> |c| == 5 && c[2].opcode == Mfspr(gpr, SCRATCH_SPR) && c[2].fed == value
  {
    var opcodes := [Mfspr(gpr, SCRATCH_SPR)];
    var results;
    rc, results := Run(thread, opcodes, [value]);
  }

  /** ram_getnia: move the NIA into r0, then r0 into the scratch register. */
  method RamGetNia(thread: Thread, prior: bv64) returns (rc: int, value: bv64)
    modifies thread`trace, thread`ramIsSetup
    ensures var o := Ram(thread.backend, old(thread.ramIsSetup), old(thread.trace), [Mfnia(0), Mtspr(SCRATCH_SPR, 0)], [0, 0]);
            rc == o.rc && thread.trace == o.trace && value == (if rc == 0 then o.results[1] else prior)
    ensures thread.ramIsSetup == old(thread.ramIsSetup)
    ensures old(thread.ramIsSetup) ==> InjectsOnly(old(thread.trace), thread.trace)
    ensures var c := Calls(thread.backend, old(thread.ramIsSetup), old(thread.trace), [Mfnia(0), Mtspr(SCRATCH_SPR, 0)], [0, 0]);
            rc == 0 ==> |c| == 6 && c[2].opcode == Mfnia(0) && c[3].opcode == Mtspr(SCRATCH_SPR, 0) && value == c[3].got
  {
    var opcodes := [Mfnia(0), Mtspr(SCRATCH_SPR, 0)];
    var results;
    rc, results := Run(thread, opcodes, [0, 0]);
    if rc != 0 {
      return rc, prior;
    }
    value := results[1];
  }

  /** ram_putnia: save LR in r1, load value into r0, move it to LR and from
      there to the NIA, then restore LR from r1. */
  method RamPutNia(thread: Thread, value: bv64) returns (rc: int)
    modifies thread`trace, thread`ramIsSetup
    ensures var o := Ram(thread.backend, old(thread.ramIsSetup), old(thread.trace), [Mfspr(1, 8), Mfspr(0, SCRATCH_SPR), Mtspr(8, 0), Mtnia(0), Mtspr(8, 1)], [0, value, 0, 0, 0]);
            rc == o.rc && thread.trace == o.trace
    ensures thread.ramIsSetup == old(thread.ramIsSetup)
    ensures old(thread.ramIsSetup) ==> InjectsOnly(old(thread.trace), thread.trace)
    ensures var c := Calls(thread.backend, old(thread.ramIsSetup), old(thread.trace), [Mfspr(1, 8), Mfspr(0, SCRATCH_SPR), Mtspr(8, 0), Mtnia(0), Mtspr(8, 1)], [0, value, 0, 0, 0]);
            rc == 0 ==>
              |c| == 9 && c[2].opcode == Mfspr(1, 8) && c[3].opcode == Mfspr(0, SCRATCH_SPR) && c[4].opcode == Mtspr(8, 0)
              && c[5].opcode == Mtnia(0) && c[6].opcode == Mtspr(8, 1) && c[3].fed == value
  {
    var opcodes := [Mfspr(1, 8), Mfspr(0, SCRATCH_SPR), Mtspr(8, 0), Mtnia(0), Mtspr(8, 1)];
    var results;
    rc, results := Run(thread, opcodes, [0, value, 0, 0, 0]);
  }

  /** ram_getspr: move SPR spr into r0, then r0 into the scratch register. */
  method RamGetSpr(thread: Thread, spr: bv64, prior: bv64) returns (rc: int, value: bv64)
    modifies thread`trace, thread`ramIsSetup
    ensures var o := Ram(thread.backend, old(thread.ramIsSetup), old(thread.trace), [Mfspr(0, spr), Mtspr(SCRATCH_SPR, 0)], [0, 0]);
            rc == o.rc && thread.trace == o.trace && value == (if rc == 0 then o.results[1] else prior)
    ensures thread.ramIsSetup == old(thread.ramIsSetup)
    ensures old(thread.ramIsSetup) ==> InjectsOnly(old(thread.trace), thread.trace)
    ensures var c := Calls(thread.backend, old(thread.ramIsSetup), old(thread.trace), [Mfspr(0, spr), Mtspr(SCRATCH_SPR, 0)], [0, 0]);
            rc == 0 ==> |c| == 6 && c[2].opcode == Mfspr(0, spr) && c[3].opcode == Mtspr(SCRATCH_SPR, 0) && value == c[3].got
  {
    var opcodes := [Mfspr(0, spr), Mtspr(SCRATCH_SPR, 0)];
    var results;
    rc, results := Run(thread, opcodes, [0, 0]);
    if rc != 0 {
      return rc, prior;
    }
    value := results[1];
  }

  /** ram_putspr: load value into r0 through the scratch register, then r0 into SPR spr. */
  method RamPutSpr(thread: Thread, spr: bv64, value: bv64) returns (rc: int)
    modifies thread`trace, thread`ramIsSetup
    ensures var o := Ram(thread.backend, old(thread.ramIsSetup), old(thread.trace), [Mfspr(0, SCRATCH_SPR), Mtspr(spr, 0)], [value, 0]);
            rc == o.rc && thread.trace == o.trace
    ensures thread.ramIsSetup == old(thread.ramIsSetup)
    ensures old(thread.ramIsSetup) ==> InjectsOnly(old(thread.trace), thread.trace)
    ensures var c := Calls(thread.backend, old(thread.ramIsSetup), old(thread.trace), [Mfspr(0, SCRATCH_SPR), Mtspr(spr, 0)], [value, 0]);
            rc == 0 ==> |c| == 6 && c[2].opcode == Mfspr(0, SCRATCH_SPR) && c[3].opcode == Mtspr(spr, 0) && c[2].fed == value
  {
    var opcodes := [Mfspr(0, SCRATCH_SPR), Mtspr(spr, 0)];
    var results;
    rc, results := Run(thread, opcodes, [value, 0]);
  }

  /** ram_getmsr: move the MSR into r0, then r0 into the scratch register. */
  method RamGetMsr(thread: Thread, prior: bv64) returns (rc: int, value: bv64)
    modifies thread`trace, thread`ramIsSetup
    ensures var o := Ram(thread.backend, old(thread.ramIsSetup), old(thread.trace), [Mfmsr(0), Mtspr(SCRATCH_SPR, 0)], [0, 0]);
            rc == o.rc && thread.trace == o.trace && value == (if rc == 0 then o.results[1] else prior)
    ensures thread.ramIsSetup == old(thread.ramIsSetup)
    ensures old(thread.ramIsSetup) ==> InjectsOnly(old(thread.trace), thread.trace)
    ensures var c := Calls(thread.backend, old(thread.ramIsSetup), old(thread.trace), [Mfmsr(0), Mtspr(SCRATCH_SPR, 0)], [0, 0]);
            rc == 0 ==> |c| == 6 && c[2].opcode == Mfmsr(0) && c[3].opcode == Mtspr(SCRATCH_SPR, 0) && value == c[3].got
  {
    var opcodes := [Mfmsr(0), Mtspr(SCRATCH_SPR, 0)];
    var results;
    rc, results := Run(thread, opcodes, [0, 0]);
    if rc != 0 {
      return rc, prior;
    }
    value := results[1];
  }

  /** ram_putmsr: load value into r0 through the scratch register, then r0 into the MSR. */
  method RamPutMsr(thread: Thread, value: bv64) returns (rc: int)
    modifies thread`trace, thread`ramIsSetup
    ensures var o := Ram(thread.backend, old(thread.ramIsSetup), old(thread.trace), [Mfspr(0, SCRATCH_SPR), Mtmsr(0)], [value, 0]);
            rc == o.rc && thread.trace == o.trace
    ensures thread.ramIsSetup == old(thread.ramIsSetup)
    ensures old(thread.ramIsSetup) ==> InjectsOnly(old(thread.trace), thread.trace)
    ensures var c := Calls(thread.backend, old(thread.ramIsSetup), old(thread.trace), [Mfspr(0, SCRATCH_SPR), Mtmsr(0)], [value, 0]);
            rc == 0 ==> |c| == 6 && c[2].opcode == Mfspr(0, SCRATCH_SPR) && c[3].opcode == Mtmsr(0) && c[2].fed == value
  {
    var opcodes := [Mfspr(0, SCRATCH_SPR), Mtmsr(0)];
    var results;
    rc, results := Run(thread, opcodes, [value, 0]);
  }

  /** ram_getmem: load r0 (fed a marker value) and r1 (fed addr) from the
      scratch register, ld r0 from 0(r1), and move r0 to the scratch register. */
  method RamGetMem(thread: Thread, addr: bv64, prior: bv64) returns (rc: int, value: bv64)
    modifies thread`trace, thread`ramIsSetup
    ensures var o := Ram(thread.backend, old(thread.ramIsSetup), old(thread.trace), [Mfspr(0, SCRATCH_SPR), Mfspr(1, SCRATCH_SPR), Ld(0, 0, 1), Mtspr(SCRATCH_SPR, 0)], [0xdead_dead_dead_dead, addr, 0, 0]);
            rc == o.rc && thread.trace == o.trace && value == (if rc == 0 then o.results[3] else prior)
    ensures thread.ramIsSetup == old(thread.ramIsSetup)
    ensures old(thread.ramIsSetup) ==> InjectsOnly(old(thread.trace), thread.trace)
    ensures var c := Calls(thread.backend, old(thread.ramIsSetup), old(thread.trace), [Mfspr(0, SCRATCH_SPR), Mfspr(1, SCRATCH_SPR), Ld(0, 0, 1), Mtspr(SCRATCH_SPR, 0)], [0xdead_dead_dead_dead, addr, 0, 0]);
            rc == 0 ==>
              |c| == 8 && c[2].opcode == Mfspr(0, SCRATCH_SPR) && c[2].fed == 0xdead_dead_dead_dead
              && c[3].opcode == Mfspr(1, SCRATCH_SPR) && c[3].fed == addr && c[4].opcode == Ld(0, 0, 1)
              && c[5].opcode == Mtspr(SCRATCH_SPR, 0) && value == c[5].got
  {
    var opcodes := [Mfspr(0, SCRATCH_SPR), Mfspr(1, SCRATCH_SPR), Ld(0, 0, 1), Mtspr(SCRATCH_SPR, 0)];
    var results;
    rc, results := Run(thread, opcodes, [0xdead_dead_dead_dead, addr, 0, 0]);
    if rc != 0 {
      return rc, prior;
    }
    value := results[3];
  }

  // ---------------------------------------------------------------------
  // The condition register.

  /** ram_getcr's opcodes: for each field k, mfocrf r0 (FXM bit k), then
      mtspr 277, r0. */
  function GetCrOpcodes(): (ops: seq<bv64>)
    ensures |ops| == 16
  {
    [Mfocrf(0, 0), Mtspr(SCRATCH_SPR, 0), Mfocrf(0, 1), Mtspr(SCRATCH_SPR, 0),
     Mfocrf(0, 2), Mtspr(SCRATCH_SPR, 0), Mfocrf(0, 3), Mtspr(SCRATCH_SPR, 0),
     Mfocrf(0, 4), Mtspr(SCRATCH_SPR, 0), Mfocrf(0, 5), Mtspr(SCRATCH_SPR, 0),
     Mfocrf(0, 6), Mtspr(SCRATCH_SPR, 0), Mfocrf(0, 7), Mtspr(SCRATCH_SPR, 0)]
  }

  /** ram_getcr's results[]: sixteen zeros. */
  function GetCrResults(): (res: seq<bv64>)
    ensures |res| == 16
  {
    seq(16, _ => 0)
  }

  /** Entries 2k and 2k + 1 of ram_getcr's opcodes. */
  lemma GetCrOpcodesAt(k: nat)
    requires k < 8
    ensures GetCrOpcodes()[2 * k] == Mfocrf(0, k as bv64)
    ensures GetCrOpcodes()[2 * k + 1] == Mtspr(SCRATCH_SPR, 0)
  {
    if k == 0 {} else if k == 1 {} else if k == 2 {} else if k == 3 {}
    else if k == 4 {} else if k == 5 {} else if k == 6 {} else {}
  }

  /**
   * ram_getcr: read the eight CR fields one at a time and assemble them.
   * The session injects GetCrOpcodes in order (GetCrOpcodesAt: mfocrf for
   * field k, then mtspr 277), and the answer is CrFields of the scratch
   * values: nibble k of it is nibble k of what the mtspr after field k's
   * mfocrf returned (GetCrReadsFields); the other bits are dropped.
   */
  method RamGetCr(thread: Thread, prior: bv32) returns (rc: int, value: bv32)
    modifies thread`trace, thread`ramIsSetup
    ensures var o := Ram(thread.backend, old(thread.ramIsSetup), old(thread.trace), GetCrOpcodes(), GetCrResults());
            rc == o.rc && thread.trace == o.trace && value == (if rc == 0 then CrFields(o.results, 8) else prior)
    ensures thread.ramIsSetup == old(thread.ramIsSetup)
    ensures old(thread.ramIsSetup) ==> InjectsOnly(old(thread.trace), thread.trace)
    ensures var c := Calls(thread.backend, old(thread.ramIsSetup), old(thread.trace), GetCrOpcodes(), GetCrResults());
            rc == 0 ==>
              |c| == 20
              && (forall p | 2 <= p < 18 :: c[p].opcode == GetCrOpcodes()[p - 2])
  {
    ghost var b, s0, t0 := thread.backend, thread.ramIsSetup, thread.trace;
    var opcodes := GetCrOpcodes();
    var results;
    rc, results := Run(thread, opcodes, GetCrResults());
    if rc != 0 {
      return rc, prior;
    }
    value := AssembleCr(results);
  }

  /**
   * What a successful ram_getcr session means for its hook calls c: nibble
   * k of the assembled CR is nibble k of what the mtspr injected after the
   * mfocrf for field k returned.
   */
  lemma GetCrReadsFields(b: Backend, isSetup: bool, t0: seq<Event>)
    ensures var o := Ram(b, isSetup, t0, GetCrOpcodes(), GetCrResults());
            var c := Calls(b, isSetup, t0, GetCrOpcodes(), GetCrResults());
            o.rc == 0 ==>
              |c| == 20
              && forall k | 0 <= k < 8 ::
                   c[3 + 2 * k].Inject?
                   && CrFields(o.results, 8) & NibbleMask(k) == Low32(c[3 + 2 * k].got) & NibbleMask(k)
  {
    var o := Ram(b, isSetup, t0, GetCrOpcodes(), GetCrResults());
    var c := Calls(b, isSetup, t0, GetCrOpcodes(), GetCrResults());
    RamSucceeded(b, isSetup, t0, GetCrOpcodes(), GetCrResults());
    if o.rc == 0 {
      forall k | 0 <= k < 8
        ensures c[3 + 2 * k].Inject?
                && CrFields(o.results, 8) & NibbleMask(k) == Low32(c[3 + 2 * k].got) & NibbleMask(k)
      {
        CrNibble(o.results, k);
        assert o.results[2 * k + 1] == c[2 + (2 * k + 1)].got;
      }
    }
  }

  /** ram_putcr's opcodes: mfspr r0, 277, then mtocrf for fields 0 to 7
      from r0. */
  function PutCrOpcodes(): (ops: seq<bv64>)
    ensures |ops| == 9
  {
    [Mfspr(0, SCRATCH_SPR)] + seq(8, k requires 0 <= k < 8 => Mtocrf(k as bv64, 0))
  }

  /** The results[] array ram_putcr declares: one slot, holding value. */
  function PutCrResultsAsWritten(value: bv32): seq<bv64>
  {
    [value as bv64]
  }

  /**
   * The array ram_putcr hands over is shorter than its opcode list, so the
   * call breaks ram_instructions' requirement that results[] and opcodes[]
   * have the same length.  What ram_instructions does with ram_putcr's
   * opcodes, over any array res of the required length that starts with
   * value: a successful run feeds every slot from 1 on, which the one-slot
   * array does not have, to the mtocrf injected there and writes that
   * injection's answer back into it.
   */
  lemma PutCrOverrun(b: Backend, isSetup: bool, t0: seq<Event>, value: bv32, res: seq<bv64>)
    requires |res| == |PutCrOpcodes()| && res[0] == value as bv64
    ensures |PutCrResultsAsWritten(value)| != |PutCrOpcodes()|
    ensures var o := Ram(b, isSetup, t0, PutCrOpcodes(), res);
            var c := Calls(b, isSetup, t0, PutCrOpcodes(), res);
            o.rc == 0 ==>
              |c| == |PutCrOpcodes()| + 4
              && forall k | |PutCrResultsAsWritten(value)| <= k < |PutCrOpcodes()| ::
                c[2 + k].opcode == Mtocrf((k - 1) as bv64, 0) && c[2 + k].fed == res[k] && o.results[k] == c[2 + k].got
  {
    RamSucceeded(b, isSetup, t0, PutCrOpcodes(), res);
    forall k | 1 <= k < 9 ensures PutCrOpcodes()[k] == Mtocrf((k - 1) as bv64, 0) {
      PutCrOpcodesAt(k - 1);
    }
  }

  /** The results[] ram_putcr evidently means: value, then a zero for each
      of the eight mtocrf. */
  function PutCrResults(value: bv32): (res: seq<bv64>)
    ensures |res| == |PutCrOpcodes()| && res[0] == value as bv64
  {
    [value as bv64, 0, 0, 0, 0, 0, 0, 0, 0]
  }

  /** Entry k + 1 of ram_putcr's opcodes is the mtocrf for field k. */
  lemma PutCrOpcodesAt(k: nat)
    requires k < 8
    ensures PutCrOpcodes()[k + 1] == Mtocrf(k as bv64, 0)
  {
  }

  /**
   * ram_putcr, with a results[] array as long as its opcode list: value is
   * fed to mfspr r0, 277, and the eight mtocrf follow, one per CR field
   * (PutCrOpcodesAt).
   */
  method RamPutCr(thread: Thread, value: bv32) returns (rc: int)
    modifies thread`trace, thread`ramIsSetup
    ensures var o := Ram(thread.backend, old(thread.ramIsSetup), old(thread.trace), PutCrOpcodes(), PutCrResults(value));
            rc == o.rc && thread.trace == o.trace
    ensures thread.ramIsSetup == old(thread.ramIsSetup)
    ensures old(thread.ramIsSetup) ==> InjectsOnly(old(thread.trace), thread.trace)
    ensures var c := Calls(thread.backend, old(thread.ramIsSetup), old(thread.trace), PutCrOpcodes(), PutCrResults(value));
            rc == 0 ==>
              |c| == 13 && c[2].opcode == Mfspr(0, SCRATCH_SPR) && c[2].fed == value as bv64
              && forall p | 2 <= p < 11 :: c[p].opcode == PutCrOpcodes()[p - 2]
  {
    var opcodes := PutCrOpcodes();
    var results;
    rc, results := Run(thread, opcodes, PutCrResults(value));
  }
}
