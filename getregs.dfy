/**
 * ram_getregs of libpdbg/chip.c: one injection session in which every
 * register of a thread is read through the accessors of Registers.
 */
module Getregs {
  import opened Hwunit
  import opened CondReg
  import opened Opcodes
  import opened RamEngine
  import opened Registers

  /**
   * struct thread_regs, its fields grouped by the phase of ram_getregs that
   * reads them.  hdsisr, heir and dsisr are the 32-bit fields that
   * ram_getregs fills through a 64-bit temporary; cr is the 32-bit image
   * ram_getcr assembles.
   */
  datatype ThreadRegs = ThreadRegs(front: FrontRegs, xer: bv64, gprs: seq<bv64>, hyp: HypRegs, sup: SupRegs)

  datatype FrontRegs = FrontRegs(nia: bv64, cfar: bv64, msr: bv64, lr: bv64, ctr: bv64, tar: bv64, cr: bv32)

  datatype HypRegs = HypRegs(
    lpcr: bv64, ptcr: bv64, lpidr: bv64, pidr: bv64, hfscr: bv64,
    hdsisr: bv32, hdar: bv64, heir: bv32, hid: bv64,
    hsrr0: bv64, hsrr1: bv64, hdec: bv64, hsprg0: bv64, hsprg1: bv64, fscr: bv64)

  datatype SupRegs = SupRegs(
    dsisr: bv32, dar: bv64, srr0: bv64, srr1: bv64, dec: bv64, tb: bv64,
    sprg0: bv64, sprg1: bv64, sprg2: bv64, sprg3: bv64, ppr: bv64)

  // Inside ram_getregs' session each accessor finds the session open, so it
  // makes injections only and leaves the session open.  The wrappers below
  // restate the accessors' contracts for that case, in terms of the calls c
  // the accessor appends: when every injection succeeds they are the
  // accessor's opcodes between the r1/r0 saves and restores and the value is
  // the answer of the mtspr that copies it out; otherwise the caller's field
  // (prior) is left as it was.

  /** All calls in c succeeded. */
  ghost predicate AllOk(c: seq<Event>)
  {
    forall p | 0 <= p < |c| :: c[p].rc == 0
  }

  /** The calls made after t0 in trace t (t extends t0). */
  ghost function Since(t0: seq<Event>, t: seq<Event>): seq<Event>
    requires |t0| <= |t|
  {
    t[|t0|..]
  }

  /** In session, ram_instructions returns 0 exactly when every call succeeded,
      and the trace grows by exactly its calls. */
  lemma InSession(b: Backend, t0: seq<Event>, ops: seq<bv64>, res: seq<bv64>)
    requires |res| == |ops|
    ensures var o := Ram(b, true, t0, ops, res);
            var c := Calls(b, true, t0, ops, res);
            |t0| <= |o.trace| && Since(t0, o.trace) == c && (o.rc == 0 <==> AllOk(c))
  {
    RamIsSequence(b, true, t0, ops, res);
    RamReturnCode(b, true, t0, ops, res);
    var o := Ram(b, true, t0, ops, res);
    var c := Calls(b, true, t0, ops, res);
    assert o.trace == t0 + c;
    assert Since(t0, o.trace) == c;
  }

  /** Every call in c is an injection. */
  ghost predicate Injected(c: seq<Event>)
  {
    forall k | 0 <= k < |c| :: c[k].Inject?
  }

  /** What an injection answered (0 for any other call). */
  ghost function Got(e: Event): bv64
  {
    if e.Inject? then e.got else 0
  }

  /**
   * The value an in-session accessor leaves in its out-parameter, whose
   * calls are c: the answer of call at when every call succeeded, and the
   * caller's prior value otherwise.
   */
  ghost function ReadValue(c: seq<Event>, at: nat, prior: bv64): bv64
  {
    if AllOk(c) && at < |c| then Got(c[at]) else prior
  }

  /** The calls of a successful in-session ram_getspr: the mfspr of spr and
      the mtspr that copies it out, between the saves and restores. */
  ghost predicate SprShape(c: seq<Event>, spr: bv64)
  {
    AllOk(c) ==>
      |c| == 6 && c[2].Inject? && c[3].Inject? && c[2].opcode == Mfspr(0, spr) && c[3].opcode == Mtspr(SCRATCH_SPR, 0)
  }

  /** The calls of a successful in-session ram_getgpr: one mtspr of the gpr. */
  ghost predicate GprShape(c: seq<Event>, gpr: bv64)
  {
    AllOk(c) ==> |c| == 5 && c[2].Inject? && c[2].opcode == Mtspr(SCRATCH_SPR, gpr)
  }

  /** The calls of a successful in-session ram_getnia. */
  ghost predicate NiaShape(c: seq<Event>)
  {
    AllOk(c) ==> |c| == 6 && c[2].Inject? && c[3].Inject? && c[2].opcode == Mfnia(0) && c[3].opcode == Mtspr(SCRATCH_SPR, 0)
  }

  /** The calls of a successful in-session ram_getmsr. */
  ghost predicate MsrShape(c: seq<Event>)
  {
    AllOk(c) ==> |c| == 6 && c[2].Inject? && c[3].Inject? && c[2].opcode == Mfmsr(0) && c[3].opcode == Mtspr(SCRATCH_SPR, 0)
  }

  /** The calls of a successful in-session ram_getcr: its 16 opcodes between
      the saves and restores. */
  ghost predicate CrShape(c: seq<Event>)
  {
    AllOk(c) ==> |c| == 20 && forall p | 2 <= p < 18 :: c[p].Inject? && c[p].opcode == GetCrOpcodes()[p - 2]
  }

  /**
   * The CR an in-session ram_getcr leaves, whose calls are c: when every
   * call succeeded, the eight fields the mtsprs after the mfocrfs answered,
   * each in its own nibble; otherwise the caller's prior value.
   */
  ghost function CrValue(c: seq<Event>, prior: bv32): bv32
  {
    if AllOk(c) && |c| == 20 then
      Nibbles(Low32(Got(c[3])), Low32(Got(c[5])), Low32(Got(c[7])), Low32(Got(c[9])),
              Low32(Got(c[11])), Low32(Got(c[13])), Low32(Got(c[15])), Low32(Got(c[17])))
    else prior
  }

  /** Field k of the CR ram_getcr leaves is field k of the answer of call
      3 + 2k, and the other fields do not disturb it. */
  lemma CrValueField(c: seq<Event>, prior: bv32, k: nat)
    requires AllOk(c) && |c| == 20 && k < 8
    ensures CrValue(c, prior) & NibbleMask(k) == Low32(Got(c[3 + 2 * k])) & NibbleMask(k)
  {
    NibblesKept(Low32(Got(c[3])), Low32(Got(c[5])), Low32(Got(c[7])), Low32(Got(c[9])),
                Low32(Got(c[11])), Low32(Got(c[13])), Low32(Got(c[15])), Low32(Got(c[17])), k);
    if k == 0 {} else if k == 1 {} else if k == 2 {} else if k == 3 {}
    else if k == 4 {} else if k == 5 {} else if k == 6 {} else {}
  }

  /** A call that made injections only extends the calls acc made so far
      after t0 by its own calls. */
  lemma Grow(t0: seq<Event>, acc: seq<Event>, t: seq<Event>, t': seq<Event>)
    requires t == t0 + acc && InjectsOnly(t, t')
    ensures t' == t0 + (acc + Since(t, t')) && Injected(Since(t, t'))
  {
    var c := Since(t, t');
    assert t' == t + c;
    forall k | 0 <= k < |c| ensures c[k].Inject? {
      assert c[k] == t'[|t| + k];
    }
  }

  // Each wrapper below runs one accessor inside the open session.  It is
  // given the calls acc made so far after t0 in the current phase of
  // ram_getregs, and returns the calls c it made itself: injections only,
  // of the accessor's shape when they all succeed, and the value is what
  // they read, or prior when one of them failed.

  method SessionGetNia(thread: Thread, prior: bv64, ghost t0: seq<Event>, ghost acc: seq<Event>) returns (value: bv64, ghost c: seq<Event>)
    requires thread.ramIsSetup && thread.trace == t0 + acc
    modifies thread`trace, thread`ramIsSetup
    ensures thread.ramIsSetup && thread.trace == t0 + (acc + c) && Injected(c)
    ensures NiaShape(c) && value == ReadValue(c, 3, prior)
  {
    ghost var t := thread.trace;
    InSession(thread.backend, t, [Mfnia(0), Mtspr(SCRATCH_SPR, 0)], [0, 0]);
    var _, v := RamGetNia(thread, prior);
    value, c := v, Since(t, thread.trace);
    Grow(t0, acc, t, thread.trace);
  }

  method SessionGetMsr(thread: Thread, prior: bv64, ghost t0: seq<Event>, ghost acc: seq<Event>) returns (value: bv64, ghost c: seq<Event>)
    requires thread.ramIsSetup && thread.trace == t0 + acc
    modifies thread`trace, thread`ramIsSetup
    ensures thread.ramIsSetup && thread.trace == t0 + (acc + c) && Injected(c)
    ensures MsrShape(c) && value == ReadValue(c, 3, prior)
  {
    ghost var t := thread.trace;
    InSession(thread.backend, t, [Mfmsr(0), Mtspr(SCRATCH_SPR, 0)], [0, 0]);
    var _, v := RamGetMsr(thread, prior);
    value, c := v, Since(t, thread.trace);
    Grow(t0, acc, t, thread.trace);
  }

  method SessionGetSpr(thread: Thread, spr: bv64, prior: bv64, ghost t0: seq<Event>, ghost acc: seq<Event>) returns (value: bv64, ghost c: seq<Event>)
    requires thread.ramIsSetup && thread.trace == t0 + acc
    modifies thread`trace, thread`ramIsSetup
    ensures thread.ramIsSetup && thread.trace == t0 + (acc + c) && Injected(c)
    ensures SprShape(c, spr) && value == ReadValue(c, 3, prior)
  {
    ghost var t := thread.trace;
    InSession(thread.backend, t, [Mfspr(0, spr), Mtspr(SCRATCH_SPR, 0)], [0, 0]);
    var _, v := RamGetSpr(thread, spr, prior);
    value, c := v, Since(t, thread.trace);
    Grow(t0, acc, t, thread.trace);
  }

  method SessionGetGpr(thread: Thread, gpr: bv64, prior: bv64, ghost t0: seq<Event>, ghost acc: seq<Event>) returns (value: bv64, ghost c: seq<Event>)
    requires thread.ramIsSetup && thread.trace == t0 + acc
    modifies thread`trace, thread`ramIsSetup
    ensures thread.ramIsSetup && thread.trace == t0 + (acc + c) && Injected(c)
    ensures GprShape(c, gpr) && value == ReadValue(c, 2, prior)
  {
    ghost var t := thread.trace;
    InSession(thread.backend, t, [Mtspr(SCRATCH_SPR, gpr)], [0]);
    var _, v := RamGetGpr(thread, gpr, prior);
    value, c := v, Since(t, thread.trace);
    Grow(t0, acc, t, thread.trace);
  }

  method SessionGetCr(thread: Thread, prior: bv32, ghost t0: seq<Event>, ghost acc: seq<Event>) returns (value: bv32, ghost c: seq<Event>)
    requires thread.ramIsSetup && thread.trace == t0 + acc
    modifies thread`trace, thread`ramIsSetup
    ensures thread.ramIsSetup && thread.trace == t0 + (acc + c) && Injected(c)
    ensures CrShape(c) && value == CrValue(c, prior)
  {
    ghost var b, t := thread.backend, thread.trace;
    InSession(b, t, GetCrOpcodes(), GetCrResults());
    RamSucceeded(b, true, t, GetCrOpcodes(), GetCrResults());
    ghost var o := Ram(b, true, t, GetCrOpcodes(), GetCrResults());
    CrFieldsAll(o.results);
    var _, v := RamGetCr(thread, prior);
    value, c := v, Since(t, thread.trace);
    Grow(t0, acc, t, thread.trace);
  }

  /** The calls c of ram_getregs' session: injections, save for one getxer
      call at position x. */
  ghost predicate OneXer(c: seq<Event>, x: int)
  {
    0 <= x < |c| && c[x].GetXer? && forall k | 0 <= k < |c| && k != x :: c[k].Inject?
  }

  /** Injections, the getxer call e, injections. */
  lemma XerBetween(f: seq<Event>, e: Event, rest: seq<Event>)
    requires Injected(f) && Injected(rest) && e.GetXer?
    ensures OneXer(f + [e] + rest, |f|)
  {
    var c := f + [e] + rest;
    forall k | 0 <= k < |c| && k != |f| ensures c[k].Inject? {
      if k < |f| {
        assert c[k] == f[k];
      } else {
        assert c[k] == rest[k - |f| - 1];
      }
    }
  }

  /** Calls after calls: both injections only. */
  lemma InjectedConcat(x: seq<Event>, y: seq<Event>)
    requires Injected(x) && Injected(y)
    ensures Injected(x + y)
  {
    forall k | 0 <= k < |x + y| ensures (x + y)[k].Inject? {
      if k >= |x| {
        assert (x + y)[k] == y[k - |x|];
      }
    }
  }

  /** The trace after five runs of calls, one after the other. */
  lemma Regroup(t0: seq<Event>, a: seq<Event>, b: seq<Event>, c: seq<Event>, d: seq<Event>, e: seq<Event>)
    ensures t0 + a + b + c + d + e == t0 + (a + b + (c + d + e))
  {
  }

  /** The calls of consecutive accessor calls, one segment per call, in order. */
  ghost function Flatten(segs: seq<seq<Event>>): seq<Event>
  {
    if segs == [] then [] else Flatten(segs[..|segs| - 1]) + segs[|segs| - 1]
  }

  // ram_getregs reads its registers in one straight run of accessor calls,
  // each given the caller's field to leave alone on failure; the run is cut
  // into the phases below, each keeping the C's order, so that each can be
  // checked on its own.  Each phase returns its own fields of the register
  // set and the calls of each of its reads.

  /** The calls of the reads of nia, cfar, msr, lr, ctr, tar and cr. */
  datatype FrontCalls = FrontCalls(nia: seq<Event>, cfar: seq<Event>, msr: seq<Event>, lr: seq<Event>, ctr: seq<Event>, tar: seq<Event>, cr: seq<Event>)

  ghost function FrontFlat(f: FrontCalls): seq<Event>
  {
    f.nia + f.cfar + f.msr + f.lr + f.ctr + f.tar + f.cr
  }

  /** Every read of the phase made injections only. */
  ghost predicate FrontInjected(f: FrontCalls)
  {
    Injected(f.nia) && Injected(f.cfar) && Injected(f.msr) && Injected(f.lr) && Injected(f.ctr)
    && Injected(f.tar) && Injected(f.cr)
  }

  lemma FrontFlatInjected(f: FrontCalls)
    requires FrontInjected(f)
    ensures Injected(FrontFlat(f))
  {
    InjectedConcat(f.nia, f.cfar);
    InjectedConcat(f.nia + f.cfar, f.msr);
    InjectedConcat(f.nia + f.cfar + f.msr, f.lr);
    InjectedConcat(f.nia + f.cfar + f.msr + f.lr, f.ctr);
    InjectedConcat(f.nia + f.cfar + f.msr + f.lr + f.ctr, f.tar);
    InjectedConcat(f.nia + f.cfar + f.msr + f.lr + f.ctr + f.tar, f.cr);
  }

  /** Every read of the phase has its accessor's shape. */
  ghost predicate FrontShape(f: FrontCalls)
  {
    NiaShape(f.nia) && SprShape(f.cfar, SPR_CFAR) && MsrShape(f.msr) && SprShape(f.lr, SPR_LR)
    && SprShape(f.ctr, SPR_CTR) && SprShape(f.tar, SPR_TAR) && CrShape(f.cr)
  }

  /** The front fields the reads f leave, starting from p. */
  ghost function FrontOf(f: FrontCalls, p: FrontRegs): FrontRegs
  {
    FrontRegs(
      ReadValue(f.nia, 3, p.nia), ReadValue(f.cfar, 3, p.cfar), ReadValue(f.msr, 3, p.msr),
      ReadValue(f.lr, 3, p.lr), ReadValue(f.ctr, 3, p.ctr), ReadValue(f.tar, 3, p.tar),
      CrValue(f.cr, p.cr))
  }

  method GetFrontRegs(thread: Thread, p: FrontRegs) returns (r: FrontRegs, ghost f: FrontCalls)
    requires thread.ramIsSetup
    modifies thread`trace, thread`ramIsSetup
    ensures thread.ramIsSetup && thread.trace == old(thread.trace) + FrontFlat(f) && FrontInjected(f)
    ensures FrontShape(f) && r == FrontOf(f, p)
  {
    ghost var t0 := thread.trace;
    assert thread.trace == t0 + [];
    var nia, c_nia := SessionGetNia(thread, p.nia, t0, []);
    assert [] + c_nia == c_nia;
    var cfar, c_cfar := SessionGetSpr(thread, SPR_CFAR, p.cfar, t0, c_nia);
    var msr, c_msr := SessionGetMsr(thread, p.msr, t0, c_nia + c_cfar);
    var lr, c_lr := SessionGetSpr(thread, SPR_LR, p.lr, t0, c_nia + c_cfar + c_msr);
    var ctr, c_ctr := SessionGetSpr(thread, SPR_CTR, p.ctr, t0, c_nia + c_cfar + c_msr + c_lr);
    var tar, c_tar := SessionGetSpr(thread, SPR_TAR, p.tar, t0, c_nia + c_cfar + c_msr + c_lr + c_ctr);
    var cr, c_cr := SessionGetCr(thread, p.cr, t0, c_nia + c_cfar + c_msr + c_lr + c_ctr + c_tar);
    f := FrontCalls(c_nia, c_cfar, c_msr, c_lr, c_ctr, c_tar, c_cr);
    r := FrontRegs(nia, cfar, msr, lr, ctr, tar, cr);
  }

  /** Read i has ram_getgpr's shape for gpr i. */
  ghost predicate GprsShape(s: seq<seq<Event>>)
  {
    |s| == 32 && forall i | 0 <= i < 32 :: GprShape(s[i], i as bv64)
  }

  /** The 32 GPRs the reads s leave, starting from p. */
  ghost function GprsOf(s: seq<seq<Event>>, p: seq<bv64>): seq<bv64>
    requires |s| == 32 && |p| == 32
  {
    seq(32, i requires 0 <= i < 32 => ReadValue(s[i], 2, p[i]))
  }

  /** Registers that each hold what their read left are GprsOf's. */
  lemma GprsOfEach(s: seq<seq<Event>>, p: seq<bv64>, r: seq<bv64>)
    requires |s| == 32 && |p| == 32 && |r| == 32
    requires forall j | 0 <= j < 32 :: r[j] == ReadValue(s[j], 2, p[j])
    ensures r == GprsOf(s, p)
  {
  }

  method GetGprs(thread: Thread, p: seq<bv64>) returns (gprs: seq<bv64>, ghost segs: seq<seq<Event>>)
    requires thread.ramIsSetup && |p| == 32
    modifies thread`trace, thread`ramIsSetup
    ensures thread.ramIsSetup && thread.trace == old(thread.trace) + Flatten(segs) && Injected(Flatten(segs))
    ensures GprsShape(segs) && gprs == GprsOf(segs, p)
  {
    ghost var t0 := thread.trace;
    segs := [];
    gprs := p;
    var i := 0;
    while i < 32
      invariant 0 <= i <= 32 && |gprs| == 32 && |segs| == i
      invariant thread.ramIsSetup && thread.trace == t0 + Flatten(segs) && Injected(Flatten(segs))
      invariant forall j | 0 <= j < i :: GprShape(segs[j], j as bv64) && gprs[j] == ReadValue(segs[j], 2, p[j])
      invariant forall j | i <= j < 32 :: gprs[j] == p[j]
    {
      var v, c := SessionGetGpr(thread, i as bv64, gprs[i], t0, Flatten(segs));
      InjectedConcat(Flatten(segs), c);
      gprs := gprs[i := v];
      assert (segs + [c])[..i] == segs;
      segs := segs + [c];
      i := i + 1;
    }
    GprsOfEach(segs, p, gprs);
  }

  /** The calls of the reads of lpcr to fscr. */
  datatype HypCalls = HypCalls(
    lpcr: seq<Event>, ptcr: seq<Event>, lpidr: seq<Event>, pidr: seq<Event>, hfscr: seq<Event>,
    hdsisr: seq<Event>, hdar: seq<Event>, heir: seq<Event>, hid: seq<Event>, hsrr0: seq<Event>,
    hsrr1: seq<Event>, hdec: seq<Event>, hsprg0: seq<Event>, hsprg1: seq<Event>, fscr: seq<Event>)

  ghost function HypFlat(h: HypCalls): seq<Event>
  {
    h.lpcr + h.ptcr + h.lpidr + h.pidr + h.hfscr + h.hdsisr + h.hdar + h.heir + h.hid + h.hsrr0 + h.hsrr1 + h.hdec + h.hsprg0 + h.hsprg1 + h.fscr
  }

  /** Every read of the phase made injections only. */
  ghost predicate HypInjected(h: HypCalls)
  {
    Injected(h.lpcr) && Injected(h.ptcr) && Injected(h.lpidr) && Injected(h.pidr)
    && Injected(h.hfscr) && Injected(h.hdsisr) && Injected(h.hdar) && Injected(h.heir)
    && Injected(h.hid) && Injected(h.hsrr0) && Injected(h.hsrr1) && Injected(h.hdec)
    && Injected(h.hsprg0) && Injected(h.hsprg1) && Injected(h.fscr)
  }

  lemma HypFlatInjected(h: HypCalls)
    requires HypInjected(h)
    ensures Injected(HypFlat(h))
  {
    InjectedConcat(h.lpcr, h.ptcr);
    InjectedConcat(h.lpcr + h.ptcr, h.lpidr);
    InjectedConcat(h.lpcr + h.ptcr + h.lpidr, h.pidr);
    InjectedConcat(h.lpcr + h.ptcr + h.lpidr + h.pidr, h.hfscr);
    InjectedConcat(h.lpcr + h.ptcr + h.lpidr + h.pidr + h.hfscr, h.hdsisr);
    InjectedConcat(h.lpcr + h.ptcr + h.lpidr + h.pidr + h.hfscr + h.hdsisr, h.hdar);
    InjectedConcat(h.lpcr + h.ptcr + h.lpidr + h.pidr + h.hfscr + h.hdsisr + h.hdar, h.heir);
    InjectedConcat(h.lpcr + h.ptcr + h.lpidr + h.pidr + h.hfscr + h.hdsisr + h.hdar + h.heir, h.hid);
    InjectedConcat(h.lpcr + h.ptcr + h.lpidr + h.pidr + h.hfscr + h.hdsisr + h.hdar + h.heir + h.hid, h.hsrr0);
    InjectedConcat(h.lpcr + h.ptcr + h.lpidr + h.pidr + h.hfscr + h.hdsisr + h.hdar + h.heir + h.hid + h.hsrr0, h.hsrr1);
    InjectedConcat(h.lpcr + h.ptcr + h.lpidr + h.pidr + h.hfscr + h.hdsisr + h.hdar + h.heir + h.hid + h.hsrr0 + h.hsrr1, h.hdec);
    InjectedConcat(h.lpcr + h.ptcr + h.lpidr + h.pidr + h.hfscr + h.hdsisr + h.hdar + h.heir + h.hid + h.hsrr0 + h.hsrr1 + h.hdec, h.hsprg0);
    InjectedConcat(h.lpcr + h.ptcr + h.lpidr + h.pidr + h.hfscr + h.hdsisr + h.hdar + h.heir + h.hid + h.hsrr0 + h.hsrr1 + h.hdec + h.hsprg0, h.hsprg1);
    InjectedConcat(h.lpcr + h.ptcr + h.lpidr + h.pidr + h.hfscr + h.hdsisr + h.hdar + h.heir + h.hid + h.hsrr0 + h.hsrr1 + h.hdec + h.hsprg0 + h.hsprg1, h.fscr);
  }

  /** Every read of the phase has ram_getspr's shape for its SPR. */
  ghost predicate HypShape(h: HypCalls)
  {
    SprShape(h.lpcr, SPR_LPCR) && SprShape(h.ptcr, SPR_PTCR) && SprShape(h.lpidr, SPR_LPIDR)
    && SprShape(h.pidr, SPR_PIDR) && SprShape(h.hfscr, SPR_HFSCR) && SprShape(h.hdsisr, SPR_HDSISR)
    && SprShape(h.hdar, SPR_HDAR) && SprShape(h.heir, SPR_HEIR) && SprShape(h.hid, SPR_HID)
    && SprShape(h.hsrr0, SPR_HSRR0) && SprShape(h.hsrr1, SPR_HSRR1) && SprShape(h.hdec, SPR_HDEC)
    && SprShape(h.hsprg0, SPR_HSPRG0) && SprShape(h.hsprg1, SPR_HSPRG1)
    && SprShape(h.fscr, SPR_FSCR)
  }

  /** The temporary after the heir read: hdsisr and heir are both read into
      it, and it holds v0 before. */
  ghost function HypTemp(h: HypCalls, v0: bv64): bv64
  {
    ReadValue(h.heir, 3, ReadValue(h.hdsisr, 3, v0))
  }

  /** The hypervisor fields the reads h leave, starting from p with the
      temporary at v0. */
  ghost function HypOf(h: HypCalls, p: HypRegs, v0: bv64): HypRegs
  {
    HypRegs(
      ReadValue(h.lpcr, 3, p.lpcr), ReadValue(h.ptcr, 3, p.ptcr), ReadValue(h.lpidr, 3, p.lpidr),
      ReadValue(h.pidr, 3, p.pidr), ReadValue(h.hfscr, 3, p.hfscr),
      Low32(ReadValue(h.hdsisr, 3, v0)), ReadValue(h.hdar, 3, p.hdar), Low32(HypTemp(h, v0)),
      ReadValue(h.hid, 3, p.hid), ReadValue(h.hsrr0, 3, p.hsrr0), ReadValue(h.hsrr1, 3, p.hsrr1),
      ReadValue(h.hdec, 3, p.hdec), ReadValue(h.hsprg0, 3, p.hsprg0),
      ReadValue(h.hsprg1, 3, p.hsprg1), ReadValue(h.fscr, 3, p.fscr))
  }

  method GetHypervisorSprs(thread: Thread, p: HypRegs, v0: bv64) returns (r: HypRegs, value: bv64, ghost h: HypCalls)
    requires thread.ramIsSetup
    modifies thread`trace, thread`ramIsSetup
    ensures thread.ramIsSetup && thread.trace == old(thread.trace) + HypFlat(h) && HypInjected(h)
    ensures HypShape(h) && r == HypOf(h, p, v0) && value == HypTemp(h, v0)
  {
    ghost var t0 := thread.trace;
    assert thread.trace == t0 + [];
    value := v0;
    var lpcr, c_lpcr := SessionGetSpr(thread, SPR_LPCR, p.lpcr, t0, []);
    assert [] + c_lpcr == c_lpcr;
    var ptcr, c_ptcr := SessionGetSpr(thread, SPR_PTCR, p.ptcr, t0, c_lpcr);
    var lpidr, c_lpidr := SessionGetSpr(thread, SPR_LPIDR, p.lpidr, t0, c_lpcr + c_ptcr);
    var pidr, c_pidr := SessionGetSpr(thread, SPR_PIDR, p.pidr, t0, c_lpcr + c_ptcr + c_lpidr);
    var hfscr, c_hfscr := SessionGetSpr(thread, SPR_HFSCR, p.hfscr, t0, c_lpcr + c_ptcr + c_lpidr + c_pidr);
    ghost var c_hdsisr;
    value, c_hdsisr := SessionGetSpr(thread, SPR_HDSISR, value, t0, c_lpcr + c_ptcr + c_lpidr + c_pidr + c_hfscr);
    var hdsisr := Low32(value);
    var hdar, c_hdar := SessionGetSpr(thread, SPR_HDAR, p.hdar, t0, c_lpcr + c_ptcr + c_lpidr + c_pidr + c_hfscr + c_hdsisr);
    ghost var c_heir;
    value, c_heir := SessionGetSpr(thread, SPR_HEIR, value, t0, c_lpcr + c_ptcr + c_lpidr + c_pidr + c_hfscr + c_hdsisr + c_hdar);
    var heir := Low32(value);
    var hid, c_hid := SessionGetSpr(thread, SPR_HID, p.hid, t0, c_lpcr + c_ptcr + c_lpidr + c_pidr + c_hfscr + c_hdsisr + c_hdar + c_heir);
    var hsrr0, c_hsrr0 := SessionGetSpr(thread, SPR_HSRR0, p.hsrr0, t0, c_lpcr + c_ptcr + c_lpidr + c_pidr + c_hfscr + c_hdsisr + c_hdar + c_heir + c_hid);
    var hsrr1, c_hsrr1 := SessionGetSpr(thread, SPR_HSRR1, p.hsrr1, t0, c_lpcr + c_ptcr + c_lpidr + c_pidr + c_hfscr + c_hdsisr + c_hdar + c_heir + c_hid + c_hsrr0);
    var hdec, c_hdec := SessionGetSpr(thread, SPR_HDEC, p.hdec, t0, c_lpcr + c_ptcr + c_lpidr + c_pidr + c_hfscr + c_hdsisr + c_hdar + c_heir + c_hid + c_hsrr0 + c_hsrr1);
    var hsprg0, c_hsprg0 := SessionGetSpr(thread, SPR_HSPRG0, p.hsprg0, t0, c_lpcr + c_ptcr + c_lpidr + c_pidr + c_hfscr + c_hdsisr + c_hdar + c_heir + c_hid + c_hsrr0 + c_hsrr1 + c_hdec);
    var hsprg1, c_hsprg1 := SessionGetSpr(thread, SPR_HSPRG1, p.hsprg1, t0, c_lpcr + c_ptcr + c_lpidr + c_pidr + c_hfscr + c_hdsisr + c_hdar + c_heir + c_hid + c_hsrr0 + c_hsrr1 + c_hdec + c_hsprg0);
    var fscr, c_fscr := SessionGetSpr(thread, SPR_FSCR, p.fscr, t0, c_lpcr + c_ptcr + c_lpidr + c_pidr + c_hfscr + c_hdsisr + c_hdar + c_heir + c_hid + c_hsrr0 + c_hsrr1 + c_hdec + c_hsprg0 + c_hsprg1);
    h := HypCalls(c_lpcr, c_ptcr, c_lpidr, c_pidr, c_hfscr, c_hdsisr, c_hdar, c_heir, c_hid, c_hsrr0, c_hsrr1, c_hdec, c_hsprg0, c_hsprg1, c_fscr);
    r := HypRegs(lpcr, ptcr, lpidr, pidr, hfscr, hdsisr, hdar, heir, hid, hsrr0, hsrr1, hdec, hsprg0, hsprg1, fscr);
  }

  /** The calls of the reads of dsisr to ppr. */
  datatype SupCalls = SupCalls(
    dsisr: seq<Event>, dar: seq<Event>, srr0: seq<Event>, srr1: seq<Event>, dec: seq<Event>,
    tb: seq<Event>, sprg0: seq<Event>, sprg1: seq<Event>, sprg2: seq<Event>, sprg3: seq<Event>,
    ppr: seq<Event>)

  ghost function SupFlat(u: SupCalls): seq<Event>
  {
    u.dsisr + u.dar + u.srr0 + u.srr1 + u.dec + u.tb + u.sprg0 + u.sprg1 + u.sprg2 + u.sprg3 + u.ppr
  }

  /** Every read of the phase made injections only. */
  ghost predicate SupInjected(u: SupCalls)
  {
    Injected(u.dsisr) && Injected(u.dar) && Injected(u.srr0) && Injected(u.srr1) && Injected(u.dec)
    && Injected(u.tb) && Injected(u.sprg0) && Injected(u.sprg1) && Injected(u.sprg2)
    && Injected(u.sprg3) && Injected(u.ppr)
  }

  lemma SupFlatInjected(u: SupCalls)
    requires SupInjected(u)
    ensures Injected(SupFlat(u))
  {
    InjectedConcat(u.dsisr, u.dar);
    InjectedConcat(u.dsisr + u.dar, u.srr0);
    InjectedConcat(u.dsisr + u.dar + u.srr0, u.srr1);
    InjectedConcat(u.dsisr + u.dar + u.srr0 + u.srr1, u.dec);
    InjectedConcat(u.dsisr + u.dar + u.srr0 + u.srr1 + u.dec, u.tb);
    InjectedConcat(u.dsisr + u.dar + u.srr0 + u.srr1 + u.dec + u.tb, u.sprg0);
    InjectedConcat(u.dsisr + u.dar + u.srr0 + u.srr1 + u.dec + u.tb + u.sprg0, u.sprg1);
    InjectedConcat(u.dsisr + u.dar + u.srr0 + u.srr1 + u.dec + u.tb + u.sprg0 + u.sprg1, u.sprg2);
    InjectedConcat(u.dsisr + u.dar + u.srr0 + u.srr1 + u.dec + u.tb + u.sprg0 + u.sprg1 + u.sprg2, u.sprg3);
    InjectedConcat(u.dsisr + u.dar + u.srr0 + u.srr1 + u.dec + u.tb + u.sprg0 + u.sprg1 + u.sprg2 + u.sprg3, u.ppr);
  }

  /** Every read of the phase has ram_getspr's shape for its SPR. */
  ghost predicate SupShape(u: SupCalls)
  {
    SprShape(u.dsisr, SPR_DSISR) && SprShape(u.dar, SPR_DAR) && SprShape(u.srr0, SPR_SRR0)
    && SprShape(u.srr1, SPR_SRR1) && SprShape(u.dec, SPR_DEC) && SprShape(u.tb, SPR_TB)
    && SprShape(u.sprg0, SPR_SPRG0) && SprShape(u.sprg1, SPR_SPRG1) && SprShape(u.sprg2, SPR_SPRG2)
    && SprShape(u.sprg3, SPR_SPRG3) && SprShape(u.ppr, SPR_PPR)
  }

  /** The supervisor fields the reads u leave, starting from p with the
      temporary at v0. */
  ghost function SupOf(u: SupCalls, p: SupRegs, v0: bv64): SupRegs
  {
    SupRegs(
      Low32(ReadValue(u.dsisr, 3, v0)), ReadValue(u.dar, 3, p.dar), ReadValue(u.srr0, 3, p.srr0),
      ReadValue(u.srr1, 3, p.srr1), ReadValue(u.dec, 3, p.dec), ReadValue(u.tb, 3, p.tb),
      ReadValue(u.sprg0, 3, p.sprg0), ReadValue(u.sprg1, 3, p.sprg1),
      ReadValue(u.sprg2, 3, p.sprg2), ReadValue(u.sprg3, 3, p.sprg3), ReadValue(u.ppr, 3, p.ppr))
  }

  method GetSupervisorSprs(thread: Thread, p: SupRegs, v0: bv64) returns (r: SupRegs, value: bv64, ghost u: SupCalls)
    requires thread.ramIsSetup
    modifies thread`trace, thread`ramIsSetup
    ensures thread.ramIsSetup && thread.trace == old(thread.trace) + SupFlat(u) && SupInjected(u)
    ensures SupShape(u) && r == SupOf(u, p, v0) && value == ReadValue(u.dsisr, 3, v0)
  {
    ghost var t0 := thread.trace;
    assert thread.trace == t0 + [];
    value := v0;
    ghost var c_dsisr;
    value, c_dsisr := SessionGetSpr(thread, SPR_DSISR, value, t0, []);
    var dsisr := Low32(value);
    assert [] + c_dsisr == c_dsisr;
    var dar, c_dar := SessionGetSpr(thread, SPR_DAR, p.dar, t0, c_dsisr);
    var srr0, c_srr0 := SessionGetSpr(thread, SPR_SRR0, p.srr0, t0, c_dsisr + c_dar);
    var srr1, c_srr1 := SessionGetSpr(thread, SPR_SRR1, p.srr1, t0, c_dsisr + c_dar + c_srr0);
    var dec, c_dec := SessionGetSpr(thread, SPR_DEC, p.dec, t0, c_dsisr + c_dar + c_srr0 + c_srr1);
    var tb, c_tb := SessionGetSpr(thread, SPR_TB, p.tb, t0, c_dsisr + c_dar + c_srr0 + c_srr1 + c_dec);
    var sprg0, c_sprg0 := SessionGetSpr(thread, SPR_SPRG0, p.sprg0, t0, c_dsisr + c_dar + c_srr0 + c_srr1 + c_dec + c_tb);
    var sprg1, c_sprg1 := SessionGetSpr(thread, SPR_SPRG1, p.sprg1, t0, c_dsisr + c_dar + c_srr0 + c_srr1 + c_dec + c_tb + c_sprg0);
    var sprg2, c_sprg2 := SessionGetSpr(thread, SPR_SPRG2, p.sprg2, t0, c_dsisr + c_dar + c_srr0 + c_srr1 + c_dec + c_tb + c_sprg0 + c_sprg1);
    var sprg3, c_sprg3 := SessionGetSpr(thread, SPR_SPRG3, p.sprg3, t0, c_dsisr + c_dar + c_srr0 + c_srr1 + c_dec + c_tb + c_sprg0 + c_sprg1 + c_sprg2);
    var ppr, c_ppr := SessionGetSpr(thread, SPR_PPR, p.ppr, t0, c_dsisr + c_dar + c_srr0 + c_srr1 + c_dec + c_tb + c_sprg0 + c_sprg1 + c_sprg2 + c_sprg3);
    u := SupCalls(c_dsisr, c_dar, c_srr0, c_srr1, c_dec, c_tb, c_sprg0, c_sprg1, c_sprg2, c_sprg3, c_ppr);
    r := SupRegs(dsisr, dar, srr0, srr1, dec, tb, sprg0, sprg1, sprg2, sprg3, ppr);
  }

  /** The calls of ram_getregs' session, phase by phase. */
  datatype SessionCalls = SessionCalls(front: FrontCalls, xer: Event, gprs: seq<seq<Event>>, hyp: HypCalls, sup: SupCalls)

  ghost function AllCalls(g: SessionCalls): seq<Event>
  {
    FrontFlat(g.front) + [g.xer] + (Flatten(g.gprs) + HypFlat(g.hyp) + SupFlat(g.sup))
  }

  /** Every read of the session has its accessor's shape, and xer is read by
      one getxer call. */
  ghost predicate SessionShape(g: SessionCalls)
  {
    FrontShape(g.front) && g.xer.GetXer? && GprsShape(g.gprs) && HypShape(g.hyp) && SupShape(g.sup)
  }

  /**
   * The register set the reads g leave, starting from the caller's prior:
   * each field is what its read gave, or prior's when the read failed.  The
   * temporary starts at 0, so a failed hdsisr read yields 0, a failed heir
   * read yields hdsisr's value and a failed dsisr read yields heir's.  A
   * failed getxer is taken to leave xer as it was.
   */
  ghost function RegsOf(g: SessionCalls, prior: ThreadRegs): ThreadRegs
    requires |g.gprs| == 32 && |prior.gprs| == 32 && g.xer.GetXer?
  {
    ThreadRegs(
      FrontOf(g.front, prior.front),
      if g.xer.rc == 0 then g.xer.xer else prior.xer,
      GprsOf(g.gprs, prior.gprs),
      HypOf(g.hyp, prior.hyp, 0),
      SupOf(g.sup, prior.sup, HypTemp(g.hyp, 0)))
  }

  /**
   * The fields read through the temporary: a failed hdsisr read leaves 0
   * there, a failed heir read leaves the hdsisr field's value, and a failed
   * dsisr read the heir field's, instead of the caller's values.
   */
  lemma TemporaryCarries(g: SessionCalls, prior: ThreadRegs)
    requires |g.gprs| == 32 && |prior.gprs| == 32 && g.xer.GetXer?
    ensures var r := RegsOf(g, prior);
            (!AllOk(g.hyp.hdsisr) ==> r.hyp.hdsisr == 0)
            && (!AllOk(g.hyp.heir) ==> r.hyp.heir == r.hyp.hdsisr)
            && (!AllOk(g.sup.dsisr) ==> r.sup.dsisr == r.hyp.heir)
  {
  }

  /**
   * The registers of ram_getregs, read in the C's order inside an open
   * session.  The calls made are injections except the one getxer call,
   * every read has its accessor's shape, and the registers are what the
   * reads gave.
   */
  method ReadRegs(thread: Thread, prior: ThreadRegs) returns (regs: ThreadRegs, ghost g: SessionCalls)
    requires thread.ramIsSetup && |prior.gprs| == 32
    modifies thread`trace, thread`ramIsSetup
    ensures thread.ramIsSetup
    ensures thread.trace == old(thread.trace) + AllCalls(g) && OneXer(AllCalls(g), |FrontFlat(g.front)|)
    ensures SessionShape(g) && regs == RegsOf(g, prior)
  {
    ghost var t0 := thread.trace;
    var value: bv64 := 0;
    var front, f := GetFrontRegs(thread, prior.front);
    ghost var t1 := thread.trace;

    var xrc, xer := thread.GetXer();
    ghost var e := Event.GetXer(xrc, xer);
    ghost var t2 := thread.trace;
    if xrc != 0 {
      xer := prior.xer;
    }

    var gprs, gs := GetGprs(thread, prior.gprs);
    ghost var t3 := thread.trace;
    var hyp;
    ghost var h;
    hyp, value, h := GetHypervisorSprs(thread, prior.hyp, value);
    ghost var t4 := thread.trace;
    var sup;
    ghost var u;
    sup, value, u := GetSupervisorSprs(thread, prior.sup, value);
    regs := ThreadRegs(front, xer, gprs, hyp, sup);
    g := SessionCalls(f, e, gs, h, u);

    FrontFlatInjected(f);
    HypFlatInjected(h);
    SupFlatInjected(u);
    ghost var rest := Flatten(gs) + HypFlat(h) + SupFlat(u);
    InjectedConcat(Flatten(gs), HypFlat(h));
    InjectedConcat(Flatten(gs) + HypFlat(h), SupFlat(u));
    XerBetween(FrontFlat(f), e, rest);
    Regroup(t0, FrontFlat(f), [e], Flatten(gs), HypFlat(h), SupFlat(u));
  }

  /**
   * ram_getregs: open one session, read every register through it, and
   * close it.  The accessors' own errors are ignored (a failed read leaves
   * its field as it was); only the setup and teardown are checked.  So the
   * backend sees a setup, then injections only -- save for one getxer call
   * -- and a destroy last, and the return code is the setup's error or else
   * the destroy's.
   */
  method RamGetRegs(thread: Thread, prior: ThreadRegs) returns (rc: int, regs: ThreadRegs, ghost g: SessionCalls)
    requires |prior.gprs| == 32
    modifies thread`trace, thread`ramIsSetup
    ensures var t0 := old(thread.trace);
            var s := thread.backend.setup(t0);
            if s != 0 then
              rc == s && regs == prior && thread.trace == t0 + [Setup(s)]
              && thread.ramIsSetup == old(thread.ramIsSetup)
            else
              thread.trace == t0 + [Setup(0)] + AllCalls(g) + [Destroy(rc)]
              && OneXer(AllCalls(g), |FrontFlat(g.front)|)
              && SessionShape(g) && regs == RegsOf(g, prior)
              && !thread.ramIsSetup
  {
    rc := thread.RamSetup();
    if rc != 0 {
      g := SessionCalls(FrontCalls([], [], [], [], [], [], []), Event.Destroy(0), [],
                        HypCalls([], [], [], [], [], [], [], [], [], [], [], [], [], [], []),
                        SupCalls([], [], [], [], [], [], [], [], [], [], []));
      return rc, prior, g;
    }
    regs, g := ReadRegs(thread, prior);
    rc := thread.RamDestroy();
  }
}
