/**
 * The instruction encoders of libpdbg/chip.c.  Each one ORs its operands
 * into fixed fields of a Power ISA instruction word.  Bit positions below
 * count from the least significant bit of the 32-bit word (bit 0 is the
 * LSB), which is how the C shifts them.
 *
 * The field extractors are the decoder the encoders are checked against:
 * every encoder's contract says which value each field holds and that all
 * other bits are those of the opcode constant.
 */
module Opcodes {

  // Opcode constants.  The header that defines them is not part of this
  // model; these are the Power ISA encodings of the instructions (primary
  // opcode 31 with the instruction's extended opcode, primary opcode 58 for
  // ld), and the two RAM-mode pseudo-instructions mfnia/mtnia.
  const MFSPR_OPCODE: bv64 := 0x7c00_02a6
  const MTSPR_OPCODE: bv64 := 0x7c00_03a6
  const MFOCRF_OPCODE: bv64 := 0x7c10_0026
  const MTOCRF_OPCODE: bv64 := 0x7c10_0120
  const MFNIA_OPCODE: bv64 := 0x0000_0004
  const MTNIA_OPCODE: bv64 := 0x0000_0002
  const MFMSR_OPCODE: bv64 := 0x7c00_00a6
  const MTMSR_OPCODE: bv64 := 0x7c00_0124
  const LD_OPCODE: bv64 := 0xe800_0000

  /** The special register the RAM engine uses as its scratch channel. */
  const SCRATCH_SPR: bv64 := 277

  /** Bits 21-25: the RT/RS register field. */
  const RT_MASK: bv64 := 0x03e0_0000
  /** Bits 16-20: the RA field, and the low half of an XFX-form SPR number. */
  const RA_MASK: bv64 := 0x001f_0000
  /** Bits 11-20: the (half-swapped) SPR field of the XFX form. */
  const SPR_MASK: bv64 := 0x001f_f800
  /** Bits 12-19: the FXM field of mfocrf/mtocrf. */
  const FXM_MASK: bv64 := 0x000f_f000
  /** Bits 2-15: the DS field of ld. */
  const DS_MASK: bv64 := 0x0000_fffc

  function RtField(w: bv64): bv64 { (w >> 21) & 0x1f }
  function RaField(w: bv64): bv64 { (w >> 16) & 0x1f }
  /** The SPR number, reassembled from its two swapped 5-bit halves. */
  function SprField(w: bv64): bv64 { ((w >> 16) & 0x1f) | (((w >> 11) & 0x1f) << 5) }
  function FxmField(w: bv64): bv64 { (w >> 12) & 0xff }
  function DsField(w: bv64): bv64 { (w >> 2) & 0x3fff }

  // An out-of-range register number is only logged by the C, which then
  // ORs it in all the same; the field contracts below are stated for the
  // operands the instruction format can hold.

  /** mfspr reg, spr */
  function Mfspr(reg: bv64, spr: bv64): (w: bv64)
    ensures reg <= 31 ==> RtField(w) == reg && SprField(w) == spr & 0x3ff
    ensures reg <= 31 ==> w & !(RT_MASK | SPR_MASK) == MFSPR_OPCODE
  {
    MFSPR_OPCODE | (reg << 21) | ((spr & 0x1f) << 16) | ((spr & 0x3e0) << 6)
  }

  /** mtspr spr, reg */
  function Mtspr(spr: bv64, reg: bv64): (w: bv64)
    ensures reg <= 31 ==> RtField(w) == reg && SprField(w) == spr & 0x3ff
    ensures reg <= 31 ==> w & !(RT_MASK | SPR_MASK) == MTSPR_OPCODE
  {
    MTSPR_OPCODE | (reg << 21) | ((spr & 0x1f) << 16) | ((spr & 0x3e0) << 6)
  }

  /**
   * mfocrf reg, field cr: exactly one FXM bit, the one for field cr.  The C
   * shifts a 32-bit 1U, so cr must keep 12 + cr below 32; a field number
   * above 7 is only logged.
   */
  function Mfocrf(reg: bv64, cr: bv64): (w: bv64)
    requires cr < 20
    ensures reg <= 31 && cr <= 7 ==> RtField(w) == reg && FxmField(w) == 1 << cr
    ensures reg <= 31 && cr <= 7 ==> w & !(RT_MASK | FXM_MASK) == MFOCRF_OPCODE
  {
    MFOCRF_OPCODE | (reg << 21) | (1 << (12 + cr))
  }

  /** mtocrf field cr, reg: exactly one FXM bit, the one for field cr.  The
      C exits the program on an out-of-range operand. */
  function Mtocrf(cr: bv64, reg: bv64): (w: bv64)
    requires reg <= 31 && cr <= 7
    ensures RtField(w) == reg && FxmField(w) == 1 << cr
    ensures w & !(RT_MASK | FXM_MASK) == MTOCRF_OPCODE
  {
    MTOCRF_OPCODE | (reg << 21) | (1 << (12 + cr))
  }

  function Mfnia(reg: bv64): (w: bv64)
    ensures reg <= 31 ==> RtField(w) == reg && w & !RT_MASK == MFNIA_OPCODE
  {
    MFNIA_OPCODE | (reg << 21)
  }

  function Mtnia(reg: bv64): (w: bv64)
    ensures reg <= 31 ==> RtField(w) == reg && w & !RT_MASK == MTNIA_OPCODE
  {
    MTNIA_OPCODE | (reg << 21)
  }

  function Mfmsr(reg: bv64): (w: bv64)
    ensures reg <= 31 ==> RtField(w) == reg && w & !RT_MASK == MFMSR_OPCODE
  {
    MFMSR_OPCODE | (reg << 21)
  }

  function Mtmsr(reg: bv64): (w: bv64)
    ensures reg <= 31 ==> RtField(w) == reg && w & !RT_MASK == MTMSR_OPCODE
  {
    MTMSR_OPCODE | (reg << 21)
  }

  /** ld rt, ds(ra): the displacement is a word count, stored shifted by 2. */
  function Ld(rt: bv64, ds: bv64, ra: bv64): (w: bv64)
    ensures rt <= 31 && ra <= 31 && ds <= 0x3fff ==>
              RtField(w) == rt && RaField(w) == ra && DsField(w) == ds
              && w & !(RT_MASK | RA_MASK | DS_MASK) == LD_OPCODE
  {
    var w := LD_OPCODE | (rt << 21) | (ra << 16) | (ds << 2);
    if rt <= 31 && ra <= 31 && ds <= 0x3fff then LdFields(rt, ds, ra); w else w
  }

  /** The fields of an ld word built from in-range operands. */
  lemma LdFields(rt: bv64, ds: bv64, ra: bv64)
    requires rt <= 31 && ra <= 31 && ds <= 0x3fff
    ensures var w := LD_OPCODE | (rt << 21) | (ra << 16) | (ds << 2);
            RtField(w) == rt && RaField(w) == ra && DsField(w) == ds
            && w & !(RT_MASK | RA_MASK | DS_MASK) == LD_OPCODE
  {
  }
}
