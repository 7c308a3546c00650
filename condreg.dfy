/**
 * The condition-register arithmetic of ram_getcr in libpdbg/chip.c.  The
 * CR is read one 4-bit field at a time: field k arrives in the low word of
 * a scratch value, and the C keeps nibble k of it (bits 4k to 4k+3 of the
 * 32-bit CR image) and ORs it into cr.
 */
module CondReg {
  /** The low 32 bits of a scratch value (the C's uint32_t cr_field). */
  function Low32(x: bv64): bv32
  {
    (x & 0xffff_ffff) as bv32
  }

  /** The mask of nibble k of a 32-bit word (bits 4k to 4k+3), which the
      C writes 0xf << 4k. */
  function NibbleMask(k: nat): bv32
    requires k < 8
  {
    if k == 0 then 0xf else if k == 1 then 0xf0 else if k == 2 then 0xf00 else if k == 3 then 0xf000
    else if k == 4 then 0xf_0000 else if k == 5 then 0xf0_0000 else if k == 6 then 0xf00_0000 else 0xf000_0000
  }

  /** Eight values, each masked to its own nibble, ORed together in the
      order of the C loop. */
  function Nibbles(x0: bv32, x1: bv32, x2: bv32, x3: bv32, x4: bv32, x5: bv32, x6: bv32, x7: bv32): bv32
  {
    0 | (x0 & 0xf) | (x1 & 0xf0) | (x2 & 0xf00) | (x3 & 0xf000)
    | (x4 & 0xf_0000) | (x5 & 0xf0_0000) | (x6 & 0xf00_0000) | (x7 & 0xf000_0000)
  }

  /**
   * cr as the C loop leaves it after n of its eight iterations: iteration j
   * ORs in nibble j of the low word of results[2j + 1].
   */
  function CrFields(r: seq<bv64>, n: nat): bv32
    requires n <= 8 && |r| == 16
  {
    if n == 0 then 0 else CrFields(r, n - 1) | (Low32(r[2 * n - 1]) & NibbleMask(n - 1))
  }

  /** Iteration j of the C loop, as a step from j fields to j + 1. */
  lemma CrFieldsNext(r: seq<bv64>, j: nat)
    requires j < 8 && |r| == 16
    ensures CrFields(r, j + 1) == CrFields(r, j) | (Low32(r[2 * j + 1]) & NibbleMask(j))
  {
  }

  /** All eight iterations written out. */
  lemma CrFieldsAll(r: seq<bv64>)
    requires |r| == 16
    ensures CrFields(r, 8) == Nibbles(Low32(r[1]), Low32(r[3]), Low32(r[5]), Low32(r[7]),
                                      Low32(r[9]), Low32(r[11]), Low32(r[13]), Low32(r[15]))
  {
    CrFieldsNext(r, 0);
    CrFieldsNext(r, 1);
    CrFieldsNext(r, 2);
    CrFieldsNext(r, 3);
    CrFieldsNext(r, 4);
    CrFieldsNext(r, 5);
    CrFieldsNext(r, 6);
    CrFieldsNext(r, 7);
  }

  /** The k-th of eight values. */
  function Pick(x0: bv32, x1: bv32, x2: bv32, x3: bv32, x4: bv32, x5: bv32, x6: bv32, x7: bv32, k: nat): bv32
    requires k < 8
  {
    if k == 0 then x0 else if k == 1 then x1 else if k == 2 then x2 else if k == 3 then x3
    else if k == 4 then x4 else if k == 5 then x5 else if k == 6 then x6 else x7
  }

  /** Each value's nibble survives in place. */
  lemma NibblesKept(x0: bv32, x1: bv32, x2: bv32, x3: bv32, x4: bv32, x5: bv32, x6: bv32, x7: bv32, k: nat)
    requires k < 8
    ensures Nibbles(x0, x1, x2, x3, x4, x5, x6, x7) & NibbleMask(k) == Pick(x0, x1, x2, x3, x4, x5, x6, x7, k) & NibbleMask(k)
  {
    if k == 0 {} else if k == 1 {} else if k == 2 {} else if k == 3 {}
    else if k == 4 {} else if k == 5 {} else if k == 6 {} else {}
  }

  /** A step of CrNibble: the low word of results[2k + 1], picked out of
      the eight. */
  lemma PickField(r: seq<bv64>, k: nat)
    requires |r| == 16 && k < 8
    ensures Pick(Low32(r[1]), Low32(r[3]), Low32(r[5]), Low32(r[7]),
             Low32(r[9]), Low32(r[11]), Low32(r[13]), Low32(r[15]), k) == Low32(r[2 * k + 1])
  {
  }

  /**
   * Nibble k of the assembled cr is nibble k of the low word of
   * results[2k + 1]: every iteration sets its own nibble and no other.
   */
  lemma CrNibble(r: seq<bv64>, k: nat)
    requires |r| == 16 && k < 8
    ensures CrFields(r, 8) & NibbleMask(k) == Low32(r[2 * k + 1]) & NibbleMask(k)
  {
    CrFieldsAll(r);
    NibblesKept(Low32(r[1]), Low32(r[3]), Low32(r[5]), Low32(r[7]),
             Low32(r[9]), Low32(r[11]), Low32(r[13]), Low32(r[15]), k);
    PickField(r, k);
  }

  /** A step of AssembleCr's loop: the mask the C shifts into place at odd
      index i is the mask of nibble j, for i = 2j + 1. */
  lemma CrLoopMask(i: int, j: nat)
    requires j < 8 && i == 2 * j + 1
    ensures (0xf as bv32) << (2 * (i - 1)) == NibbleMask(j)
  {
    if j == 0 {} else if j == 1 {} else if j == 2 {} else if j == 3 {}
    else if j == 4 {} else if j == 5 {} else if j == 6 {} else {}
  }

  /**
   * The loop of ram_getcr that assembles cr from the scratch values of the
   * odd-numbered results[] slots.
   */
  method AssembleCr(results: seq<bv64>) returns (cr: bv32)
    requires |results| == 16
    ensures cr == CrFields(results, 8)
  {
    cr := 0;
    var i := 1;
    ghost var j := 0;
    while i < 16
      invariant j <= 8 && i == 2 * j + 1
      invariant cr == CrFields(results, j)
    {
      var crField := Low32(results[i]);
      CrFieldsNext(results, j);
      CrLoopMask(i, j);
      assert crField == Low32(results[2 * j + 1]);
      cr := cr | (crField & (0xf << (2 * (i - 1))));
      i, j := i + 2, j + 1;
    }
  }
}
