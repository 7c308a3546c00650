/**
 * One SBE FIFO transaction (sbefifo_operation, libsbefifo/operation.c):
 * send a request, read the reply, and split the reply into the response
 * data, the status header and any FFDC (first-failure data capture).
 *
 * A reply ends with a status header and a distance word:
 *
 *   data | 0xC0DE0000 | cmd  | status | FFDC | distance
 *
 * each header field a big-endian 32-bit word, and the distance the number
 * of words from the start of the status header to the end of the reply.
 *
 * The device file is an oracle held by the context: read(2) and write(2)
 * answer as functions of the transfers made so far, which the context
 * logs.  The FFDC store of the context (sbefifo_ffdc_clear and
 * sbefifo_ffdc_set, whose file is not part of this model) is two fields.
 */
module Sbefifo {
  datatype Option<T> = None | Some(value: T)

  type Byte = b: int | 0 <= b < 0x100

  /** 2^32: uint32_t arithmetic wraps modulo this. */
  const U32: int := 0x1_0000_0000

  // Linux errno values.
  const EIO: int := 5
  const EPROTO: int := 71

  /** Room reserved in the reply buffer for FFDC. */
  const SBEFIFO_MAX_FFDC_SIZE: nat := 0x2000
  /** The first word of a status header, ORed with the command. */
  const REPLY_MAGIC: nat := 0xc0de_0000
  /** What sbefifo_operation returns when the SBE reports a failure. */
  const SBE_FAILURE_RC: int := 201

  // ---------------------------------------------------------------------
  // The reply buffer size.

  /**
   * (*out_len + 0x2000 + 3) & ~(uint32_t)3: the expected reply length plus
   * FFDC room, rounded up to a whole word, computed in uint32_t.  Clearing
   * the low two bits of a non-negative number is rounding it down to a
   * multiple of 4.
   */
  function BufLen(outLen: nat): (b: nat)
    requires outLen < U32
    ensures b % 4 == 0 && b < U32
  {
    (outLen + SBEFIFO_MAX_FFDC_SIZE + 3) % U32 / 4 * 4
  }

  /** Without wrap-around the buffer holds the hint plus the FFDC room,
      and at most three bytes more. */
  lemma BufLenRoom(outLen: nat)
    requires outLen + SBEFIFO_MAX_FFDC_SIZE + 3 < U32
    ensures outLen + SBEFIFO_MAX_FFDC_SIZE <= BufLen(outLen) <= outLen + SBEFIFO_MAX_FFDC_SIZE + 3
  {
  }

  /** A hint within 0x2003 of 2^32 wraps the size around to almost nothing;
      0xFFFFE000 gives an empty buffer, which sbefifo_read refuses. */
  lemma BufLenWraps()
    ensures BufLen(0xffff_e000) == 0 && BufLen(0xffff_e004) == 4
  {
  }

  // ---------------------------------------------------------------------
  // Big-endian words.

  /** be32toh of the four bytes at i. */
  function Be32(s: seq<Byte>, i: nat): (w: nat)
    requires i + 4 <= |s|
    ensures w < U32
  {
    (s[i] as int) * 0x100_0000 + (s[i + 1] as int) * 0x1_0000 + (s[i + 2] as int) * 0x100 + s[i + 3] as int
  }

  /** The four bytes of a word in big-endian order (htobe32). */
  function Be32Bytes(x: nat): (s: seq<Byte>)
    requires x < U32
    ensures |s| == 4
  {
    var y := x / 0x100;
    var z := y / 0x100;
    [z / 0x100, z % 0x100, y % 0x100, x % 0x100]
  }

  /** Decoding an encoded word gives it back. */
  lemma Be32OfBytes(x: nat)
    requires x < U32
    ensures Be32(Be32Bytes(x), 0) == x
  {
  }

  /** Encoding a decoded word gives back its four bytes. */
  lemma BytesOfBe32(s: seq<Byte>, i: nat)
    requires i + 4 <= |s|
    ensures Be32Bytes(Be32(s, i)) == s[i..i + 4]
  {
    var x := Be32(s, i);
    var a, b, c, d := s[i] as int, s[i + 1] as int, s[i + 2] as int, s[i + 3] as int;
    DivPart(x, 0x100, a * 0x1_0000 + b * 0x100 + c, d);
    DivPart(a * 0x1_0000 + b * 0x100 + c, 0x100, a * 0x100 + b, c);
    DivPart(a * 0x100 + b, 0x100, a, b);
  }

  /** Quotient and remainder of x = q * m + r with 0 <= r < m. */
  lemma DivPart(x: int, m: int, q: int, r: int)
    requires m == 4 || m == 0x100
    requires 0 <= r < m && x == q * m + r
    ensures x / m == q && x % m == r
  {
  }

  /** A word read at position i of a longer sequence that holds it. */
  lemma Be32Within(s: seq<Byte>, prefix: seq<Byte>, x: nat)
    requires x < U32 && |prefix| + 4 <= |s| && s[|prefix|..|prefix| + 4] == Be32Bytes(x)
    ensures Be32(s, |prefix|) == x
  {
    Be32OfBytes(x);
    assert s[|prefix|..|prefix| + 4][0] == s[|prefix|];
    assert s[|prefix|..|prefix| + 4][1] == s[|prefix| + 1];
    assert s[|prefix|..|prefix| + 4][2] == s[|prefix| + 2];
    assert s[|prefix|..|prefix| + 4][3] == s[|prefix| + 3];
  }

  // ---------------------------------------------------------------------
  // Splitting a reply.

  /** What a reply comes to. */
  datatype Parsed =
    | TooShort                                          // fewer than three words
    | BadOffset(outLen: nat)                            // distance word points outside the reply
    | BadHeader(outLen: nat)                            // header is not 0xC0DE0000 | cmd
    | Failed(outLen: nat, status: nat, ffdc: seq<Byte>) // the SBE reports a failure
    | Done(out: seq<Byte>)                              // the response data
    | PastEnd(outLen: nat)                              // reads bytes the device did not send

  /** *out as a parsed reply leaves it: written only with response data. */
  function OutOf(p: Parsed): Option<seq<Byte>>
  {
    if p.Done? then Some(p.out) else None
  }

  /** *out_len as a parsed reply leaves it: the offset of the status
      header once the reply holds three words, else the caller's hint. */
  function OutLenOf(p: Parsed, outLen: nat): nat
  {
    match p
    case Done(out) => |out|
    case Failed(offset, _, _) => offset
    case BadHeader(offset) => offset
    case PastEnd(offset) => offset
    case BadOffset(offset) => offset
    case TooShort => outLen
  }

  /** The FFDC status a parsed reply stores. */
  function FfdcStatusOf(p: Parsed): nat
  {
    if p.Failed? then p.status else 0
  }

  /** The FFDC bytes a parsed reply stores. */
  function FfdcOf(p: Parsed): seq<Byte>
  {
    if p.Failed? then p.ffdc else []
  }

  /** The return code of a parsed reply. */
  function ParsedRc(p: Parsed): (rc: int)
    ensures rc == 0 <==> p.Done?
  {
    match p
    case Done(_) => 0
    case Failed(_, _, _) => SBE_FAILURE_RC
    case _ => EPROTO
  }

  /** The offset sbefifo_operation computes from a reply of n bytes and
      its distance word: buflen - offset_word * 4 in uint32_t. */
  function WrappedOffset(n: nat, distance: nat): (o: nat)
    ensures o < U32
    ensures 4 * distance <= n < U32 ==> o == n - 4 * distance
  {
    (n - distance * 4 % U32) % U32
  }

  /**
   * The reply split as sbefifo_operation means to: at least three words,
   * a distance word that leaves room for the two header words inside the
   * reply, the magic header for cmd, then the status.  The response data
   * is everything before the header, the FFDC everything between the
   * status and the distance word.  The header test is written with + since
   * cmd has 16 bits and the magic none in its low half.  A rejected
   * distance still leaves in *out_len the uint32_t offset the C computes
   * from it.
   */
  function Parse(r: seq<Byte>, cmd: nat): (p: Parsed)
    requires cmd < 0x1_0000
    ensures p.Done? ==> |p.out| + 12 <= |r|
    ensures p.PastEnd? == false
  {
    var n := |r|;
    if n < 12 then TooShort
    else
      var distance := Be32(r, n - 4);
      if distance < 3 || 4 * distance > n then BadOffset(WrappedOffset(n, distance))
      else
        var offset := n - 4 * distance;
        var header := Be32(r, offset);
        var status := Be32(r, offset + 4);
        if header != REPLY_MAGIC + cmd then BadHeader(offset)
        else if status != 0 then Failed(offset, status, r[offset + 8..n - 4])
        else Done(r[..offset])
  }

  /** A reply as the SBE builds it: data, header for cmd, status, FFDC and
      the distance word. */
  function Frame(out: seq<Byte>, cmd: nat, status: nat, ffdc: seq<Byte>): (r: seq<Byte>)
    requires cmd < 0x1_0000 && status < U32 && |ffdc| % 4 == 0 && |ffdc| + 12 < U32
    ensures |r| == |out| + |ffdc| + 12
  {
    out + Be32Bytes(REPLY_MAGIC + cmd) + Be32Bytes(status) + ffdc + Be32Bytes((|ffdc| + 12) / 4)
  }

  /** Every well-formed reply splits back into its parts: a zero status
      gives the data, any other the status and the FFDC. */
  lemma {:induction false} ParseFrame(out: seq<Byte>, cmd: nat, status: nat, ffdc: seq<Byte>)
    requires cmd < 0x1_0000 && status < U32 && |ffdc| % 4 == 0 && |ffdc| + 12 < U32
    ensures Parse(Frame(out, cmd, status, ffdc), cmd)
            == if status == 0 then Done(out) else Failed(|out|, status, ffdc)
  {
    var r := Frame(out, cmd, status, ffdc);
    var n := |r|;
    var h := out;
    var s := out + Be32Bytes(REPLY_MAGIC + cmd);
    var f := s + Be32Bytes(status);
    var d := f + ffdc;
    assert r == d + Be32Bytes((|ffdc| + 12) / 4);
    assert r[|d|..|d| + 4] == Be32Bytes((|ffdc| + 12) / 4);
    Be32Within(r, d, (|ffdc| + 12) / 4);
    assert |d| == n - 4;
    assert n - 4 * ((|ffdc| + 12) / 4) == |out|;
    assert r[|h|..|h| + 4] == Be32Bytes(REPLY_MAGIC + cmd);
    Be32Within(r, h, REPLY_MAGIC + cmd);
    assert r[|s|..|s| + 4] == Be32Bytes(status);
    Be32Within(r, s, status);
    assert r[..|out|] == out;
    assert r[|out| + 8..n - 4] == ffdc;
  }

  /** A reply whose header words at offset and whose distance word agree
      is the frame of its parts. */
  lemma FrameOfParts(r: seq<Byte>, offset: nat, cmd: nat, status: nat)
    requires offset + 12 <= |r| < U32 && cmd < 0x1_0000 && status < U32
    requires Be32(r, offset) == REPLY_MAGIC + cmd && Be32(r, offset + 4) == status
    requires 4 * Be32(r, |r| - 4) == |r| - offset
    ensures (|r| - offset - 12) % 4 == 0
    ensures r == Frame(r[..offset], cmd, status, r[offset + 8..|r| - 4])
  {
    var n := |r|;
    var ffdc := r[offset + 8..n - 4];
    var d := Be32(r, n - 4);
    assert |ffdc| + 12 == 4 * d;
    DivPart(|ffdc| + 12, 4, d, 0);
    BytesOfBe32(r, offset);
    BytesOfBe32(r, offset + 4);
    BytesOfBe32(r, n - 4);
    Slices(r, offset, offset + 4, offset + 8, n - 4);
  }

  /** A sequence is the concatenation of its slices at a <= b <= c <= d. */
  lemma Slices<T>(s: seq<T>, a: nat, b: nat, c: nat, d: nat)
    requires a <= b <= c <= d <= |s|
    ensures s == s[..a] + s[a..b] + s[b..c] + s[c..d] + s[d..]
  {
    assert s[..b] == s[..a] + s[a..b];
    assert s[..c] == s[..b] + s[b..c];
    assert s[..d] == s[..c] + s[c..d];
    assert s == s[..d] + s[d..];
  }

  /** A reply that yields data is the frame of that data with a zero
      status. */
  lemma ParseDoneFrame(r: seq<Byte>, cmd: nat)
    requires cmd < 0x1_0000 && |r| < U32 && Parse(r, cmd).Done?
    ensures var out := Parse(r, cmd).out;
            |out| + 12 <= |r| && (|r| - |out| - 12) % 4 == 0
            && r == Frame(out, cmd, 0, r[|out| + 8..|r| - 4])
  {
    FrameOfParts(r, |Parse(r, cmd).out|, cmd, 0);
  }

  /** A reply that reports a failure is the frame of its status and FFDC. */
  lemma ParseFailedFrame(r: seq<Byte>, cmd: nat)
    requires cmd < 0x1_0000 && |r| < U32 && Parse(r, cmd).Failed?
    ensures var p := Parse(r, cmd);
            p.outLen + 12 <= |r| && p.status < U32 && |p.ffdc| % 4 == 0 && p.status != 0
            && r == Frame(r[..p.outLen], cmd, p.status, p.ffdc)
  {
    var p := Parse(r, cmd);
    FrameOfParts(r, p.outLen, cmd, p.status);
  }

  /**
   * The split as sbefifo_operation writes it: the distance word is taken on
   * trust.  offset, offset + 4 and offset + 8 are uint32_t sums, and the
   * FFDC length buflen - offset - 4 is a size_t difference, so a distance
   * word below 3 or beyond the reply sends the header, status or FFDC
   * reads past the bytes received (PastEnd), where the C reads whatever
   * the buffer held.  *out_len is set to the offset before the header is
   * looked at.
   */
  function ParseAsWritten(r: seq<Byte>, cmd: nat): (p: Parsed)
    requires cmd < 0x1_0000 && |r| < U32
    ensures p.BadOffset? == false
  {
    var n := |r|;
    if n < 12 then TooShort
    else
      var distance := Be32(r, n - 4);
      var offset := WrappedOffset(n, distance);
      var statusAt := (offset + 4) % U32;
      var ffdcAt := (offset + 8) % U32;
      if offset + 4 > n || statusAt + 4 > n then PastEnd(offset)
      else
        var header := Be32(r, offset);
        var status := Be32(r, statusAt);
        if header != REPLY_MAGIC + cmd then BadHeader(offset)
        else if status != 0 then
          if ffdcAt + 4 > n then PastEnd(offset) else Failed(offset, status, r[ffdcAt..n - 4])
        else Done(r[..offset])
  }

  /** Where the distance word is sane the two splits agree. */
  lemma AsWrittenAgrees(r: seq<Byte>, cmd: nat)
    requires cmd < 0x1_0000 && 12 <= |r| < U32
    requires 3 <= Be32(r, |r| - 4) && 4 * Be32(r, |r| - 4) <= |r|
    ensures ParseAsWritten(r, cmd) == Parse(r, cmd)
  {
    var n := |r|;
    var distance := Be32(r, n - 4);
    assert distance * 4 % U32 == 4 * distance;
    assert (n - 4 * distance) % U32 == n - 4 * distance;
    assert (n - 4 * distance + 4) % U32 == n - 4 * distance + 4;
    assert (n - 4 * distance + 8) % U32 == n - 4 * distance + 8;
  }

  /** A three-word reply whose distance word is 0: the C reads its header
      and status from the four bytes after the reply, where Parse rejects
      it. */
  lemma AsWrittenReadsPastReply()
    ensures var r: seq<Byte> := [0xc0, 0xde, 0x00, 0x01, 0, 0, 0, 0, 0, 0, 0, 0];
            ParseAsWritten(r, 1) == PastEnd(12) && Parse(r, 1) == BadOffset(12)
  {
    var r: seq<Byte> := [0xc0, 0xde, 0x00, 0x01, 0, 0, 0, 0, 0, 0, 0, 0];
    assert |r| == 12 && Be32(r, |r| - 4) == 0;
    assert WrappedOffset(|r|, 0) == 12;
  }

  /** Whatever the SBE sends, Parse never falls off the reply, and rejects
      every reply on which the C would. */
  lemma ParseRejectsPastEnd(r: seq<Byte>, cmd: nat)
    requires cmd < 0x1_0000 && |r| < U32 && ParseAsWritten(r, cmd).PastEnd?
    ensures Parse(r, cmd) == BadOffset(ParseAsWritten(r, cmd).outLen)
  {
    var n := |r|;
    var distance := Be32(r, n - 4);
    if 3 <= distance && 4 * distance <= n {
      AsWrittenAgrees(r, cmd);
    }
  }

  /** What sbefifo_operation hands back for a parsed reply: its code,
      *out, *out_len and the FFDC it keeps. */
  predicate SameOutcome(p: Parsed, q: Parsed, outLen: nat)
  {
    ParsedRc(p) == ParsedRc(q) && OutOf(p) == OutOf(q) && OutLenOf(p, outLen) == OutLenOf(q, outLen)
    && FfdcStatusOf(p) == FfdcStatusOf(q) && FfdcOf(p) == FfdcOf(q)
  }

  /** Apart from the replies the C reads past, the two splits hand back the
      same outcome whenever distance * 4 does not wrap around. */
  lemma AsWrittenSameOutcome(r: seq<Byte>, cmd: nat, outLen: nat)
    requires cmd < 0x1_0000 && |r| < U32 && !ParseAsWritten(r, cmd).PastEnd?
    requires |r| < 12 || Be32(r, |r| - 4) < 0x4000_0000
    ensures SameOutcome(Parse(r, cmd), ParseAsWritten(r, cmd), outLen)
  {
    var n := |r|;
    if 12 <= n {
      var distance := Be32(r, n - 4);
      if 3 <= distance && 4 * distance <= n {
        AsWrittenAgrees(r, cmd);
      } else if 4 * distance <= n {
        assert WrappedOffset(n, distance) == n - 4 * distance;
      }
    }
  }

  /** A 14-byte reply whose distance word 0x40000003 wraps: 4 * distance
      is 12 modulo 2^32, so the C finds the header at byte 2 and returns
      the two bytes before it, where Parse rejects the distance. */
  lemma AsWrittenAcceptsWrappedDistance()
    ensures var r: seq<Byte> := [0xaa, 0xbb, 0xc0, 0xde, 0x00, 0x01, 0, 0, 0, 0, 0x40, 0, 0, 0x03];
            ParseAsWritten(r, 1) == Done([0xaa, 0xbb]) && Parse(r, 1) == BadOffset(2)
  {
    var r: seq<Byte> := [0xaa, 0xbb, 0xc0, 0xde, 0x00, 0x01, 0, 0, 0, 0, 0x40, 0, 0, 0x03];
    assert |r| == 14 && Be32(r, |r| - 4) == 0x4000_0003;
    assert WrappedOffset(14, 0x4000_0003) == 2;
    assert Be32(r, 2) == REPLY_MAGIC + 1 && Be32(r, 6) == 0;
    assert r[..2] == [0xaa, 0xbb];
  }

  // ---------------------------------------------------------------------
  // The device and the context.

  /** A failed system call sets errno to a positive code. */
  type Errno = e: int | e > 0 witness EIO

  /** The answer of write(2): the bytes taken, or a failure with errno. */
  datatype WriteAnswer = Written(count: nat) | WriteFailed(errno: Errno)
  /** The answer of read(2): the bytes delivered, or a failure with errno. */
  datatype ReadAnswer = Delivered(bytes: seq<Byte>) | ReadFailed(errno: Errno)

  /** One transfer on the device file. */
  datatype Transfer = Sent(msg: seq<Byte>, wrote: WriteAnswer) | Received(capacity: nat, got: ReadAnswer)

  /** sbefifo_write's return code: errno, EIO for a short write, else 0. */
  function WriteRc(a: WriteAnswer, len: nat): (rc: int)
    ensures rc == 0 <==> a.Written? && a.count == len
  {
    match a
    case WriteFailed(errno) => errno
    case Written(count) => if count != len then EIO else 0
  }

  /** What read(2) leaves in a buffer of the given capacity: it never
      delivers more than asked for. */
  function ReadInto(bytes: seq<Byte>, capacity: nat): (s: seq<Byte>)
    ensures |s| <= capacity && |s| <= |bytes| && s == bytes[..|s|]
    ensures |bytes| <= capacity ==> s == bytes
  {
    if |bytes| <= capacity then bytes else bytes[..capacity]
  }

  /** struct sbefifo_context: the device file and the FFDC of the last
      operation. */
  class Context {
    const write: (seq<Transfer>, seq<Byte>) -> WriteAnswer
    const read: (seq<Transfer>, nat) -> ReadAnswer
    /** Every transfer made on the device so far. */
    var log: seq<Transfer>
    var ffdcStatus: nat
    var ffdc: seq<Byte>

    constructor (write: (seq<Transfer>, seq<Byte>) -> WriteAnswer, read: (seq<Transfer>, nat) -> ReadAnswer)
      ensures this.write == write && this.read == read && log == [] && ffdcStatus == 0 && ffdc == []
    {
      this.write := write;
      this.read := read;
      log := [];
      ffdcStatus := 0;
      ffdc := [];
    }

    /** sbefifo_write: one write(2) of the whole message. */
    method Write(msg: seq<Byte>) returns (rc: int)
      requires |msg| > 0
      modifies this`log
      ensures rc == WriteRc(write(old(log), msg), |msg|)
      ensures log == old(log) + [Sent(msg, write(old(log), msg))]
    {
      var a := write(log, msg);
      log := log + [Sent(msg, a)];
      rc := WriteRc(a, |msg|);
    }

    /** sbefifo_read: one read(2) into a buffer of the given capacity. */
    method Read(capacity: nat) returns (rc: int, buf: seq<Byte>)
      requires capacity > 0
      modifies this`log
      ensures var a := read(old(log), capacity);
              log == old(log) + [Received(capacity, a)]
              && (if a.ReadFailed? then rc == a.errno && buf == [] else rc == 0 && buf == ReadInto(a.bytes, capacity))
    {
      var a := read(log, capacity);
      log := log + [Received(capacity, a)];
      if a.ReadFailed? {
        return a.errno, [];
      }
      return 0, ReadInto(a.bytes, capacity);
    }

    /**
     * The part of sbefifo_operation after the reply is in: split it with
     * Parse, keep the FFDC of a failure, and hand back the code, the
     * response data and the new *out_len.
     */
    method Finish(buf: seq<Byte>, cmd: nat, outLen: nat) returns (rc: int, out: Option<seq<Byte>>, outLen': nat)
      requires cmd < 0x1_0000
      requires ffdcStatus == 0 && ffdc == []
      modifies this`ffdcStatus, this`ffdc
      ensures var p := Parse(buf, cmd);
              rc == ParsedRc(p) && out == OutOf(p) && outLen' == OutLenOf(p, outLen)
              && ffdcStatus == FfdcStatusOf(p) && ffdc == FfdcOf(p)
    {
      var n := |buf|;
      if n < 12 {
        return EPROTO, None, outLen;
      }
      var distance := Be32(buf, n - 4);
      if distance < 3 || 4 * distance > n {
        return EPROTO, None, WrappedOffset(n, distance);
      }
      var offset := n - 4 * distance;
      outLen' := offset;
      var header := Be32(buf, offset);
      offset := offset + 4;
      var status := Be32(buf, offset);
      offset := offset + 4;
      if header != REPLY_MAGIC + cmd {
        return EPROTO, None, outLen';
      }
      if status != 0 {
        ffdcStatus, ffdc := status, buf[offset..n - 4];
        return SBE_FAILURE_RC, None, outLen';
      }
      return 0, Some(buf[..outLen']), outLen';
    }

    /**
     * sbefifo_operation: clear the FFDC, send msg, read a reply into a
     * buffer sized from the hint outLen, and split it with Parse.  It
     * returns the code, the response data (None where *out is not
     * written; Some([]) for the NULL of an empty response) and the new
     * *out_len.
     */
    method Operation(msg: seq<Byte>, cmd: nat, outLen: nat) returns (rc: int, out: Option<seq<Byte>>, outLen': nat)
      requires |msg| > 0 && cmd < 0x1_0000 && outLen < U32
      requires BufLen(outLen) > 0
      modifies this`log, this`ffdcStatus, this`ffdc
      ensures var t := old(log);
              var sent := Sent(msg, write(t, msg));
              var wrc := WriteRc(write(t, msg), |msg|);
              if wrc != 0 then
                rc == wrc && log == t + [sent] && out == None && outLen' == outLen
                && ffdcStatus == 0 && ffdc == []
              else
                var got := read(t + [sent], BufLen(outLen));
                log == t + [sent, Received(BufLen(outLen), got)]
                && if got.ReadFailed? then
                     rc == got.errno && out == None && outLen' == outLen && ffdcStatus == 0 && ffdc == []
                   else
                     var p := Parse(ReadInto(got.bytes, BufLen(outLen)), cmd);
                     rc == ParsedRc(p) && out == OutOf(p) && outLen' == OutLenOf(p, outLen)
                     && ffdcStatus == FfdcStatusOf(p) && ffdc == FfdcOf(p)
    {
      ffdcStatus, ffdc := 0, [];
      var buflen := BufLen(outLen);
      rc := Write(msg);
      if rc != 0 {
        return rc, None, outLen;
      }
      var buf;
      rc, buf := Read(buflen);
      if rc != 0 {
        return rc, None, outLen;
      }
      rc, out, outLen' := Finish(buf, cmd, outLen);
    }
  }
}
