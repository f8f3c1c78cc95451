/**
  The three paths from user space into an instance's buffer in drv/zndkcdev.c:
  the stream `read`/`write` handlers, the offset-addressed helpers behind the
  BUF_RD / BUF_WR commands, and the `mmap` size gate. Each is a pure function
  of the buffer (`dcb->buf`, `dcb->len_buf == LEN_ZNDKCDEV_BUF` bytes) and of
  the point where a user-memory copy meets a fault, which is an input.
 */
module BufferAccess {
  import opened Types
  import opened Header

  /** A well-formed instance buffer: exactly `LEN_ZNDKCDEV_BUF` bytes. */
  predicate IsBuffer(b: seq<byte>) {
    |b| == LEN_ZNDKCDEV_BUF
  }

  /** The buffer `kzalloc` hands out: all bytes zero. */
  function ZeroBuffer(): (b: seq<byte>)
    ensures IsBuffer(b)
    ensures forall i | 0 <= i < |b| :: b[i] == 0
  {
    Zeros(LEN_ZNDKCDEV_BUF)
  }

  /** `n` zero bytes: what `copy_from_user` pads a failed copy with. */
  function Zeros(n: nat): (z: seq<byte>)
    ensures |z| == n
    ensures forall i | 0 <= i < n :: z[i] == 0
  {
    seq(n, _ => 0 as byte)
  }

  /**
    Where the user memory a copy touches stops being accessible: nowhere
    (`NoFault`), or after its first `at` bytes. The kernel only promises that a
    failing copy stops somewhere short of the end, so the stopping point is an
    input of the model.
   */
  datatype Fault = NoFault | FaultAt(at: nat)

  /** A copy of `n` bytes meets no fault. */
  predicate Completes(n: nat, f: Fault) {
    f.FaultAt? ==> n <= f.at
  }

  /** How many of `n` bytes a copy moves before it stops. */
  function Reach(n: nat, f: Fault): (k: nat)
    ensures k <= n
    ensures k == n <==> Completes(n, f)
    ensures k < n ==> k == f.at
  {
    if f.FaultAt? && f.at < n then f.at else n
  }

  /**
    Result of a user copy: `left` is the count of bytes not copied (the
    value `copy_to_user` / `copy_from_user` return) and `data` is what arrived
    at the destination.
   */
  datatype Copied = Copied(left: nat, data: seq<byte>)

  /**
    `copy_from_user` of `n` bytes from user memory holding `src`: reading past
    `src` faults like reading at a fault point. The first bytes up to the stop
    are the user's; a failed copy fills the rest of the `n` destination bytes
    with zeros. Nothing is left over iff the copy met neither end.
   */
  function CopyFromUser(src: seq<byte>, n: nat, f: Fault): (r: Copied)
    ensures |r.data| == n && r.left <= n && n - r.left <= |src|
    ensures r.left == 0 <==> n <= |src| && Completes(n, f)
    ensures r.left == 0 ==> r.data == src[..n]
    ensures r.data[..n - r.left] == src[..n - r.left]
    ensures forall i | n - r.left <= i < n :: r.data[i] == 0
  {
    var k := Min(Reach(n, f), |src|);
    Copied(n - k, src[..k] + Zeros(n - k))
  }

  /**
    `copy_to_user` of `data`: the user receives the bytes before the fault
    point and nothing is padded.
   */
  function CopyToUser(data: seq<byte>, f: Fault): (r: Copied)
    ensures r.left <= |data| && r.data == data[..|data| - r.left]
    ensures r.left == 0 <==> Completes(|data|, f)
  {
    var k := Reach(|data|, f);
    Copied(|data| - k, data[..k])
  }

  /** The length both stream handlers transfer: `min(count, len_buf)`. */
  function StreamLen(count: nat): (n: nat)
    ensures n <= count && n <= LEN_ZNDKCDEV_BUF
    ensures n == count || n == LEN_ZNDKCDEV_BUF
  {
    Min(count, LEN_ZNDKCDEV_BUF)
  }

  /** Result of a kernel-to-user transfer: the status returned and the bytes the caller received. */
  datatype ReadOutcome = ReadOutcome(status: int, data: seq<byte>)

  /** Result of a user-to-kernel transfer: the status returned and the buffer afterwards. */
  datatype WriteOutcome = WriteOutcome(status: int, buf: seq<byte>)

  /**
    `zndkcdev_read`: a position at or past the end reads nothing; otherwise the
    first `min(count, len_buf)` bytes of the buffer are copied out, whatever
    the position. A faulting copy reports 0, although the user has already
    received the bytes before the fault. No buffer is returned: the read path
    cannot change it.
   */
  function StreamRead(buf: seq<byte>, count: nat, fpos: int, f: Fault): (r: ReadOutcome)
    requires IsBuffer(buf)
    ensures 0 <= r.status <= count && r.status <= LEN_ZNDKCDEV_BUF
    ensures fpos >= LEN_ZNDKCDEV_BUF ==> r == ReadOutcome(0, [])
    ensures fpos < LEN_ZNDKCDEV_BUF ==> r.data == buf[..Reach(StreamLen(count), f)]
    ensures fpos < LEN_ZNDKCDEV_BUF ==>
              r.status == (if Completes(StreamLen(count), f) then StreamLen(count) else 0)
  {
    if fpos >= LEN_ZNDKCDEV_BUF then ReadOutcome(0, [])
    else
      var len := StreamLen(count);
      var c := CopyToUser(buf[..len], f);
      if c.left != 0 then ReadOutcome(0, c.data)
      else ReadOutcome(len, c.data)
  }

  /**
    `zndkcdev_write`: the same position guard and length rule as the read
    handler. Bytes `[0, len)` of the buffer take whatever `copy_from_user`
    stored there, the user's bytes up to the fault and zeros after it, and
    `len` is returned only when nothing was left over.
   */
  function StreamWrite(buf: seq<byte>, src: seq<byte>, count: nat, fpos: int, f: Fault): (r: WriteOutcome)
    requires IsBuffer(buf)
    ensures IsBuffer(r.buf)
    ensures 0 <= r.status <= count && r.status <= LEN_ZNDKCDEV_BUF
    ensures fpos >= LEN_ZNDKCDEV_BUF ==> r == WriteOutcome(0, buf)
    ensures fpos < LEN_ZNDKCDEV_BUF ==>
              var c := CopyFromUser(src, StreamLen(count), f);
              && r.status == (if c.left == 0 then StreamLen(count) else 0)
              && r.buf == c.data + buf[StreamLen(count)..]
    ensures fpos < LEN_ZNDKCDEV_BUF && StreamLen(count) <= |src| && Completes(StreamLen(count), f) ==>
              && r.status == StreamLen(count)
              && r.buf[..StreamLen(count)] == src[..StreamLen(count)]
              && r.buf[StreamLen(count)..] == buf[StreamLen(count)..]
  {
    if fpos >= LEN_ZNDKCDEV_BUF then WriteOutcome(0, buf)
    else
      var len := StreamLen(count);
      var c := CopyFromUser(src, len, f);
      var nb := c.data + buf[len..];
      assert nb[..len] == c.data && nb[len..] == buf[len..];
      if c.left != 0 then WriteOutcome(0, nb)
      else WriteOutcome(len, nb)
  }

  /**
    Bytes `zndkcdev_buf_rd` / `zndkcdev_buf_wr` transfer for an in-range
    offset: `min(len, len_buf - ofs - 1)`. The range never reaches the last byte.
   */
  function CopyLen(ofs: int, len: int): (n: nat)
    requires 0 <= ofs < LEN_ZNDKCDEV_BUF && len >= 0
    ensures n <= len && ofs + n < LEN_ZNDKCDEV_BUF
    ensures n == len || ofs + n == LEN_ZNDKCDEV_BUF - 1
  {
    Min(len, LEN_ZNDKCDEV_BUF - ofs - 1)
  }

  /** Status codes of the offset-addressed helpers. */
  const RW_OK: int := 0
  const RW_FAULT: int := -1
  const RW_RANGE: int := -2

  /**
    `zndkcdev_buf_rd`: an offset at or past the end is refused with -2; for an
    in-range offset the slice `[ofs, ofs + CopyLen)` is copied to the user,
    with status 0, or -1 when the copy faults, in which case the user holds
    the part before the fault.
   */
  function BufRd(buf: seq<byte>, m: MemMsg, f: Fault): (r: ReadOutcome)
    requires IsBuffer(buf)
    requires m.ofs >= 0 && m.len >= 0
    ensures r.status in {RW_OK, RW_FAULT, RW_RANGE}
    ensures r.status == RW_RANGE <==> m.ofs >= LEN_ZNDKCDEV_BUF
    ensures r.status == RW_FAULT <==> m.ofs < LEN_ZNDKCDEV_BUF && !Completes(CopyLen(m.ofs, m.len), f)
    ensures r.status == RW_RANGE ==> r.data == []
    ensures m.ofs < LEN_ZNDKCDEV_BUF ==>
              r.data == buf[m.ofs..m.ofs + Reach(CopyLen(m.ofs, m.len), f)]
  {
    if m.ofs < LEN_ZNDKCDEV_BUF then
      var len := CopyLen(m.ofs, m.len);
      var c := CopyToUser(buf[m.ofs..m.ofs + len], f);
      if c.left != 0 then ReadOutcome(RW_FAULT, c.data)
      else ReadOutcome(RW_OK, c.data)
    else
      ReadOutcome(RW_RANGE, [])
  }

  /**
    `zndkcdev_buf_wr`: the same checks as `BufRd`. For an in-range offset
    exactly the bytes `[ofs, ofs + CopyLen)` take what `copy_from_user` stored,
    whether or not it faulted, and nothing else changes; the status is -1 when
    bytes were left over. An out-of-range request leaves the buffer untouched.
   */
  function BufWr(buf: seq<byte>, m: MemMsg, src: seq<byte>, f: Fault): (r: WriteOutcome)
    requires IsBuffer(buf)
    requires m.ofs >= 0 && m.len >= 0
    ensures IsBuffer(r.buf)
    ensures r.status in {RW_OK, RW_FAULT, RW_RANGE}
    ensures r.status == RW_RANGE <==> m.ofs >= LEN_ZNDKCDEV_BUF
    ensures r.status == RW_FAULT <==>
              m.ofs < LEN_ZNDKCDEV_BUF && CopyFromUser(src, CopyLen(m.ofs, m.len), f).left != 0
    ensures r.status == RW_RANGE ==> r.buf == buf
    ensures m.ofs < LEN_ZNDKCDEV_BUF ==>
              var n := CopyLen(m.ofs, m.len);
              && r.buf[m.ofs..m.ofs + n] == CopyFromUser(src, n, f).data
              && r.buf[..m.ofs] == buf[..m.ofs]
              && r.buf[m.ofs + n..] == buf[m.ofs + n..]
    ensures r.status == RW_OK ==>
              var n := CopyLen(m.ofs, m.len);
              n <= |src| && r.buf[m.ofs..m.ofs + n] == src[..n]
  {
    if m.ofs < LEN_ZNDKCDEV_BUF then
      var len := CopyLen(m.ofs, m.len);
      var c := CopyFromUser(src, len, f);
      var nb := buf[..m.ofs] + c.data + buf[m.ofs + len..];
      assert nb[m.ofs..m.ofs + len] == c.data;
      assert nb[..m.ofs] == buf[..m.ofs];
      assert nb[m.ofs + len..] == buf[m.ofs + len..];
      if c.left != 0 then WriteOutcome(RW_FAULT, nb)
      else WriteOutcome(RW_OK, nb)
    else
      WriteOutcome(RW_RANGE, buf)
  }

  /** Result of `zndkcdev_mmap`: its status and, on success, the length now mapped. */
  datatype MmapOutcome = MmapOutcome(status: int, mapped: Option<nat>)

  /**
    `zndkcdev_mmap`: a request longer than `LEN_ZNDKCDEV_BUF` is refused with
    -EAGAIN before `remap_pfn_range` is consulted; a failing remap is refused the
    same way; otherwise the requested length is mapped and 0 returned.
   */
  function Mmap(lenReq: nat, remapOk: bool): (r: MmapOutcome)
    ensures r.status == 0 || r.status == -EAGAIN
    ensures r.status == 0 <==> r.mapped.Some?
    ensures r.mapped.Some? <==> lenReq <= LEN_ZNDKCDEV_BUF && remapOk
    ensures r.mapped.Some? ==> r.mapped.value == lenReq
  {
    if lenReq > LEN_ZNDKCDEV_BUF then MmapOutcome(-EAGAIN, None)
    else if !remapOk then MmapOutcome(-EAGAIN, None)
    else MmapOutcome(0, Some(lenReq))
  }

  /** The mapping is the buffer's own storage: what a mapper sees of its first `mapLen` bytes. */
  function MappedView(buf: seq<byte>, mapLen: nat): (v: seq<byte>)
    requires mapLen <= |buf|
    ensures |v| == mapLen
    ensures forall i | 0 <= i < mapLen :: v[i] == buf[i]
  {
    buf[..mapLen]
  }

  /** Stores through the mapping at offsets `0, 1, ..., |data| - 1`, in that order. */
  function MappedStores(buf: seq<byte>, mapLen: nat, data: seq<byte>): (r: seq<byte>)
    requires |data| <= mapLen <= |buf|
    ensures |r| == |buf|
    ensures r[..|data|] == data
    ensures r[|data|..] == buf[|data|..]
    decreases |data|
  {
    if |data| == 0 then buf
    else
      var n := |data| - 1;
      var prev := MappedStores(buf, mapLen, data[..n]);
      assert prev[..n] == data[..n];
      var r := prev[n := data[n]];
      assert r[..|data|] == data by {
        forall i | 0 <= i < |data| ensures r[i] == data[i] {
          if i < n { assert r[i] == prev[i] == prev[..n][i]; }
        }
      }
      assert r[|data|..] == prev[|data|..];
      r
  }

  // ---------------------------------------------------------------------
  // Properties relating the access paths.

  /** Stream-writing `n` bytes and stream-reading `n` bytes returns them, at any in-range positions. */
  lemma StreamRoundTrip(buf: seq<byte>, src: seq<byte>, n: nat, wpos: int, rpos: int)
    requires IsBuffer(buf)
    requires n <= LEN_ZNDKCDEV_BUF && n <= |src|
    requires wpos < LEN_ZNDKCDEV_BUF && rpos < LEN_ZNDKCDEV_BUF
    ensures var w := StreamWrite(buf, src, n, wpos, NoFault);
            && w.status == n
            && StreamRead(w.buf, n, rpos, NoFault) == ReadOutcome(n, src[..n])
  {
  }

  /** The stream handlers ignore the position beyond its bounds check. */
  lemma StreamIgnoresPosition(buf: seq<byte>, src: seq<byte>, count: nat, p: int, q: int, f: Fault)
    requires IsBuffer(buf)
    requires p < LEN_ZNDKCDEV_BUF && q < LEN_ZNDKCDEV_BUF
    ensures StreamRead(buf, count, p, f) == StreamRead(buf, count, q, f)
    ensures StreamWrite(buf, src, count, p, f) == StreamWrite(buf, src, count, q, f)
  {
  }

  /** Writing back what `BufRd` returned, at the same offset and length, leaves the buffer unchanged. */
  lemma BufReadWriteBack(buf: seq<byte>, m: MemMsg)
    requires IsBuffer(buf)
    requires 0 <= m.ofs < LEN_ZNDKCDEV_BUF && m.len >= 0
    ensures var rd := BufRd(buf, m, NoFault);
            && rd.status == RW_OK
            && BufWr(buf, m, rd.data, NoFault) == WriteOutcome(RW_OK, buf)
  {
  }

  /** `BufWr` followed by `BufRd` of the same range returns the bytes written. */
  lemma BufWriteReadRoundTrip(buf: seq<byte>, m: MemMsg, src: seq<byte>)
    requires IsBuffer(buf)
    requires 0 <= m.ofs < LEN_ZNDKCDEV_BUF && m.len >= 0
    requires CopyLen(m.ofs, m.len) <= |src|
    ensures var w := BufWr(buf, m, src, NoFault);
            && w.status == RW_OK
            && BufRd(w.buf, m, NoFault) == ReadOutcome(RW_OK, src[..CopyLen(m.ofs, m.len)])
  {
  }

  /** Neither helper can touch the last byte; a request for the whole buffer moves `len_buf - 1` bytes. */
  lemma BufRwReservesLastByte(buf: seq<byte>, m: MemMsg, src: seq<byte>, f: Fault)
    requires IsBuffer(buf)
    requires m.ofs >= 0 && m.len >= 0
    ensures BufWr(buf, m, src, f).buf[LEN_ZNDKCDEV_BUF - 1] == buf[LEN_ZNDKCDEV_BUF - 1]
    ensures m.ofs == 0 && m.len >= LEN_ZNDKCDEV_BUF ==> CopyLen(m.ofs, m.len) == LEN_ZNDKCDEV_BUF - 1
    ensures m.ofs == 0 && m.len >= LEN_ZNDKCDEV_BUF ==> |BufRd(buf, m, f).data| == Reach(LEN_ZNDKCDEV_BUF - 1, f)
  {
    var w := BufWr(buf, m, src, f);
    if m.ofs < LEN_ZNDKCDEV_BUF {
      var n := CopyLen(m.ofs, m.len);
      assert w.buf[m.ofs + n..][LEN_ZNDKCDEV_BUF - 1 - (m.ofs + n)] == w.buf[LEN_ZNDKCDEV_BUF - 1];
    }
  }

  /**
    A stream write that faults after `k` of its `len` bytes reports 0, yet the
    buffer already holds the user's first `k` bytes followed by `len - k`
    zeros; the bytes past `len` are untouched.
   */
  lemma FaultingWriteZeroFills(buf: seq<byte>, src: seq<byte>, count: nat, fpos: int, k: nat)
    requires IsBuffer(buf)
    requires fpos < LEN_ZNDKCDEV_BUF
    requires k < StreamLen(count) <= |src|
    ensures var w := StreamWrite(buf, src, count, fpos, FaultAt(k));
            && w.status == 0
            && w.buf[..k] == src[..k]
            && (forall i | k <= i < StreamLen(count) :: w.buf[i] == 0)
            && w.buf[StreamLen(count)..] == buf[StreamLen(count)..]
  {
  }

  /** A helper request that moves no bytes cannot fault: its copy of 0 bytes always succeeds. */
  lemma EmptyTransferSucceeds(buf: seq<byte>, m: MemMsg, src: seq<byte>, f: Fault)
    requires IsBuffer(buf)
    requires 0 <= m.ofs < LEN_ZNDKCDEV_BUF && m.len >= 0
    requires m.len == 0 || m.ofs == LEN_ZNDKCDEV_BUF - 1
    ensures BufRd(buf, m, f) == ReadOutcome(RW_OK, [])
    ensures BufWr(buf, m, src, f) == WriteOutcome(RW_OK, buf)
  {
    assert CopyLen(m.ofs, m.len) == 0;
    var w := BufWr(buf, m, src, f);
    assert w.buf == w.buf[..m.ofs] + w.buf[m.ofs..];
  }

  /** Bytes stored through the mapping are what a later stream read returns. */
  lemma MappedStoresVisibleToRead(buf: seq<byte>, mapLen: nat, data: seq<byte>, fpos: int)
    requires IsBuffer(buf)
    requires |data| <= mapLen <= LEN_ZNDKCDEV_BUF
    requires fpos < LEN_ZNDKCDEV_BUF
    ensures StreamRead(MappedStores(buf, mapLen, data), |data|, fpos, NoFault).data == data
  {
  }

  /** Bytes written through the stream path are what the mapping shows. */
  lemma StreamWriteVisibleToMapping(buf: seq<byte>, src: seq<byte>, n: nat, mapLen: nat)
    requires IsBuffer(buf)
    requires n <= mapLen <= LEN_ZNDKCDEV_BUF && n <= |src|
    ensures MappedView(StreamWrite(buf, src, n, 0, NoFault).buf, mapLen)[..n] == src[..n]
  {
    var w := StreamWrite(buf, src, n, 0, NoFault);
    assert w.buf[..n] == src[..n];
  }
}
