/**
  The library and the driver together: the library's requests, carried by
  the ioctl / mmap system calls, handled by the driver model. These lemmas
  state the wire contract between lib/libzndkcdev.c and drv/zndkcdev.c and
  replay the scenarios of the test program.
 */
module System {
  import opened Types
  import opened Header
  import opened CText
  import opened BufferAccess
  import opened Control
  import opened Lifecycle
  import Library

  /** What the `ioctl` system call returns to the library for a driver status: -1 for any error. */
  function IoctlReturn(status: int): (ret: int)
    ensures status < 0 ==> ret == -1
    ensures status >= 0 ==> ret == status
  {
    if status < 0 then -1 else status
  }

  /** The driver handling the library's ioctl request `c` against buffer `buf`. */
  function Serve(buf: seq<byte>, ver: seq<char>, c: Library.Syscall, u: UserMem): (o: IoctlOutcome)
    requires IsBuffer(buf)
    requires c.SysIoctl? && ArgShape(c.cmd, c.arg)
  {
    Ioctl(buf, ver, c.cmd, c.arg, u)
  }

  /**
    `zndkcdev_buf_write` then `zndkcdev_buf_read` of the same offset and
    length, served by the driver: both succeed and the read delivers to `rbuf`
    the `min(len, len_buf - ofs - 1)` bytes written from `wbuf`.
   */
  lemma BufWriteThenBufRead(buf: seq<byte>, ver: seq<char>, fd: int, ofs: int, len: int,
                            wbuf: Addr, rbuf: Addr, data: seq<byte>)
    requires IsBuffer(buf)
    requires 0 <= ofs < LEN_ZNDKCDEV_BUF && len >= 0
    requires CopyLen(ofs, len) <= |data|
    ensures var w := Serve(buf, ver, Library.BufWrite(fd, ofs, len, wbuf, 0).call, UserMem(true, NoFault, data));
            var r := Serve(w.buf, ver, Library.BufRead(fd, ofs, len, rbuf, 0).call, UserMem(true, NoFault, []));
            && Library.BufWrite(fd, ofs, len, wbuf, IoctlReturn(w.status)).ret == 0
            && Library.BufRead(fd, ofs, len, rbuf, IoctlReturn(r.status)).ret == 0
            && r.effect == BytesCopied(rbuf, data[..CopyLen(ofs, len)])
  {
    var m := MemMsg(wbuf, ofs, len);
    BufWriteReadRoundTrip(buf, m, data);
  }

  /** The library's mmap request, over a handle set up by a successful open, passes the driver's size gate. */
  lemma LibraryMmapPassesGate(st: Library.LibState, path: string, fd: int, a: Addr)
    requires fd >= 0
    ensures var st1 := Library.Open(st, path, fd).st;
            var m := Library.Mmap(st1, fd, Some(a));
            && m.calls == [Library.SysMmap(fd, LEN_ZNDKCDEV_BUF)]
            && BufferAccess.Mmap(m.calls[0].len, true) == MmapOutcome(0, Some(LEN_ZNDKCDEV_BUF))
  {
  }

  /** GET_VERSION through the library: the caller receives all `LEN_VER + 1` chars, holding "0.0.1" NUL-terminated. */
  lemma GetVersionDeliversVersion(buf: seq<byte>, fd: int, dst: Addr)
    requires IsBuffer(buf)
    ensures var c := Library.GetVersion(fd, dst, 0).call;
            var r := Serve(buf, InitInfo().ver, c, UserMem(true, NoFault, []));
            && r.status == 0
            && r.effect.VersionCopied? && r.effect.addr == dst
            && |r.effect.ver| == LEN_VER + 1
            && CString(r.effect.ver) == ZNDKCDEV_VERSION
  {
  }

  /**
    The notification scenario: a process `self` registers `cb` and asks the
    driver to signal itself (`pid = getpid()`) with `dat`; the driver queues
    SIGUSR1 with `si_int = dat` for `self`; when it arrives, the handler in
    that same process calls `cb` once with `(SIGUSR1, dat)`.
   */
  lemma SignalReachesCallback(st: Library.LibState, buf: seq<byte>, ver: seq<char>, fd: int,
                              cb: Library.Callback, self: int, pid: int, dat: int)
    requires IsBuffer(buf)
    requires pid == self
    ensures var s := Library.SendSignal(st, fd, Some(cb), pid, dat, 0);
            var k := Serve(buf, ver, s.calls[1], UserMem(true, NoFault, []));
            && k.status == 0
            && k.effect == SignalQueued(self, SIGUSR1, SI_QUEUE, dat)
            && Library.SigAction(s.st, k.effect.signo, k.effect.value) == Some(Library.Invocation(cb, SIGUSR1, dat))
  {
  }

  /**
    `zndkcdev_test` as written issues SIGNAL with a NULL argument, so the
    driver's argument copy always faults and the library call returns -1.
   */
  lemma TestRequestFaults(buf: seq<byte>, ver: seq<char>, fd: int, u: UserMem)
    requires IsBuffer(buf)
    ensures var c := Library.Test(fd, 0).call;
            var r := Serve(buf, ver, c, u);
            && r == IoctlOutcome(-EFAULT, buf, NoEffect)
            && Library.Test(fd, IoctlReturn(r.status)).ret == -1
  {
  }

  /** The intended `zndkcdev_test` (TEST code) always succeeds and changes nothing. */
  lemma TestIntendedSucceeds(buf: seq<byte>, ver: seq<char>, fd: int, u: UserMem)
    requires IsBuffer(buf)
    ensures var c := Library.TestIntended(fd, 0).call;
            var r := Serve(buf, ver, c, u);
            && r == IoctlOutcome(0, buf, NoEffect)
            && Library.TestIntended(fd, IoctlReturn(r.status)).ret == 0
  {
  }

  /** The letters `'A' + idx` for `idx < n` that the test program stores through the mapping. */
  function Letters(n: nat): (s: seq<byte>)
    requires n <= 26
    ensures |s| == n
  {
    seq(n, i requires 0 <= i < n => (65 + i) as byte)
  }

  /**
    The mapping scenario of the test program on a freshly started instance:
    store 'A'..'Z' through a full-size mapping, then a stream read of 26 bytes
    returns exactly those letters.
   */
  lemma MappedLettersReadBack(major: nat, j: nat, o: ProbeOutcome)
    requires Succeeds(o)
    ensures var buf := Probe(major, j, NothingHeld, o).dcb.buf.value;
            var stored := MappedStores(buf, LEN_ZNDKCDEV_BUF, Letters(26));
            StreamRead(stored, 26, 0, NoFault) == ReadOutcome(26, Letters(26))
  {
    var buf := Probe(major, j, NothingHeld, o).dcb.buf.value;
    MappedStoresVisibleToRead(buf, LEN_ZNDKCDEV_BUF, Letters(26), 0);
  }
}
