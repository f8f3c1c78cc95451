/**
  The client library lib/libzndkcdev.c: the process-wide handle record
  `TDevHandle` and the registered signal callback, driven by open / mmap /
  munmap / close / send_signal, and the ioctl wrappers. Every system call is
  recorded in the order issued; its result is an input.
 */
module Library {
  import opened Types
  import opened Header
  import opened Control

  /** Identity of a user callback function (a `TSigCallback` pointer). */
  type Callback = nat

  /** `TDevHandle`: descriptor, mapped address (`None` for NULL), mapped length. */
  datatype Handle = Handle(fd: int, bufVirt: Option<Addr>, lenBuf: int)

  /** `TLibZndkCdevInfo`: the handle pointer (`None` until the first successful open) and the callback. */
  datatype LibState = LibState(hdl: Option<Handle>, sigcb: Option<Callback>)

  datatype Syscall =
    | SysOpen(path: string)
    | SysClose(fd: int)
    | SysMmap(fd: int, len: int)
    | SysMunmap(addr: Addr, len: int)
    | SysIoctl(fd: int, cmd: nat, arg: IoctlArg)
    | SysSigaction(signum: int)

  /** Result of a library call: its return value, the library state after it, the system calls it issued. */
  datatype Step = Step(ret: int, st: LibState, calls: seq<Syscall>)

  /** Result of `zndkcdev_mmap`, which returns a pointer (`None` for NULL). */
  datatype MapStep = MapStep(ptr: Option<Addr>, st: LibState, calls: seq<Syscall>)

  /** Result of an ioctl wrapper, which touches no library state. */
  datatype Call = Call(ret: int, call: Syscall)

  /** A call of the registered callback as `sigcb(signum, dat)`. */
  datatype Invocation = Invocation(cb: Callback, signum: int, dat: int)

  /** `_init_libzndkcdev_info`: a fresh handle, unmapped with the driver's buffer length, and no callback. */
  function InitLibInfo(): (st: LibState)
    ensures st.hdl.Some? && st.hdl.value.bufVirt.None? && st.hdl.value.lenBuf == LEN_ZNDKCDEV_BUF
    ensures st.sigcb.None?
  {
    LibState(Some(Handle(-1, None, LEN_ZNDKCDEV_BUF)), None)
  }

  /**
    `zndkcdev_open(path)` where `open` returned `fdRet`: a failure is passed
    back and leaves the state alone; a success resets the handle to the new
    descriptor, unmapped, and clears the callback.
   */
  function Open(st: LibState, path: string, fdRet: int): (r: Step)
    ensures r.ret == fdRet && r.calls == [SysOpen(path)]
    ensures fdRet < 0 ==> r.st == st
    ensures fdRet >= 0 ==> r.st == LibState(Some(Handle(fdRet, None, LEN_ZNDKCDEV_BUF)), None)
  {
    if fdRet < 0 then Step(fdRet, st, [SysOpen(path)])
    else
      var info := InitLibInfo();
      Step(fdRet, info.(hdl := Some(info.hdl.value.(fd := fdRet))), [SysOpen(path)])
  }

  /** `munmap` returns 0 or -1. */
  function UnmapRet(ok: bool): (ret: int)
    ensures ret == 0 <==> ok
    ensures ret == 0 || ret == -1
  {
    if ok then 0 else -1
  }

  /**
    `zndkcdev_close(fd)`: unmaps first if mapped and returns that status, then
    closes `fd`. The handle is not touched: a mapped handle still records its
    address afterwards.
   */
  function Close(st: LibState, fd: int, unmapOk: bool): (r: Step)
    requires st.hdl.Some?
    ensures r.st == st
    ensures st.hdl.value.bufVirt.None? ==> r.ret == 0 && r.calls == [SysClose(fd)]
    ensures st.hdl.value.bufVirt.Some? ==>
              && r.ret == UnmapRet(unmapOk)
              && r.calls == [SysMunmap(st.hdl.value.bufVirt.value, st.hdl.value.lenBuf), SysClose(fd)]
  {
    var h := st.hdl.value;
    if h.bufVirt.Some? then
      Step(UnmapRet(unmapOk), st, [SysMunmap(h.bufVirt.value, h.lenBuf), SysClose(fd)])
    else
      Step(0, st, [SysClose(fd)])
  }

  /**
    `zndkcdev_mmap(fd)` where `mmap` returned `mapRet` (`None` for MAP_FAILED):
    only an unmapped handle is mapped, over the handle's length, shared. An
    already mapped handle gets NULL back and keeps its mapping; a failed
    mapping returns NULL and leaves the handle unmapped.
   */
  function Mmap(st: LibState, fd: int, mapRet: Option<Addr>): (r: MapStep)
    requires st.hdl.Some?
    ensures r.st.hdl.Some? && r.st.sigcb == st.sigcb
    ensures r.st.hdl.value.fd == st.hdl.value.fd && r.st.hdl.value.lenBuf == st.hdl.value.lenBuf
    ensures st.hdl.value.bufVirt.Some? ==> r.ptr.None? && r.st == st && r.calls == []
    ensures st.hdl.value.bufVirt.None? ==> r.calls == [SysMmap(fd, st.hdl.value.lenBuf)]
    ensures st.hdl.value.bufVirt.None? ==> r.ptr == mapRet && r.st.hdl.value.bufVirt == mapRet
  {
    var h := st.hdl.value;
    if h.bufVirt.None? then
      match mapRet
      case None => MapStep(None, st, [SysMmap(fd, h.lenBuf)])
      case Some(a) => MapStep(Some(a), st.(hdl := Some(h.(bufVirt := Some(a)))), [SysMmap(fd, h.lenBuf)])
    else
      MapStep(None, st, [])
  }

  /**
    `zndkcdev_munmap(fd)`: a mapped handle is unmapped; on success the address
    is cleared and 0 returned, on failure -1 is returned and the address kept.
    An unmapped handle is left alone with status 0.
   */
  function Munmap(st: LibState, fd: int, unmapOk: bool): (r: Step)
    requires st.hdl.Some?
    ensures r.st.hdl.Some? && r.st.sigcb == st.sigcb
    ensures r.st.hdl.value.fd == st.hdl.value.fd && r.st.hdl.value.lenBuf == st.hdl.value.lenBuf
    ensures st.hdl.value.bufVirt.None? ==> r == Step(0, st, [])
    ensures st.hdl.value.bufVirt.Some? ==>
              && r.calls == [SysMunmap(st.hdl.value.bufVirt.value, st.hdl.value.lenBuf)]
              && (unmapOk ==> r.ret == 0 && r.st.hdl.value.bufVirt.None?)
              && (!unmapOk ==> r.ret == -1 && r.st == st)
  {
    var h := st.hdl.value;
    if h.bufVirt.Some? then
      var call := [SysMunmap(h.bufVirt.value, h.lenBuf)];
      if unmapOk then Step(0, st.(hdl := Some(h.(bufVirt := None))), call)
      else Step(-1, st, call)
    else
      Step(0, st, [])
  }

  /**
    `zndkcdev_send_signal(fd, sigcb, pid, dat)`: the callback is stored first,
    the SIGUSR1 handler installed, then the SIGNAL command issued with
    `{pid, dat}`; the ioctl's result `ioctlRet` is returned.
   */
  function SendSignal(st: LibState, fd: int, cb: Option<Callback>, pid: int, dat: int, ioctlRet: int): (r: Step)
    ensures r.st == st.(sigcb := cb)
    ensures r.ret == ioctlRet
    ensures r.calls == [SysSigaction(SIGUSR1), SysIoctl(fd, ZNDKCDEV_SIGNAL, SigArg(SigMsg(pid, dat)))]
  {
    Step(ioctlRet, st.(sigcb := cb), [SysSigaction(SIGUSR1), SysIoctl(fd, ZNDKCDEV_SIGNAL, SigArg(SigMsg(pid, dat)))])
  }

  /** `_zndkcdev_sigaction`: calls the stored callback with `(signum, si_int)` iff one is stored. */
  function SigAction(st: LibState, signum: int, siInt: int): (r: Option<Invocation>)
    ensures r.Some? <==> st.sigcb.Some?
    ensures r.Some? ==> r.value == Invocation(st.sigcb.value, signum, siInt)
  {
    match st.sigcb
    case None => None
    case Some(cb) => Some(Invocation(cb, signum, siInt))
  }

  // The ioctl wrappers. Each issues one ioctl on `fd` and passes its result
  // back unchanged; the contracts decode the command the driver receives.

  /** `zndkcdev_get_version`: command 0 of family 'Z', with the caller's version buffer as argument. */
  function GetVersion(fd: int, ver: Addr, ioctlRet: int): (r: Call)
    ensures r.ret == ioctlRet && r.call.SysIoctl? && r.call.fd == fd
    ensures IocType(r.call.cmd) == 'Z' as nat && IocNr(r.call.cmd) == 0
    ensures r.call.arg == VersionDst(ver)
  {
    Call(ioctlRet, SysIoctl(fd, ZNDKCDEV_GET_VERSION, VersionDst(ver)))
  }

  /** `zndkcdev_buf_read`: command 1 of family 'Z', with `{rbuf, ofs, len}` packed as a `TZndkCdevMem`. */
  function BufRead(fd: int, ofs: int, len: int, rbuf: Addr, ioctlRet: int): (r: Call)
    ensures r.ret == ioctlRet && r.call.SysIoctl? && r.call.fd == fd
    ensures IocType(r.call.cmd) == 'Z' as nat && IocNr(r.call.cmd) == 1
    ensures r.call.arg.MemArg?
    ensures r.call.arg.mem.buf == rbuf && r.call.arg.mem.ofs == ofs && r.call.arg.mem.len == len
  {
    Call(ioctlRet, SysIoctl(fd, ZNDKCDEV_BUF_RD, MemArg(MemMsg(rbuf, ofs, len))))
  }

  /** `zndkcdev_buf_write`: command 2 of family 'Z', with `{wbuf, ofs, len}` packed as a `TZndkCdevMem`. */
  function BufWrite(fd: int, ofs: int, len: int, wbuf: Addr, ioctlRet: int): (r: Call)
    ensures r.ret == ioctlRet && r.call.SysIoctl? && r.call.fd == fd
    ensures IocType(r.call.cmd) == 'Z' as nat && IocNr(r.call.cmd) == 2
    ensures r.call.arg.MemArg?
    ensures r.call.arg.mem.buf == wbuf && r.call.arg.mem.ofs == ofs && r.call.arg.mem.len == len
  {
    Call(ioctlRet, SysIoctl(fd, ZNDKCDEV_BUF_WR, MemArg(MemMsg(wbuf, ofs, len))))
  }

  /** `zndkcdev_print`: command 3 of family 'Z', with the message address as argument. */
  function Print(fd: int, msg: Addr, ioctlRet: int): (r: Call)
    ensures r.ret == ioctlRet && r.call.SysIoctl? && r.call.fd == fd
    ensures IocType(r.call.cmd) == 'Z' as nat && IocNr(r.call.cmd) == 3
    ensures r.call.arg == TextArg(msg)
  {
    Call(ioctlRet, SysIoctl(fd, ZNDKCDEV_PRINTK, TextArg(msg)))
  }

  /** `zndkcdev_test` as written: command 4 of family 'Z' (SIGNAL), with a NULL argument. */
  function Test(fd: int, ioctlRet: int): (r: Call)
    ensures r.ret == ioctlRet && r.call.SysIoctl? && r.call.fd == fd
    ensures IocType(r.call.cmd) == 'Z' as nat && IocNr(r.call.cmd) == 4
    ensures r.call.cmd == ZNDKCDEV_SIGNAL && r.call.arg == NullArg
  {
    Call(ioctlRet, SysIoctl(fd, ZNDKCDEV_SIGNAL, NullArg))
  }

  /** `zndkcdev_test` as its name and comment intend: command 99 of family 'Z' (TEST), with a NULL argument. */
  function TestIntended(fd: int, ioctlRet: int): (r: Call)
    ensures r.ret == ioctlRet && r.call.SysIoctl? && r.call.fd == fd
    ensures IocType(r.call.cmd) == 'Z' as nat && IocNr(r.call.cmd) == 99
    ensures r.call.cmd == ZNDKCDEV_TEST && r.call.arg == NullArg
  {
    Call(ioctlRet, SysIoctl(fd, ZNDKCDEV_TEST, NullArg))
  }

  // ---------------------------------------------------------------------
  // Sequences of stateful library calls.

  datatype LibOp =
    | OpOpen(path: string, fdRet: int)
    | OpClose(fd: int, unmapOk: bool)
    | OpMmap(fd: int, mapRet: Option<Addr>)
    | OpMunmap(fd: int, unmapOk: bool)
    | OpSendSignal(fd: int, cb: Option<Callback>, pid: int, dat: int, ioctlRet: int)

  function Apply(st: LibState, op: LibOp): (r: LibState)
    requires st.hdl.Some?
    ensures r.hdl.Some?
  {
    match op
    case OpOpen(path, fdRet) => Open(st, path, fdRet).st
    case OpClose(fd, ok) => Close(st, fd, ok).st
    case OpMmap(fd, mapRet) => Mmap(st, fd, mapRet).st
    case OpMunmap(fd, ok) => Munmap(st, fd, ok).st
    case OpSendSignal(fd, cb, pid, dat, ret) => SendSignal(st, fd, cb, pid, dat, ret).st
  }

  /** Runs the calls `ops` in order on an opened library. */
  function Run(st: LibState, ops: seq<LibOp>): (r: LibState)
    requires st.hdl.Some?
    ensures r.hdl.Some?
    decreases |ops|
  {
    if |ops| == 0 then st else Run(Apply(st, ops[0]), ops[1..])
  }

  /** A call that can replace the stored callback: a successful open or a send_signal. */
  predicate TouchesCallback(op: LibOp) {
    (op.OpOpen? && op.fdRet >= 0) || op.OpSendSignal?
  }

  /** Calls that neither reopen nor register keep the stored callback. */
  lemma {:induction false} CallbackKept(st: LibState, ops: seq<LibOp>)
    requires st.hdl.Some?
    requires forall k | 0 <= k < |ops| :: !TouchesCallback(ops[k])
    ensures Run(st, ops).sigcb == st.sigcb
    decreases |ops|
  {
    if |ops| > 0 {
      assert !TouchesCallback(ops[0]);
      assert Apply(st, ops[0]).sigcb == st.sigcb;
      assert forall k | 0 <= k < |ops| - 1 :: ops[1..][k] == ops[k + 1];
      CallbackKept(Apply(st, ops[0]), ops[1..]);
    }
  }

  /**
    The last registration wins: after send_signal with `cb` and any later
    calls that neither reopen nor register again, the handler calls `cb`
    with the signal's number and payload, or nothing when `cb` is NULL.
   */
  lemma LastRegistrationWins(st: LibState, fd: int, cb: Option<Callback>, pid: int, dat: int, ret: int,
                             later: seq<LibOp>, signum: int, siInt: int)
    requires st.hdl.Some?
    requires forall k | 0 <= k < |later| :: !TouchesCallback(later[k])
    ensures Run(SendSignal(st, fd, cb, pid, dat, ret).st, later).sigcb == cb
    ensures SigAction(Run(SendSignal(st, fd, cb, pid, dat, ret).st, later), signum, siInt)
              == (if cb.Some? then Some(Invocation(cb.value, signum, siInt)) else None)
  {
    CallbackKept(SendSignal(st, fd, cb, pid, dat, ret).st, later);
  }

  /** munmap is idempotent once it has succeeded: the second call issues nothing and returns 0. */
  lemma MunmapIdempotent(st: LibState, fd: int, ok: bool)
    requires st.hdl.Some?
    ensures var first := Munmap(st, fd, true);
            Munmap(first.st, fd, ok) == Step(0, first.st, [])
  {
  }

  /**
    close leaves a mapped handle's address in place, so a later munmap
    unmaps that (already unmapped) address a second time.
   */
  lemma CloseLeavesStaleMapping(st: LibState, fd: int, ok: bool, ok2: bool)
    requires st.hdl.Some? && st.hdl.value.bufVirt.Some?
    ensures var c := Close(st, fd, ok);
            && c.calls[0] == SysMunmap(st.hdl.value.bufVirt.value, st.hdl.value.lenBuf)
            && Munmap(c.st, fd, ok2).calls == [c.calls[0]]
  {
  }

  /** A second successful mmap on a mapped handle returns NULL rather than the mapping it holds. */
  lemma SecondMmapReturnsNull(st: LibState, fd: int, a: Addr, mapRet: Option<Addr>)
    requires st.hdl.Some? && st.hdl.value.bufVirt.None?
    ensures var m1 := Mmap(st, fd, Some(a));
            && m1.ptr == Some(a)
            && Mmap(m1.st, fd, mapRet) == MapStep(None, m1.st, [])
  {
  }
}
