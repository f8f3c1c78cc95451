/**
  The control-command channel of drv/zndkcdev.c: `zndkcdev_ioctl` dispatching
  on the six command codes, and the driver's `zndkcdev_send_signal`.
 */
module Control {
  import opened Types
  import opened Header
  import opened BufferAccess

  /** What the untyped `arg` of an ioctl points at. `NullArg` is a NULL pointer. */
  datatype IoctlArg =
    | NullArg
    | VersionDst(addr: Addr)
    | MemArg(mem: MemMsg)
    | SigArg(sig: SigMsg)
    | TextArg(addr: Addr)

  /**
    The caller's memory as the driver's copies find it: whether the argument
    struct (or version destination) can be copied, where the data copy of
    BUF_RD / BUF_WR meets a fault, and the bytes readable at `mem.buf` for BUF_WR.
   */
  datatype UserMem = UserMem(argOk: bool, data: Fault, src: seq<byte>)

  /** What an ioctl does outside the buffer. */
  datatype Effect =
    | NoEffect
    | VersionCopied(addr: Addr, ver: seq<char>)
    | BytesCopied(addr: Addr, data: seq<byte>)
    | SignalQueued(pid: int, signo: int, code: int, value: int)

  datatype IoctlOutcome = IoctlOutcome(status: int, buf: seq<byte>, effect: Effect)

  /** The commands whose argument the driver copies; only these can fail. */
  predicate CopiesArg(cmd: nat) {
    cmd == ZNDKCDEV_GET_VERSION || cmd == ZNDKCDEV_BUF_RD || cmd == ZNDKCDEV_BUF_WR || cmd == ZNDKCDEV_SIGNAL
  }

  /** The argument is either NULL or has the shape the command reads. */
  predicate ArgShape(cmd: nat, arg: IoctlArg) {
    && (cmd == ZNDKCDEV_GET_VERSION ==> arg.NullArg? || arg.VersionDst?)
    && (cmd == ZNDKCDEV_BUF_RD || cmd == ZNDKCDEV_BUF_WR ==> arg.NullArg? || arg.MemArg?)
    && (cmd == ZNDKCDEV_SIGNAL ==> arg.NullArg? || arg.SigArg?)
    && (arg.MemArg? ==> arg.mem.ofs >= 0 && arg.mem.len >= 0)
  }

  /** The argument copy succeeds: the pointer is not NULL and the memory is accessible. */
  predicate ArgCopied(arg: IoctlArg, u: UserMem) {
    u.argOk && !arg.NullArg?
  }

  /**
    Driver-side `zndkcdev_send_signal`: a SIGUSR1 with code SI_QUEUE carrying
    `dat` in `si_int` is requested for `pid`; the outcome of the task lookup is
    not checked and the function always reports 0.
   */
  function SendSignal(m: SigMsg): (e: Effect)
    ensures e.SignalQueued? && e.pid == m.pid && e.value == m.dat
    ensures e.signo == SIGUSR1 && e.code == SI_QUEUE
  {
    SignalQueued(m.pid, SIGUSR1, SI_QUEUE, m.dat)
  }

  /**
    `zndkcdev_ioctl` on an instance whose buffer is `buf`, with the registry's
    version field `ver`. The status is -EFAULT only when copying the argument
    (or the version string) fails; the helpers' own -1 / -2 results are dropped,
    and PRINTK, TEST and unknown codes succeed without doing anything.
   */
  function Ioctl(buf: seq<byte>, ver: seq<char>, cmd: nat, arg: IoctlArg, u: UserMem): (r: IoctlOutcome)
    requires IsBuffer(buf)
    requires ArgShape(cmd, arg)
    ensures IsBuffer(r.buf)
    ensures r.status == 0 || r.status == -EFAULT
    ensures r.status == -EFAULT <==> CopiesArg(cmd) && !ArgCopied(arg, u)
    ensures r.status == -EFAULT ==> r.buf == buf && r.effect == NoEffect
    ensures !CopiesArg(cmd) ==> r == IoctlOutcome(0, buf, NoEffect)
    ensures r.buf != buf ==> cmd == ZNDKCDEV_BUF_WR
    ensures cmd == ZNDKCDEV_BUF_WR && ArgCopied(arg, u) ==>
              r.status == 0 && r.buf == BufWr(buf, arg.mem, u.src, u.data).buf && r.effect == NoEffect
    ensures cmd == ZNDKCDEV_BUF_RD && ArgCopied(arg, u) ==>
              var o := BufRd(buf, arg.mem, u.data);
              && r.status == 0
              && r.effect == (if o.status == RW_RANGE then NoEffect else BytesCopied(arg.mem.buf, o.data))
    ensures cmd == ZNDKCDEV_GET_VERSION && ArgCopied(arg, u) ==> r.effect == VersionCopied(arg.addr, ver)
    ensures cmd == ZNDKCDEV_SIGNAL && ArgCopied(arg, u) ==> r.effect == SendSignal(arg.sig)
  {
    if cmd == ZNDKCDEV_GET_VERSION then
      if !ArgCopied(arg, u) then IoctlOutcome(-EFAULT, buf, NoEffect)
      else IoctlOutcome(0, buf, VersionCopied(arg.addr, ver))
    else if cmd == ZNDKCDEV_BUF_RD then
      if !ArgCopied(arg, u) then IoctlOutcome(-EFAULT, buf, NoEffect)
      else
        var o := BufRd(buf, arg.mem, u.data);
        IoctlOutcome(0, buf, if o.status == RW_RANGE then NoEffect else BytesCopied(arg.mem.buf, o.data))
    else if cmd == ZNDKCDEV_BUF_WR then
      if !ArgCopied(arg, u) then IoctlOutcome(-EFAULT, buf, NoEffect)
      else
        var o := BufWr(buf, arg.mem, u.src, u.data);
        IoctlOutcome(0, o.buf, NoEffect)
    else if cmd == ZNDKCDEV_PRINTK then
      IoctlOutcome(0, buf, NoEffect)
    else if cmd == ZNDKCDEV_SIGNAL then
      if !ArgCopied(arg, u) then IoctlOutcome(-EFAULT, buf, NoEffect)
      else IoctlOutcome(0, buf, SendSignal(arg.sig))
    else if cmd == ZNDKCDEV_TEST then
      IoctlOutcome(0, buf, NoEffect)
    else
      IoctlOutcome(0, buf, NoEffect)
  }

  /**
    A BUF_RD / BUF_WR whose helper fails still answers 0. An out-of-range
    request changes nothing; a faulting one leaves behind exactly the helper's
    partial transfer: the bytes the user received, or the buffer bytes that
    `copy_from_user` overwrote.
   */
  lemma HelperErrorsDiscarded(buf: seq<byte>, ver: seq<char>, cmd: nat, m: MemMsg, u: UserMem)
    requires IsBuffer(buf)
    requires cmd == ZNDKCDEV_BUF_RD || cmd == ZNDKCDEV_BUF_WR
    requires m.ofs >= 0 && m.len >= 0 && u.argOk
    requires cmd == ZNDKCDEV_BUF_RD ==> BufRd(buf, m, u.data).status != RW_OK
    requires cmd == ZNDKCDEV_BUF_WR ==> BufWr(buf, m, u.src, u.data).status != RW_OK
    ensures var r := Ioctl(buf, ver, cmd, MemArg(m), u);
            && r.status == 0
            && (m.ofs >= LEN_ZNDKCDEV_BUF ==> r == IoctlOutcome(0, buf, NoEffect))
            && (cmd == ZNDKCDEV_BUF_RD && m.ofs < LEN_ZNDKCDEV_BUF ==>
                  r == IoctlOutcome(0, buf, BytesCopied(m.buf, BufRd(buf, m, u.data).data)))
            && (cmd == ZNDKCDEV_BUF_WR ==> r == IoctlOutcome(0, BufWr(buf, m, u.src, u.data).buf, NoEffect))
  {
  }
}
