/**
  Constants, ioctl command codes and message shapes of drv/zndkcdev.h, plus the
  few Linux constants (errno values, signal numbers) that the driver returns or sends.
 */
module Header {
  import opened Types

  /** Version string, `<major>.<minor>.<revision>`. */
  const ZNDKCDEV_VERSION: string := "0.0.1"

  /** Maximum length of the version string; the driver keeps it in `LEN_VER + 1` chars. */
  const LEN_VER: nat := 20

  /** Number of device instances (minors) the driver creates. */
  const N_ZNDKCDEV: nat := 2

  /** Capacity of each instance's buffer, in bytes (1 MiB). */
  const LEN_ZNDKCDEV_BUF: nat := 1024 * 1024 * 1

  // Linux errno values (asm-generic/errno-base.h) and signal numbers.
  const EAGAIN: int := 11
  const EFAULT: int := 14
  const SIGUSR1: int := 10
  const SI_QUEUE: int := -1

  /*
    ioctl command encoding. `_IO(type, nr)` is `_IOC(_IOC_NONE, type, nr, 0)`; with
    direction NONE (0) and size 0 only the type field (bits 8..15) and the number
    field (bits 0..7) are non-zero.
   */
  const IOC_FIELD: nat := 256

  /** The type field of a command code. */
  function IocType(cmd: nat): (t: nat)
    ensures t < IOC_FIELD
  {
    (cmd / IOC_FIELD) % IOC_FIELD
  }

  /** The number field of a command code. */
  function IocNr(cmd: nat): (nr: nat)
    ensures nr < IOC_FIELD
  {
    cmd % IOC_FIELD
  }

  function Io(kind: nat, nr: nat): (cmd: nat)
    requires kind < IOC_FIELD && nr < IOC_FIELD
    ensures IocType(cmd) == kind && IocNr(cmd) == nr
  {
    var c := kind * IOC_FIELD + nr;
    assert c / IOC_FIELD == kind;
    c
  }

  /** Two `_IO` codes are equal exactly when their family and number are. */
  lemma IoInjective(k1: nat, n1: nat, k2: nat, n2: nat)
    requires k1 < IOC_FIELD && n1 < IOC_FIELD && k2 < IOC_FIELD && n2 < IOC_FIELD
    ensures Io(k1, n1) == Io(k2, n2) <==> k1 == k2 && n1 == n2
  {
    if Io(k1, n1) == Io(k2, n2) {
      assert IocType(Io(k1, n1)) == k1 && IocType(Io(k2, n2)) == k2;
      assert IocNr(Io(k1, n1)) == n1 && IocNr(Io(k2, n2)) == n2;
    }
  }

  const ZNDKCDEV_IOCTL_BASE: nat := 'Z' as nat

  const ZNDKCDEV_GET_VERSION: nat := Io(ZNDKCDEV_IOCTL_BASE, 0)
  const ZNDKCDEV_BUF_RD: nat := Io(ZNDKCDEV_IOCTL_BASE, 1)
  const ZNDKCDEV_BUF_WR: nat := Io(ZNDKCDEV_IOCTL_BASE, 2)
  const ZNDKCDEV_PRINTK: nat := Io(ZNDKCDEV_IOCTL_BASE, 3)
  const ZNDKCDEV_SIGNAL: nat := Io(ZNDKCDEV_IOCTL_BASE, 4)
  const ZNDKCDEV_TEST: nat := Io(ZNDKCDEV_IOCTL_BASE, 99)

  /** The six command codes in declaration order. */
  function Commands(): (cs: seq<nat>)
    ensures |cs| == 6
    ensures forall i | 0 <= i < |cs| :: IocType(cs[i]) == 'Z' as nat
    ensures forall i, j | 0 <= i < j < |cs| :: cs[i] != cs[j]
  {
    var cs := [ZNDKCDEV_GET_VERSION, ZNDKCDEV_BUF_RD, ZNDKCDEV_BUF_WR,
               ZNDKCDEV_PRINTK, ZNDKCDEV_SIGNAL, ZNDKCDEV_TEST];
    var nrs := [0, 1, 2, 3, 4, 99];
    assert forall i | 0 <= i < 6 :: IocNr(cs[i]) == nrs[i];
    cs
  }

  /** `TZndkCdevMem`: the BUF_RD / BUF_WR argument, fields in declared order. */
  datatype MemMsg = MemMsg(buf: Addr, ofs: int, len: int)

  /** `TSigMsg`: the SIGNAL argument, fields in declared order. */
  datatype SigMsg = SigMsg(pid: int, dat: int)
}
