/**
  Per-instance lifecycle and the registry of drv/zndkcdev.c: the Device
  Control Block (DCB), `zndkcdev_probe` / `zndkcdev_remove`, the registry
  `TZndkCdevInfo`, and subsystem start (`zndkcdev_init`) and stop
  (`_zndkcdev_cleanup`, also run by `zndkcdev_exit`).

  Kernel services (`alloc_chrdev_region`, `class_create`, `device_create`,
  `cdev_add`, `kzalloc`) are success/failure inputs. Besides the driver's own
  fields, the model tracks which kernel resources are really held, so that
  what `remove` releases can be compared with what `probe` acquired.
 */
module Lifecycle {
  import opened Types
  import opened Header
  import opened CText
  import opened BufferAccess

  /** A device number `MKDEV(major, minor)`; `DevNum(0, 0)` is the value 0. */
  datatype DevNum = DevNum(major: nat, minor: nat)

  const NoDevNum: DevNum := DevNum(0, 0)

  /** The kernel resources held on behalf of one instance. */
  datatype Held = Held(device: bool, cdev: bool, buffer: bool)

  const NothingHeld: Held := Held(false, false, false)

  /** Every resource named by `a` is also named by `b`. */
  predicate Within(a: Held, b: Held) {
    (a.device ==> b.device) && (a.cdev ==> b.cdev) && (a.buffer ==> b.buffer)
  }

  /**
    `TZndkCdevDCB`, without the embedded `cdev` and the (never taken) mutex:
    `dev` is `dcb->dev != NULL` and `buf` is `dcb->buf`, `None` for NULL.
   */
  datatype Dcb = Dcb(minor: int, devNum: DevNum, dev: bool, buf: Option<seq<byte>>, lenBuf: int, initDone: int)

  /** A DCB in static storage before any probe: all fields zero. */
  const LoadedDcb: Dcb := Dcb(0, NoDevNum, false, None, 0, 0)

  /** The resources `zndkcdev_remove` releases for `d`, read off its three guard fields. */
  function Releases(d: Dcb): (r: Held)
    ensures r.buffer <==> d.buf.Some?
    ensures r.cdev <==> d.initDone == 1
    ensures r.device <==> d.dev
  {
    Held(d.dev, d.initDone == 1, d.buf.Some?)
  }

  /** The instance is fully set up: buffer allocated and the readiness flag at 1. */
  predicate Ready(d: Dcb) {
    d.buf.Some? && IsBuffer(d.buf.value) && d.initDone == 1
  }

  /** `_init_zndkcdev_dcb`: defaults that remove would release nothing for, with the fixed capacity. */
  function InitDcb(): (d: Dcb)
    ensures Releases(d) == NothingHeld
    ensures !Ready(d)
    ensures d.lenBuf == LEN_ZNDKCDEV_BUF
  {
    Dcb(0, NoDevNum, false, None, LEN_ZNDKCDEV_BUF, -1)
  }

  /** Outcomes of the three fallible kernel calls of one probe. */
  datatype ProbeOutcome = ProbeOutcome(deviceOk: bool, cdevOk: bool, allocOk: bool)

  predicate Succeeds(o: ProbeOutcome) {
    o.deviceOk && o.cdevOk && o.allocOk
  }

  /** `device_create` and `cdev_add` succeeded but `kzalloc` did not. */
  predicate AllocFailure(o: ProbeOutcome) {
    o.deviceOk && o.cdevOk && !o.allocOk
  }

  datatype ProbeResult = ProbeResult(status: int, dcb: Dcb, held: Held)

  /**
    `zndkcdev_probe` of minor `idx` under major `major`, starting from the
    resources `held`. Each failing step returns its own code (-1 device,
    -2 cdev, -3 buffer); the buffer and the readiness flag are set together,
    only when every step succeeded.
   */
  function Probe(major: nat, idx: nat, held: Held, o: ProbeOutcome): (r: ProbeResult)
    ensures r.status in {0, -1, -2, -3}
    ensures r.status == 0 <==> Succeeds(o)
    ensures r.status == -1 <==> !o.deviceOk
    ensures r.status == -2 <==> o.deviceOk && !o.cdevOk
    ensures r.status == -3 <==> AllocFailure(o)
    ensures r.dcb.buf.Some? <==> r.dcb.initDone == 1
    ensures r.dcb.buf.Some? <==> r.status == 0
    ensures r.status == 0 ==> Ready(r.dcb) && r.dcb.buf.value == ZeroBuffer() && r.dcb.minor == idx
    ensures r.dcb.dev <==> o.deviceOk
    ensures r.dcb.lenBuf == LEN_ZNDKCDEV_BUF
    ensures Within(held, r.held)
    ensures Within(Releases(r.dcb), r.held)
  {
    var d0 := InitDcb();
    if !o.deviceOk then ProbeResult(-1, d0, held)
    else
      var d1 := d0.(dev := true, devNum := DevNum(major, idx));
      var h1 := held.(device := true);
      if !o.cdevOk then ProbeResult(-2, d1, h1)
      else
        var h2 := h1.(cdev := true);
        if !o.allocOk then ProbeResult(-3, d1, h2)
        else ProbeResult(0, d1.(buf := Some(ZeroBuffer()), minor := idx, initDone := 1), h2.(buffer := true))
  }

  /**
    `zndkcdev_remove`: frees the buffer iff `buf != NULL`, deletes the cdev iff
    `init_done == 1`, destroys the device iff `dev != NULL`, and changes no DCB
    field. The caller must not have removed this DCB already: every resource
    the guards name must still be held, or the call would release it twice.
   */
  function Remove(d: Dcb, h: Held): (r: Held)
    requires Within(Releases(d), h)
    ensures Within(r, h)
    ensures r.buffer <==> h.buffer && d.buf.None?
    ensures r.cdev <==> h.cdev && d.initDone != 1
    ensures r.device <==> h.device && !d.dev
  {
    Held(h.device && !d.dev, h.cdev && d.initDone != 1, h.buffer && d.buf.None?)
  }

  /**
    What remove releases after each outcome of probe on a fresh instance:
    everything probe acquired, except the added cdev after a buffer
    allocation failure (-3), which stays held.
   */
  lemma ProbeThenRemove(major: nat, idx: nat, o: ProbeOutcome)
    ensures var p := Probe(major, idx, NothingHeld, o);
            && Within(Releases(p.dcb), p.held)
            && Remove(p.dcb, p.held) == Held(false, p.status == -3, false)
            && (p.status == -3 ==> p.held.cdev && !Releases(p.dcb).cdev)
  {
  }

  /** Remove resets nothing: a second remove after a full probe would free the buffer again. */
  lemma SecondRemoveWouldDoubleFree(major: nat, idx: nat, o: ProbeOutcome)
    requires Succeeds(o)
    ensures var p := Probe(major, idx, NothingHeld, o);
            !Within(Releases(p.dcb), Remove(p.dcb, p.held))
  {
  }

  /** `TZndkCdevInfo`: version field, class created, region device number, major, instance count. */
  datatype Info = Info(ver: seq<char>, cl: bool, devNum: DevNum, major: nat, nDev: nat)

  /** The registry after `memset(info, 0, ...)` (`_cleanup_zndkcdev_info`). */
  function ZeroInfo(): (i: Info)
    ensures |i.ver| == LEN_VER + 1 && forall k | 0 <= k < |i.ver| :: i.ver[k] == NUL
    ensures CString(i.ver) == []
    ensures !i.cl && i.devNum == NoDevNum && i.major == 0 && i.nDev == 0
  {
    Info(seq(LEN_VER + 1, _ => NUL), false, NoDevNum, 0, 0)
  }

  /** `_init_zndkcdev_info`: the version is stored whole and NUL-terminated; `N_ZNDKCDEV` instances. */
  function InitInfo(): (i: Info)
    ensures |i.ver| == LEN_VER + 1
    ensures CString(i.ver) == ZNDKCDEV_VERSION
    ensures i.ver[|ZNDKCDEV_VERSION|..] == seq(LEN_VER + 1 - |ZNDKCDEV_VERSION|, _ => NUL)
    ensures i.nDev == N_ZNDKCDEV && !i.cl && i.devNum == NoDevNum
  {
    var z := ZeroInfo();
    assert NUL !in ZNDKCDEV_VERSION && '%' !in ZNDKCDEV_VERSION;
    SnprintfStored(z.ver, LEN_VER, ZNDKCDEV_VERSION);
    z.(ver := Snprintf(z.ver, LEN_VER, ZNDKCDEV_VERSION), nDev := N_ZNDKCDEV)
  }

  /**
    The whole driver: registry, the static DCB array, the resources held per
    instance, how many minors of the chrdev region are registered (0 when none
    is), and whether the device class is held.
   */
  datatype Driver = Driver(info: Info, dcbs: seq<Dcb>, held: seq<Held>, regionMinors: nat, klass: bool)

  /** The driver's state when the module is loaded: all static storage zero, nothing held. */
  function Loaded(): (d: Driver)
    ensures Valid(d) && d.info == ZeroInfo()
    ensures d.regionMinors == 0 && !d.klass
    ensures forall j | 0 <= j < N_ZNDKCDEV :: d.held[j] == NothingHeld
  {
    Driver(ZeroInfo(), seq(N_ZNDKCDEV, _ => LoadedDcb), seq(N_ZNDKCDEV, _ => NothingHeld), 0, false)
  }

  /** The count of minors `zndkcdev_init` asks `alloc_chrdev_region` for. */
  const REGION_MINORS: nat := 1

  /**
    `unregister_chrdev_region(dev_num, count)` against the registered region of
    `minors` minors that starts at `dev_num`: the kernel removes a region only
    when its major, base minor and count all match, so a call with any other
    count removes nothing. The result is the count still registered.
   */
  function UnregisterRegion(minors: nat, count: nat): (left: nat)
    ensures left == 0 <==> minors == 0 || count == minors
    ensures left != 0 ==> left == minors
  {
    if count == minors then 0 else minors
  }

  /**
    Invariant of every reachable driver state: the arrays have one slot per
    instance, the registry's class field says exactly whether the class is held,
    a device number in the registry means a region is registered, and every
    instance the cleanup loop will visit can be removed safely.
   */
  predicate Valid(d: Driver) {
    && |d.dcbs| == N_ZNDKCDEV && |d.held| == N_ZNDKCDEV
    && (d.info.nDev == 0 || d.info.nDev == N_ZNDKCDEV)
    && (d.info.cl <==> d.klass)
    && (d.info.devNum != NoDevNum ==> d.regionMinors > 0)
    && forall j | 0 <= j < d.info.nDev :: Within(Releases(d.dcbs[j]), d.held[j])
  }

  /** The loop of `_zndkcdev_cleanup`: remove every instance `i <= j < n`. */
  function RemoveLoop(dcbs: seq<Dcb>, held: seq<Held>, i: nat, n: nat): (r: seq<Held>)
    requires |dcbs| == |held| && i <= n <= |held|
    requires forall j | i <= j < n :: Within(Releases(dcbs[j]), held[j])
    ensures |r| == |held|
    ensures forall j | 0 <= j < |r| :: r[j] == (if i <= j < n then Remove(dcbs[j], held[j]) else held[j])
    decreases n - i
  {
    if i == n then held
    else RemoveLoop(dcbs, held[i := Remove(dcbs[i], held[i])], i + 1, n)
  }

  /**
    `_zndkcdev_cleanup`: removes the registry's `n_dev` instances, destroys the
    class if created and, if a region was allocated, unregisters `n_dev` minors
    of it, which frees the region only when it has exactly that many; then it
    zeroes the registry. The DCBs keep their fields.
   */
  function Cleanup(d: Driver): (r: Driver)
    requires Valid(d)
    ensures Valid(r)
    ensures r.info == ZeroInfo() && !r.klass
    ensures r.regionMinors == 0 <==>
              d.regionMinors == 0 || (d.info.devNum != NoDevNum && d.info.nDev == d.regionMinors)
    ensures r.regionMinors != 0 ==> r.regionMinors == d.regionMinors
    ensures r.dcbs == d.dcbs
    ensures forall j | 0 <= j < N_ZNDKCDEV ::
              r.held[j] == (if j < d.info.nDev then Remove(d.dcbs[j], d.held[j]) else d.held[j])
  {
    var held := RemoveLoop(d.dcbs, d.held, 0, d.info.nDev);
    var klass := if d.info.cl then false else d.klass;
    var region := if d.info.devNum != NoDevNum then UnregisterRegion(d.regionMinors, d.info.nDev) else d.regionMinors;
    Driver(ZeroInfo(), d.dcbs, held, region, klass)
  }

  /** Because the registry is zeroed, a second cleanup changes nothing. */
  lemma CleanupTwiceIsCleanup(d: Driver)
    requires Valid(d)
    ensures Cleanup(Cleanup(d)) == Cleanup(d)
  {
    var c := Cleanup(d);
    assert Cleanup(c).held == c.held;
  }

  /** Outcomes of the kernel calls of one `zndkcdev_init`: the region's major (if allocated), the class, each probe. */
  datatype InitOutcome = InitOutcome(region: Option<nat>, classOk: bool, probes: seq<ProbeOutcome>)

  /** One probe outcome per instance; a dynamically allocated major is never 0. */
  predicate WellFormed(o: InitOutcome) {
    |o.probes| == N_ZNDKCDEV && (o.region.Some? ==> o.region.value > 0)
  }

  /** Index of the first failing probe at or after `i`, or `|probes|` when none fails. */
  function FirstFailure(probes: seq<ProbeOutcome>, i: nat): (k: nat)
    requires i <= |probes|
    ensures i <= k <= |probes|
    ensures forall j | i <= j < k :: Succeeds(probes[j])
    ensures k < |probes| ==> !Succeeds(probes[k])
    decreases |probes| - i
  {
    if i == |probes| then i
    else if !Succeeds(probes[i]) then i
    else FirstFailure(probes, i + 1)
  }

  datatype LoopResult = LoopResult(ok: bool, drv: Driver)

  /** Slot `j` after the probe loop started at `i`: probed if it lies in `[i, k]`, untouched otherwise. */
  predicate ProbedSlot(d: Driver, r: Driver, probes: seq<ProbeOutcome>, i: nat, k: nat, j: nat)
    requires |d.dcbs| == |d.held| == |r.dcbs| == |r.held| == |probes|
    requires j < |probes|
  {
    if i <= j <= k then
      var p := Probe(d.info.major, j, d.held[j], probes[j]);
      r.dcbs[j] == p.dcb && r.held[j] == p.held
    else
      r.dcbs[j] == d.dcbs[j] && r.held[j] == d.held[j]
  }

  /**
    The probe loop of `zndkcdev_init` from index `i`: probes instances in
    order and stops at the first failure, leaving the DCB and resources of the
    failed instance as probe left them.
   */
  function ProbeLoop(d: Driver, i: nat, probes: seq<ProbeOutcome>): (r: LoopResult)
    requires Valid(d) && d.info.nDev == N_ZNDKCDEV && |probes| == N_ZNDKCDEV && i <= N_ZNDKCDEV
    ensures Valid(r.drv)
    ensures r.drv.info == d.info && r.drv.regionMinors == d.regionMinors && r.drv.klass == d.klass
    ensures r.ok <==> FirstFailure(probes, i) == N_ZNDKCDEV
    ensures forall j | 0 <= j < N_ZNDKCDEV :: ProbedSlot(d, r.drv, probes, i, FirstFailure(probes, i), j)
    decreases N_ZNDKCDEV - i
  {
    if i >= d.info.nDev then LoopResult(true, d)
    else
      var p := Probe(d.info.major, i, d.held[i], probes[i]);
      var d' := d.(dcbs := d.dcbs[i := p.dcb], held := d.held[i := p.held]);
      if p.status < 0 then
        var r := LoopResult(false, d');
        assert forall j | 0 <= j < N_ZNDKCDEV :: ProbedSlot(d, r.drv, probes, i, FirstFailure(probes, i), j);
        r
      else
        var r := ProbeLoop(d', i + 1, probes);
        assert FirstFailure(probes, i) == FirstFailure(probes, i + 1);
        assert forall j | 0 <= j < N_ZNDKCDEV :: ProbedSlot(d, r.drv, probes, i, FirstFailure(probes, i), j) by {
          forall j | 0 <= j < N_ZNDKCDEV
            ensures ProbedSlot(d, r.drv, probes, i, FirstFailure(probes, i), j)
          {
            assert ProbedSlot(d', r.drv, probes, i + 1, FirstFailure(probes, i + 1), j);
          }
        }
        r
  }

  datatype InitResult = InitResult(status: int, drv: Driver)

  /**
    The start sequence of `zndkcdev_init` when `alloc_chrdev_region` is asked
    for `minors` minors: initialise the registry, allocate the region, create
    the class, probe every instance; on any failure run the cleanup. It
    returns 0 in every case.
   */
  function InitWith(o: InitOutcome, minors: nat): (r: InitResult)
    requires WellFormed(o) && minors > 0
    ensures r.status == 0
    ensures Valid(r.drv)
  {
    var d0 := Loaded().(info := InitInfo());
    if o.region.None? then InitResult(0, Cleanup(d0))
    else
      var major := o.region.value;
      var d1 := d0.(info := d0.info.(devNum := DevNum(major, 0), major := major), regionMinors := minors);
      if !o.classOk then InitResult(0, Cleanup(d1))
      else
        var d2 := d1.(info := d1.info.(cl := true), klass := true);
        var l := ProbeLoop(d2, 0, o.probes);
        if l.ok then InitResult(0, l.drv) else InitResult(0, Cleanup(l.drv))
  }

  /** `zndkcdev_init` as written: one minor is allocated for the region. */
  function Init(o: InitOutcome): (r: InitResult)
    requires WellFormed(o)
    ensures r.status == 0
    ensures Valid(r.drv)
  {
    InitWith(o, REGION_MINORS)
  }

  /** `zndkcdev_init` as the cleanup expects it: one minor per instance, `N_ZNDKCDEV` in all. */
  function InitIntended(o: InitOutcome): (r: InitResult)
    requires WellFormed(o)
    ensures r.status == 0
    ensures Valid(r.drv)
  {
    InitWith(o, N_ZNDKCDEV)
  }

  /** Every kernel call of the start sequence succeeded. */
  predicate AllSucceed(o: InitOutcome)
    requires WellFormed(o)
  {
    o.region.Some? && o.classOk && FirstFailure(o.probes, 0) == N_ZNDKCDEV
  }

  /** The subsystem is up: registry live, region and class held, every instance ready and holding all three resources. */
  predicate Up(d: Driver)
    requires Valid(d)
  {
    && d.info.nDev == N_ZNDKCDEV && d.regionMinors > 0 && d.klass
    && forall j | 0 <= j < N_ZNDKCDEV :: Ready(d.dcbs[j]) && d.held[j] == Held(true, true, true)
  }

  /** The instance resource load and unload can leave behind: the cdev of the first failing instance when its buffer allocation failed. */
  predicate Leak(o: InitOutcome, j: nat)
    requires WellFormed(o)
  {
    && o.region.Some? && o.classOk
    && j == FirstFailure(o.probes, 0) && j < N_ZNDKCDEV && AllocFailure(o.probes[j])
  }

  /** Start brings the subsystem up exactly when every kernel call succeeds. */
  lemma InitUpIff(o: InitOutcome)
    requires WellFormed(o)
    ensures Up(Init(o).drv) <==> AllSucceed(o)
  {
  }

  /** A failed start has already run the cleanup, so the state it leaves is a cleaned-up one. */
  lemma FailedInitIsCleanedUp(o: InitOutcome)
    requires WellFormed(o) && !AllSucceed(o)
    ensures Cleanup(Init(o).drv) == Init(o).drv
    ensures Init(o).drv.info == ZeroInfo()
  {
  }

  /** After a successful start every instance's remove releases everything. */
  lemma RemoveAfterSuccessfulProbe(major: nat, j: nat, o: ProbeOutcome)
    requires Succeeds(o)
    ensures var p := Probe(major, j, NothingHeld, o); Remove(p.dcb, p.held) == NothingHeld
  {
  }

  /**
    Load followed by unload (`zndkcdev_exit` runs the same cleanup), for a
    region of `minors` minors: the class is released, the registry is zero,
    every instance's resources are released except a leaked cdev exactly where
    `Leak` holds, and an allocated region is freed iff its count is the
    `n_dev` the cleanup unregisters. This covers a start that already cleaned
    up after a failure, since the second cleanup is then a no-op.
   */
  lemma InitWithThenExit(o: InitOutcome, minors: nat)
    requires WellFormed(o) && minors > 0
    ensures var r := Cleanup(InitWith(o, minors).drv);
            && r.info == ZeroInfo() && !r.klass
            && r.regionMinors == (if o.region.Some? && minors != N_ZNDKCDEV then minors else 0)
            && forall j | 0 <= j < N_ZNDKCDEV :: r.held[j] == Held(false, Leak(o, j), false)
  {
  }

  /**
    As written, load and unload never free an allocated region: one minor is
    registered and `n_dev` = 2 are unregistered. Everything else is released
    except the cdev `Leak` names.
   */
  lemma InitThenExit(o: InitOutcome)
    requires WellFormed(o)
    ensures var r := Cleanup(Init(o).drv);
            && r.info == ZeroInfo() && !r.klass
            && (r.regionMinors == 0 <==> o.region.None?)
            && forall j | 0 <= j < N_ZNDKCDEV :: r.held[j] == Held(false, Leak(o, j), false)
  {
    InitWithThenExit(o, REGION_MINORS);
  }

  /** With one minor per instance, load and unload also free the region; only the cdev `Leak` names stays. */
  lemma InitIntendedThenExit(o: InitOutcome)
    requires WellFormed(o)
    ensures var r := Cleanup(InitIntended(o).drv);
            && r.info == ZeroInfo() && !r.klass && r.regionMinors == 0
            && forall j | 0 <= j < N_ZNDKCDEV :: r.held[j] == Held(false, Leak(o, j), false)
  {
    InitWithThenExit(o, N_ZNDKCDEV);
  }
}
