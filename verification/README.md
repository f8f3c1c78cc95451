# zndkcdev in Dafny

A verified model of `zndkcdev`, a small Linux character-device driver, and of its user-space client library.
The driver creates `N_ZNDKCDEV` (2) instances. Each instance owns a 1 MiB buffer that user space reaches three ways:
through stream `read`/`write`, through a shared `mmap` mapping, and through an `ioctl` channel.
The ioctl channel offers a version query, offset-addressed buffer reads and writes, a log print, a signal request and a test command.
The client library keeps one process-wide handle (descriptor, mapped address, length) and one registered signal callback.

The model is purely functional. Each operation is a function from the current state and the outcomes of the kernel calls or system calls it makes
(given as inputs) to a status and the new state. The modules:

- `Types`: bytes, addresses, `Option` (NULL), `Min`.
- `Header`: the constants of `drv/zndkcdev.h` (buffer capacity, instance count, version, `LEN_VER`) and the `_IO('Z', n)` command encoding.
  It also holds the message shapes `TZndkCdevMem` = `MemMsg(buf, ofs, len)` and `TSigMsg` = `SigMsg(pid, dat)`, with fields in declared order,
  and the Linux errno and signal numbers the driver uses.
- `CText`: `snprintf` with a conversion-free format, and reading a NUL-terminated string. Together they give the version field.
- `BufferAccess`: the stream handlers, the `buf_rd`/`buf_wr` helpers, the `mmap` size gate, and the mapping as a view of the same bytes.
- `Control`: `zndkcdev_ioctl` dispatch and the driver's signal request.
- `Lifecycle`: the DCB (device control block), `probe`/`remove`, the registry, and subsystem start and stop.
  Besides the driver's own fields, it tracks which kernel resources are actually held (device node, cdev, buffer, chrdev region, class).
  This lets the model compare what `remove` releases with what `probe` acquired.
- `Library`: the client handle and callback state machine, and the ioctl wrappers. Each library call records the system calls it issues.
- `System`: lemmas that feed the library's requests into the driver model. They cover the wire contract and the test program's scenarios.

Behaviour the model reproduces on purpose:
- The stream handlers bounds-check the file position but always copy from offset 0.
- `buf_rd`/`buf_wr` never reach the last byte of the buffer.
- The ioctl dispatcher discards the helpers' error codes and accepts unknown commands.
- `zndkcdev_init` returns 0 even when start failed.
- After a `kzalloc` failure, `remove` does not delete the cdev that was already added, so that cdev leaks.
- `remove` resets no field, so calling it a second time on the same instance would free the buffer twice.
  Only the whole-subsystem cleanup is idempotent, because it zeroes the registry.

A natural reading of the driver's design promises more than the code does in four places. In each one the model follows the code:
- Instance teardown is not safe to call twice (`SecondRemoveWouldDoubleFree`).
- A failed start reports success and leaves the module loaded with no instances (`Init`, `FailedInitIsCleanedUp`).
- Teardown does not release everything a partial start acquired (`InitThenExit`).
- Unload never frees the chrdev region: start allocates one minor and cleanup unregisters `n_dev` = 2, which the kernel does not match (`InitThenExit`; see Findings).

## Model

| member | source | states |
|---|---|---|
| Header.Io | drv/zndkcdev.h:47-53 | an `_IO(type, nr)` code carries its family and its number, which can be decoded back out of it |
| Header.IoInjective | drv/zndkcdev.h:47-53 | two `_IO` codes are equal exactly when their family and number both agree |
| Header.Commands | drv/zndkcdev.h:47-53 | the six commands all belong to the `'Z'` family and are pairwise distinct |
| CText.CString | drv/zndkcdev.c:73 | the text read from a char array is the NUL-free prefix that ends at the first NUL, or at the end of the array |
| CText.Snprintf | drv/zndkcdev.c:95 | `snprintf` of a conversion-free text into `size` chars stores its first `min(len, size - 1)` chars, then a NUL, and leaves the rest of the array as it was |
| CText.SnprintfStored | drv/zndkcdev.c:95 | `snprintf` into `size` chars keeps the text whole iff it is shorter than `size`, and otherwise keeps its first `size - 1` chars |
| Lifecycle.ZeroInfo | drv/zndkcdev.c:109-117 | the registry after `memset`: an all-NUL version field (the empty string), no class, no region, major 0 and no instances |
| Lifecycle.InitInfo | drv/zndkcdev.c:89-103 | the registry starts with the version "0.0.1" stored whole and NUL-terminated in `LEN_VER + 1` chars, followed by NULs, with `N_ZNDKCDEV` instances and no class or region |
| BufferAccess.ZeroBuffer | drv/zndkcdev.c:494 | a new buffer has `LEN_ZNDKCDEV_BUF` bytes, all zero |
| BufferAccess.Zeros | drv/zndkcdev.c:277 | the padding of a failed `copy_from_user`: `n` bytes, all zero |
| BufferAccess.Reach | drv/zndkcdev.c:237 | a copy of `n` bytes moves all of them iff it meets no fault, and otherwise stops exactly at the fault point |
| BufferAccess.CopyFromUser | drv/zndkcdev.c:277 | `copy_from_user` of `n` bytes leaves nothing over iff neither a fault nor the end of the user bytes comes first; the destination then holds the user's first `n` bytes; otherwise it holds the bytes before the stop followed by zeros |
| BufferAccess.CopyToUser | drv/zndkcdev.c:237 | `copy_to_user` leaves nothing over iff it meets no fault; the user receives a prefix of the data, all of it on success |
| BufferAccess.StreamLen | drv/zndkcdev.c:235 | the stream transfer length is `count` capped at the buffer capacity |
| BufferAccess.StreamRead | drv/zndkcdev.c:214-249 | a position at or past the end gives 0 and no bytes; otherwise the user receives the first `min(count, len_buf)` bytes up to any fault, whatever the position, and the status is that length when no fault was met and 0 otherwise; the buffer is not returned, so it cannot change |
| BufferAccess.StreamWrite | drv/zndkcdev.c:254-289 | same guard and length as read; for an in-range position bytes `[0, len)` take what `copy_from_user` stored, the user's bytes up to a fault and zeros after it, and the rest are unchanged; the status is `len` iff nothing was left over and 0 otherwise; a position at or past the end changes nothing |
| BufferAccess.FaultingWriteZeroFills | drv/zndkcdev.c:277-280 | a stream write that faults after `k` bytes reports 0, yet the buffer holds the user's first `k` bytes, then zeros up to `len`, then its old bytes |
| BufferAccess.StreamRoundTrip | drv/zndkcdev.c:229-283 | stream-writing `n <= len_buf` bytes and then stream-reading `n` bytes returns those bytes, for any in-range positions |
| BufferAccess.StreamIgnoresPosition | drv/zndkcdev.c:229-237 | any two in-range positions give identical read and write results |
| BufferAccess.CopyLen | drv/zndkcdev.c:342-344 | the helpers' transfer length is at most `len`, is `len` or runs to `len_buf - 1`, and always stops before the last byte |
| BufferAccess.BufRd | drv/zndkcdev.c:332-356 | -2 iff `ofs >= len_buf`, -1 iff the copy meets a fault, otherwise 0; for an in-range offset the user receives the slice `[ofs, ofs + CopyLen)` up to the fault point |
| BufferAccess.BufWr | drv/zndkcdev.c:363-387 | -2 iff out of range, with the buffer unchanged; -1 iff the user copy leaves bytes over; for an in-range offset exactly `[ofs, ofs + CopyLen)` takes what `copy_from_user` stored, faulted or not, which on success is the user's bytes |
| BufferAccess.EmptyTransferSucceeds | drv/zndkcdev.c:340-347 | a helper request that moves 0 bytes (`len == 0`, or `ofs == len_buf - 1`) always returns 0 and changes nothing, whatever user memory holds |
| BufferAccess.BufReadWriteBack | drv/zndkcdev.c:332-387 | writing back what BUF_RD returned, at the same offset and length, leaves the buffer unchanged |
| BufferAccess.BufWriteReadRoundTrip | drv/zndkcdev.c:332-387 | BUF_WR followed by BUF_RD of the same range returns the bytes written |
| BufferAccess.BufRwReservesLastByte | drv/zndkcdev.c:340-379 | BUF_WR never changes the last byte, even when it faults, and a request of `len_buf` bytes at offset 0 moves `len_buf - 1` bytes, or as many as come before a fault |
| BufferAccess.Mmap | drv/zndkcdev.c:294-325 | a length over `LEN_ZNDKCDEV_BUF` gets -EAGAIN and no mapping, whatever the remap would do; a failed remap also gets -EAGAIN; otherwise exactly the requested length is mapped |
| BufferAccess.MappedView | drv/zndkcdev.c:311-316 | the mapping shows the buffer's own first `mapLen` bytes |
| BufferAccess.MappedStores | test/testzndkcdev.c:104-107 | storing `data` through the mapping at offsets 0.. puts `data` at the buffer's head and leaves the rest unchanged |
| BufferAccess.MappedStoresVisibleToRead | drv/zndkcdev.c:311-316 | bytes stored through the mapping are what a later stream read returns |
| BufferAccess.StreamWriteVisibleToMapping | drv/zndkcdev.c:311-316 | bytes written by the stream path are what the mapping shows |
| Control.SendSignal | drv/zndkcdev.c:157-177 | the driver requests SIGUSR1 with code SI_QUEUE and `si_int = dat` for the given pid |
| Control.Ioctl | drv/zndkcdev.c:392-443 | status is -EFAULT iff a command that copies its argument cannot copy it, and 0 otherwise; only BUF_WR changes the buffer; BUF_RD/BUF_WR answer 0 whatever the helper returned, keeping whatever it transferred; PRINTK, TEST and unknown codes change nothing |
| Control.HelperErrorsDiscarded | drv/zndkcdev.c:409-422 | a BUF_RD/BUF_WR whose helper fails still answers 0; an out-of-range request (-2) changes nothing, and a faulting one (-1) keeps exactly the helper's partial transfer |
| Lifecycle.InitDcb | drv/zndkcdev.c:122-139 | a freshly initialised DCB is not ready, names no resource for remove to release, and has the fixed capacity |
| Lifecycle.Probe | drv/zndkcdev.c:462-505 | returns -1, -2 or -3 exactly when device creation, cdev add or allocation fails, and 0 otherwise; `buf != NULL` iff `init_done == 1` iff success, and then the buffer is zero-filled and the minor set; probe only acquires resources, and everything its DCB names is held |
| Lifecycle.Releases | drv/zndkcdev.c:518-529 | remove's three guards read off the DCB: the buffer is freed iff `buf != NULL`, the cdev deleted iff `init_done == 1`, the device destroyed iff `dev != NULL` |
| Lifecycle.Remove | drv/zndkcdev.c:512-534 | frees the buffer iff `buf != NULL`, deletes the cdev iff `init_done == 1`, destroys the device iff `dev != NULL`, and only releases resources |
| Lifecycle.ProbeThenRemove | drv/zndkcdev.c:462-534 | for every probe outcome, remove releases everything probe acquired except, after an allocation failure (-3), the added cdev |
| Lifecycle.SecondRemoveWouldDoubleFree | drv/zndkcdev.c:518-529 | after a full probe and a remove, the DCB still names resources that are no longer held |
| Lifecycle.RemoveAfterSuccessfulProbe | drv/zndkcdev.c:512-534 | a fully probed instance's remove releases all three of its resources |
| Lifecycle.RemoveLoop | drv/zndkcdev.c:548-551 | instance `j` has its remove applied iff `i <= j < n`, and every other instance's resources are unchanged |
| Lifecycle.Loaded | drv/zndkcdev.c:65-84 | at module load nothing is held: zero registry, no region minors, no class, no instance resources, and the state is consistent |
| Lifecycle.UnregisterRegion | drv/zndkcdev.c:557-559 | `unregister_chrdev_region` frees the registered region iff the count it is given equals the region's count; otherwise the region stays as it was |
| Lifecycle.Cleanup | drv/zndkcdev.c:539-567 | removes the registry's `n_dev` instances, releases the class, frees the region iff it was allocated with exactly `n_dev` minors (otherwise keeps it), zeroes the registry and leaves the DCBs as they were |
| Lifecycle.CleanupTwiceIsCleanup | drv/zndkcdev.c:549-562 | a second cleanup changes nothing |
| Lifecycle.FirstFailure | drv/zndkcdev.c:604-611 | returns the index of the first failing probe at or after `i`, or `N` when none fails |
| Lifecycle.ProbeLoop | drv/zndkcdev.c:603-611 | probes instances in order and stops at the first failure; instances from `i` up to and including that failure hold probe's result, all others are untouched; succeeds iff no probe fails |
| Lifecycle.InitWith | drv/zndkcdev.c:572-620 | start with a region of a given minor count returns 0 in every case and leaves a consistent driver state |
| Lifecycle.Init | drv/zndkcdev.c:572-620 | start as written, allocating one minor, returns 0 in every case and leaves a consistent driver state |
| Lifecycle.InitIntended | drv/zndkcdev.c:572-620 | start allocating `N_ZNDKCDEV` minors returns 0 in every case and leaves a consistent driver state |
| Lifecycle.InitUpIff | drv/zndkcdev.c:583-613 | start brings every instance up, with all resources held, iff every kernel call succeeds |
| Lifecycle.FailedInitIsCleanedUp | drv/zndkcdev.c:615-619 | a failed start has already run the cleanup, which leaves the registry zero |
| Lifecycle.InitWithThenExit | drv/zndkcdev.c:539-633 | after load and unload, the class is released, an allocated region is freed iff its minor count is `N_ZNDKCDEV`, and every instance's resources are freed except the cdev of the first failing instance when its allocation failed |
| Lifecycle.InitThenExit | drv/zndkcdev.c:572-633 | as written, after load and unload the class is released but the region is still registered iff start allocated it; every instance's resources are freed except the cdev of the first failing instance when its allocation failed |
| Lifecycle.InitIntendedThenExit | drv/zndkcdev.c:539-633 | with `N_ZNDKCDEV` minors allocated, load and unload release the class and the region, and every instance's resources except that same leaked cdev |
| Library.InitLibInfo | lib/libzndkcdev.c:52-71 | the initialised library has an unmapped handle of length `LEN_ZNDKCDEV_BUF` and no callback |
| Library.Open | lib/libzndkcdev.c:104-125 | a failed open returns its descriptor and changes nothing; a successful one resets the handle to `{fd, NULL, LEN_ZNDKCDEV_BUF}` and clears the callback |
| Library.Close | lib/libzndkcdev.c:134-155 | unmaps first iff mapped and returns that status, then closes; the handle keeps its address |
| Library.Mmap | lib/libzndkcdev.c:161-181 | maps only an unmapped handle, over its full length; an already mapped handle gets NULL and keeps its mapping; a failed map returns NULL and stays unmapped |
| Library.Munmap | lib/libzndkcdev.c:187-208 | if mapped: success clears the address and returns 0, failure returns -1 and keeps it; an unmapped handle gets 0 and nothing happens |
| Library.MunmapIdempotent | lib/libzndkcdev.c:197-207 | after a successful munmap, another munmap does nothing and returns 0 |
| Library.CloseLeavesStaleMapping | lib/libzndkcdev.c:144-154 | after close, a munmap unmaps the same address a second time |
| Library.SecondMmapReturnsNull | lib/libzndkcdev.c:171-180 | mapping twice returns NULL the second time and keeps the first mapping |
| Library.GetVersion | lib/libzndkcdev.c:218-231 | issues command 0 of family 'Z' with the caller's buffer as argument and returns the ioctl's result (served end to end in `System.GetVersionDeliversVersion`) |
| Library.BufRead | lib/libzndkcdev.c:243-257 | issues command 1 of family 'Z' with `{rbuf, ofs, len}` packed in that order and returns the ioctl's result (served end to end in `System.BufWriteThenBufRead`) |
| Library.BufWrite | lib/libzndkcdev.c:269-283 | issues command 2 of family 'Z' with `{wbuf, ofs, len}` packed in that order and returns the ioctl's result (served end to end in `System.BufWriteThenBufRead`) |
| Library.Print | lib/libzndkcdev.c:293-306 | issues command 3 of family 'Z' with the message address as argument and returns the ioctl's result |
| Library.Test | lib/libzndkcdev.c:350-363 | as written, issues command 4 of family 'Z' (SIGNAL) with a NULL argument (served in `System.TestRequestFaults`) |
| Library.TestIntended | lib/libzndkcdev.c:350-363 | the intended test request: command 99 of family 'Z' (TEST) with a NULL argument (served in `System.TestIntendedSucceeds`) |
| Library.UnmapRet | lib/libzndkcdev.c:197-207 | the library's unmap status is 0 iff `munmap` succeeded, and -1 otherwise |
| Library.SendSignal | lib/libzndkcdev.c:316-340 | stores the callback, installs the SIGUSR1 handler, then issues SIGNAL with `{pid, dat}` and returns the ioctl's result |
| Library.SigAction | lib/libzndkcdev.c:82-95 | the handler calls the stored callback with `(signum, si_int)` iff one is stored |
| Library.CallbackKept | lib/libzndkcdev.c:104-208 | library calls that neither reopen successfully nor register keep the stored callback |
| Library.LastRegistrationWins | lib/libzndkcdev.c:327-334 | after a send_signal and any later calls that do not re-register or reopen, the handler calls that send_signal's callback |
| System.BufWriteThenBufRead | lib/libzndkcdev.c:243-283 | the library's packed BUF_WR then BUF_RD, served by the driver, both return 0, and the read delivers the `CopyLen` bytes written |
| System.LibraryMmapPassesGate | lib/libzndkcdev.c:161-181 | the library's mmap request, over a freshly opened handle, asks for exactly the capacity and passes the driver's size gate |
| System.GetVersionDeliversVersion | drv/zndkcdev.c:402-408 | GET_VERSION copies all `LEN_VER + 1` chars of the version field, which reads as "0.0.1" |
| System.SignalReachesCallback | lib/libzndkcdev.c:316-340 | a process that asks for a signal to itself makes the driver queue SIGUSR1 with the payload for that process, and receiving it calls the registered callback once with `(SIGUSR1, dat)` |
| System.TestRequestFaults | lib/libzndkcdev.c:350-363 | `zndkcdev_test` as written always makes the driver answer -EFAULT, so it returns -1 |
| System.TestIntendedSucceeds | lib/libzndkcdev.c:350-363 | a test request with the TEST code always succeeds with 0 and changes nothing |
| System.MappedLettersReadBack | test/testzndkcdev.c:101-111 | on a freshly probed instance, storing 'A'..'Z' through the mapping and stream-reading 26 bytes returns those letters |

## Findings

| source | as written | input that shows it | evidently intended | confidence | as-written member | corrected member |
|---|---|---|---|---|---|---|
| lib/libzndkcdev.c:357 | `zndkcdev_test` issues the SIGNAL command with a NULL argument | any call: the driver's copy of a `TSigMsg` from NULL faults, the ioctl fails with EFAULT and the call returns -1 | issue the TEST command, which the driver accepts with 0 | medium (not executed) | Library.Test, System.TestRequestFaults | Library.TestIntended, System.TestIntendedSucceeds |
| drv/zndkcdev.c:559 | cleanup calls `unregister_chrdev_region(dev_num, n_dev)` with `n_dev` = 2, but start reserved the region with a count of 1 (line 587) | any load whose `alloc_chrdev_region` succeeds, then unload: the kernel finds no region of two minors at that device number, so the region stays registered | reserve `N_ZNDKCDEV` minors in `alloc_chrdev_region`, matching both the unregister count and the minors 0 and 1 that probe adds | medium (not executed) | Lifecycle.Init, Lifecycle.InitThenExit | Lifecycle.InitIntended, Lifecycle.InitIntendedThenExit |

## Left out

- The per-DCB mutex: it is initialised and destroyed, but every lock and unlock is commented out. All operations are modelled as sequential; `_cleanup_zndkcdev_dcb` only destroys the mutex.
- Real kernel and host services: `device_create`, `cdev_add`/`cdev_del`, `class_create`, `alloc_chrdev_region`, `kzalloc`/`kfree`, `remap_pfn_range`, `virt_to_phys`, `pgprot_noncached`, `copy_to_user`/`copy_from_user`, and the library's `open`/`mmap`/`munmap`/`ioctl`/`sigaction`/`close`.
  Each is a success/failure input or a returned value. Page mapping is modelled only as "the mapped view is the same bytes".
- Signal delivery itself (`find_get_pid`, `get_pid_task`, `send_sig_info`). The model only records the requested SIGUSR1.
  Control.Ioctl: SIGNAL's status 0 assumes `pid` names a live task. The driver does not check the lookup; for any other pid `get_pid_task` returns NULL, `send_sig_info` dereferences it, and the ioctl never returns.
- All `pr_info`/`pr_err`/`printf` logging and the PRINTK payload: `Control.Ioctl` treats PRINTK as a successful no-op. `Library.Print` only passes the message address along.
- The driver's `zndkcdev_open`/`zndkcdev_close`: they only bind the open file to its instance and log. Operations take that instance's buffer directly.
- BufferAccess.BufRd: requires `ofs >= 0 && len >= 0`, because the driver does not reject negative values and C's behaviour for them is out of bounds or undefined.
- BufferAccess.BufWr: requires `ofs >= 0 && len >= 0`, for the same reason.
- User copies: where a failing `copy_to_user`/`copy_from_user` stops is an input (`Fault`). The kernel only promises that it stops short of the end; the model does not say where.
  A NULL data pointer inside a `TZndkCdevMem` is a fault at 0 bytes, since addresses in the model are non-NULL.
- Control.Ioctl: a GET_VERSION whose `copy_to_user` faults returns -EFAULT and records no effect, though the caller may already hold a prefix of the version field. The argument-struct copies of BUF_RD, BUF_WR and SIGNAL go to a kernel local that is discarded on failure, so a bool describes them exactly.
- Control.Ioctl: requires the argument to be NULL or of the shape the command reads. The driver cannot tell the two apart, and reading a mismatched struct is not modelled.
- Lifecycle.Remove: requires that the instance was not removed already. The driver would free the buffer a second time (see `SecondRemoveWouldDoubleFree`).
- Integer widths: `ofs` and `len` are C `int`, `count` is `size_t` and the position is `loff_t`. With non-negative offsets below the 1 MiB capacity no intermediate value overflows, so plain integers are used.
- Device numbers are a `(major, minor)` pair instead of the packed `MKDEV` encoding.
  A dynamically allocated major is assumed non-zero. The region's minor count is modelled only for unregistering it; that `cdev_add` of minor 1 lies outside a one-minor region is not modelled.
- `class_create` failure follows the driver's NULL test; real kernels signal it with an error pointer, which that test would miss.
- Lifecycle.Probe: `deviceOk` means "`device_create` returned non-NULL". Real kernels report a `device_create` failure with an error pointer, which the NULL test at drv/zndkcdev.c:477 misses. A real probe would then continue with a bogus `dcb->dev` instead of returning -1.
- The ioctl encoding uses direction NONE = 0, as on the common architectures; on architectures where `_IOC_NONE` is 1 the codes differ by a constant high bit, and they remain distinct.
- Library calls that use the handle (`close`, `mmap`, `munmap`) require a prior successful open. Before one, the library's handle pointer is NULL and the C code would dereference it.
- test/testzndkcdev.c is a demo program; only its scenarios are replayed (`MappedLettersReadBack`, `SignalReachesCallback`, `BufWriteThenBufRead`). lib/libzndkcdev.h only declares `TDevHandle` and prototypes, which are folded into `Library`.
