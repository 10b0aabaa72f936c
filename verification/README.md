# Goldfish sensor driver: a Dafny model

This project models the Android emulator ("Goldfish") sensor driver, `goldfish_sensor.c`.
The driver is a Linux platform driver. It exposes one character device through which a
single user-space client reads accelerometer, compass and gyroscope samples. Each sample
is nine 32-bit integers: X, Y and Z per class. The client also writes a 32-bit mask of
the classes it wants.

What is modelled:

- `RegisterInterface` (`registers.dfy`) covers the device's register window. INT_ENABLE
  sits at offset 0x00 and the nine sample registers at 0x04 to 0x24. The file also holds
  the three class bits `SENSOR_IRQ_ACCEL`, `SENSOR_IRQ_COMPASS` and `SENSOR_IRQ_GYRO` (1,
  2 and 4) and `SENSOR_MASK` (7). A register file is the INT_ENABLE word plus the values
  the nine sample registers currently read as.
- `Samples` (`samples.dfy`) covers the nine-slot record the read path assembles under a
  status word. A class whose bit is set contributes its X/Y/Z registers. A class whose
  bit is clear contributes zeros.
- `Marshal` (`marshal.dfy`) covers the bytes that cross the user boundary. A word is four
  bytes, least significant first; a record is 36 bytes. The driver builds for ARM, x86
  and MIPS, and the model assumes a little-endian target. It includes the round trips between the
  two.
- `Driver` (`driver.dfy`) covers the driver's state and its operations, each as a pure
  transition that returns the new state and the value handed back to the kernel. The
  state is:
  - whether the global device pointer is set;
  - the global open counter;
  - the shared `buffer_status` word;
  - the sample buffer;
  - the register file.

  The operations are probe, remove, open, release, write, ioctl and the interrupt
  handler. The blocking read is split at its `wait_event_interruptible`: `ReadBegin` is
  the sampling before the wait and `ReadFinish` is the reset and copy-out after it.
- `Protocol` (`protocol.dfy`) covers event traces. A `World` adds what the kernel knows:
  - how many files are open;
  - how many reads are asleep in their wait;
  - whether the open file is stale, that is, whether the device it was opened on has
    been removed.

  `Step` admits an event only when the kernel could deliver it without the driver
  touching a missing or freed device:
  - release, read, write and ioctl need an open file;
  - read and write go through the file's own device pointer, so a stale file's reads
    and writes are refused, even after a new probe;
  - release goes through the global device pointer, so it needs some device bound;
  - the interrupt handler needs the device bound;
  - release and remove are not admitted while a read sleeps.

  A second read while one sleeps is admitted, as the driver takes no lock on its read
  path. Over admissible traces the module proves the exclusivity invariant, the
  open/release round trip and the read hand-off. It also proves that a concurrent read
  replaces the sample a sleeping read will hand out.
- `Scenarios` (`scenarios.dfy`) holds concrete runs from an unbound device whose sample
  registers read 1 to 9.

Inputs the driver cannot see become parameters:

- how many bytes `copy_from_user` managed (`copied`);
- whether `copy_to_user` faulted (`copyOk`);
- whether the sleep ended by a signal (`signalled`);
- what the device presents in its registers (the `DeviceUpdate` event).

Neither `read` nor `write` has a length parameter. A read always copies 36 bytes
(READ_BUFFER_SIZE) and a write always copies 4 (WRITE_BUFFER_SIZE), whatever length
the caller asked for. The model therefore has no byte count either.

Behaviour of the code as written that the model keeps, and that a reader might not
expect:

- The read samples the registers before it waits, under the status word as it stands
  at that moment. After the wait it hands out that earlier sample. An interrupt that
  arrives during the wait only decides when the read returns, not what it returns
  (`Protocol.ReadDeliversPreWaitSample`, `Scenarios.GyroInterruptAfterFullSample`).
- Probe leaves the status word at 7. The first read after open therefore neither waits
  nor needs an interrupt (`Scenarios.FirstReadDoesNotWait`).
- Every read resets the status word to 0. The next read, unless a write or an
  interrupt intervenes, therefore samples the all-zero record and then sleeps until an
  interrupt (or a signal) comes (`Protocol.SecondReadBlocks`,
  `Protocol.ReadAfterRearmIsZero`). An interrupt between the two reads stores the
  reported classes instead, and the next read samples those classes and does not wait
  (`Protocol.InterruptBetweenReadsSelectsClasses`).
- The wait's result is ignored, so a signal ends the sleep and the read carries on
  exactly as after a wake-up.
- A faulting write returns -EFAULT + 4 = -10, not -EFAULT.
- Remove does not reset the open counter. A file left open across remove and a new
  probe keeps the new device busy until it is released (`Protocol.RebindLeavesOldFileStale`).
- Two reads may sleep at once, and both sample into the one shared buffer. Whichever
  read wakes next hands out the later sample (`Protocol.ConcurrentReadReplacesBuffer`,
  `Scenarios.ConcurrentReadOverwritesSample`).

## Model

| member | source | states |
|---|---|---|
| RegisterInterface.Bit | goldfish_sensor.c:95-101 | each class's bit is a single bit inside SENSOR_MASK |
| RegisterInterface.BitsDistinct | goldfish_sensor.c:95-97 | two classes share a bit exactly when they are the same class |
| RegisterInterface.BitsCoverMask | goldfish_sensor.c:99-101 | the three class bits together are SENSOR_MASK, which is 7 |
| RegisterInterface.WriteIntEnable | goldfish_sensor.c:64-65 | a write to INT_ENABLE sets that word and leaves every sample register as it reads |
| Samples.ClassTriple | goldfish_sensor.c:117-152 | a class contributes three values, entry j being that class's j-th register when its bit is set and 0 otherwise (the slot rule at slot FirstSlot(c) + j) |
| Samples.Assemble | goldfish_sensor.c:115-158 | slot i of the sampled record is the register of slot i's class when that class's bit is set in the status word, and 0 otherwise; the no-class branch also yields that all-zero record |
| Samples.AssembleNoClassIsZero | goldfish_sensor.c:156-158 | with no class bit in the status word the buffer is all zeros |
| Samples.AssembleIgnoresHighBits | goldfish_sensor.c:115-152 | status bits above the three class bits never affect the sampled record |
| Samples.AssembleClassTriple | goldfish_sensor.c:117-152 | slots 3k..3k+2 are class k's X/Y/Z registers when its bit is set and zeros when it is clear |
| Marshal.BytesToWord | goldfish_sensor.c:214 | the four bytes the caller writes become the status word, byte k of the word being the k-th byte written |
| Marshal.WordToBytes | goldfish_sensor.c:214 | a status word has four bytes, and reading them back as a word gives the same word |
| Marshal.BytesWordRoundTrip | goldfish_sensor.c:214 | four bytes copied into the status word read back as the same four bytes |
| Marshal.Flatten | goldfish_sensor.c:67 | n words occupy 4n bytes (nine ints are READ_BUFFER_SIZE = 36 bytes) |
| Marshal.Unflatten | goldfish_sensor.c:67 | a region of 4n bytes holds n words |
| Marshal.FlattenAt | goldfish_sensor.c:192 | word i of the copied buffer sits at bytes 4i..4i+3 |
| Marshal.UnflattenFlatten | goldfish_sensor.c:192 | the 36 bytes handed to the caller decode back to the nine buffer words |
| Marshal.FlattenUnflatten | goldfish_sensor.c:192 | decoding a byte region into words and laying the words out again reproduces the region |
| Driver.Probe | goldfish_sensor.c:372-377 | after probe the device is reachable, the status word is 7 and INT_ENABLE holds SENSOR_MASK; the open counter is not reset |
| Driver.Remove | goldfish_sensor.c:402-411 | remove clears the device pointer and nothing else the model tracks |
| Driver.Open | goldfish_sensor.c:225-247 | open succeeds iff a device is bound and no file is open; no device gives -ENODEV and a busy device gives -EBUSY, both with nothing changed; success sets the counter to 1 and arms all classes; the status word and buffer are never touched |
| Driver.Release | goldfish_sensor.c:249-254 | release returns 0, drops the counter by one and writes 0 to INT_ENABLE, leaving the status word and buffer as they were |
| Driver.Zeros | goldfish_sensor.c:214 | the padding of a short user copy is all zero bytes |
| Driver.Write | goldfish_sensor.c:203-223 | a full copy puts the caller's four bytes verbatim into the status word and returns 4; a short copy returns -EFAULT + 4 (negative), keeps the copied prefix and zero-fills the rest; nothing but the status word changes |
| Driver.Ioctl | goldfish_sensor.c:256-263 | the result is -1 exactly when the command is 315 and 0 exactly otherwise |
| Driver.Interrupt | goldfish_sensor.c:265-286 | the handler claims the interrupt iff INT_ENABLE has a class bit; then the status word becomes those class bits (1..7); otherwise nothing changes; nothing but the status word ever changes |
| Driver.WaitConditionCases | goldfish_sensor.c:162 | the wait ends on a signal, on any class bit and on any other bit of the status word (the whole word is tested); it goes on exactly while the word is 0 and no signal came |
| Driver.ReadBegin | goldfish_sensor.c:108-158 | before the wait, each class's triple in the buffer is its registers if its bit is set in the current status word and zeros otherwise; nothing but the buffer changes |
| Driver.ReadFinish | goldfish_sensor.c:162-200 | after the wait the status word is 0 whatever happens next; a successful copy returns 36 and 36 bytes that decode to the buffer; a faulting copy returns -EFAULT |
| Protocol.StepFrame | goldfish_sensor.c:289-297 | over the dispatch of every file operation and the interrupt: only the device changes its sample registers, only a read's sampling or a probe writes the buffer, only an interrupt, a write, a read's reset or a probe writes the status word; open and register changes are always admissible |
| Protocol.StepKeepsInv | goldfish_sensor.c:232-253 | each admissible event keeps counter = open files <= 1; a stale file is that one file; sleeping reads belong to it, on a bound device it was opened on |
| Protocol.RunKeepsInv | goldfish_sensor.c:232-253 | every admissible trace keeps that invariant |
| Protocol.AtMostOneSession | goldfish_sensor.c:232-246 | from the initial state, any admissible trace leaves at most one open file, and the counter equals the number of open files |
| Protocol.SecondOpenIsBusy | goldfish_sensor.c:242-246 | while a file is open on a bound device, another open returns -EBUSY and changes nothing |
| Protocol.OpenCloseRoundTrip | goldfish_sensor.c:232-253 | open then release both return 0 and give back the starting world exactly, except that INT_ENABLE now holds 0 |
| Protocol.ReadersStayZero | goldfish_sensor.c:162-190 | once no read sleeps, none sleeps again until a read begins |
| Protocol.BufferHeldWhileReading | goldfish_sensor.c:153-162 | while no read begins, sleeping reads never increase, and as long as one still sleeps the sampled buffer and the binding are unchanged; if no read ends either, the number of sleeping reads is unchanged |
| Protocol.ReadDeliversPreWaitSample | goldfish_sensor.c:115-200 | a completed read returns 36 bytes that decode to the record sampled from the status word and registers at its start, whatever interrupts, writes, register changes or finishing earlier reads happened during the wait, as long as no other read began; it leaves the status word 0 and no more reads asleep than before (the same number if none ended) |
| Protocol.FinishDeliversHeldBuffer | goldfish_sensor.c:190-200 | a read that wakes, with no read begun during its wait, returns exactly the bytes of the buffer it held when its wait began, resets the status word, and leaves one fewer read asleep |
| Protocol.ConcurrentReadReplacesBuffer | goldfish_sensor.c:108-158 | while a read sleeps, another read is admitted; it overwrites the shared buffer with a fresh sample under the current status word |
| Protocol.RebindLeavesOldFileStale | goldfish_sensor.c:203-253 | after remove and a new probe with a file still open, that file's reads and writes are refused, a new open returns -EBUSY, and only its release is accepted; the release returns 0, disarms the new device and ends the session |
| Protocol.WriteSelectsClasses | goldfish_sensor.c:115-153 | after a full write of mask m, the next read samples exactly the classes set in m |
| Protocol.ReadAfterRearmIsZero | goldfish_sensor.c:156-158 | a read begun with no class bit in the status word delivers the all-zero record, even if an interrupt reports data during the wait, as long as no other read begins during the wait |
| Protocol.InterruptBetweenReadsSelectsClasses | goldfish_sensor.c:273-280 | a claimed interrupt between two reads sets the status word to the reported classes, so the next read samples exactly those classes and its wait is already over |
| Protocol.SecondReadBlocks | goldfish_sensor.c:162-190 | a read begun right after another finished finds status 0, samples zeros and cannot finish unsignalled |
| Protocol.WaitNeedsIrqOrWrite | goldfish_sensor.c:162 | with the status word at 0, only an interrupt, a write or a re-probe can end the wait, other than a signal |
| Scenarios.SampleAll | goldfish_sensor.c:115-153 | under status 7 the record is the nine registers in order |
| Scenarios.SampleAccelCompass | goldfish_sensor.c:115-153 | under status 3 the gyro triple is zero whatever the gyro registers read |
| Scenarios.ProbeThenOpen | goldfish_sensor.c:232-240 | probe then open both return 0 and leave status 7 with all classes armed |
| Scenarios.ProbeOpenWrite | goldfish_sensor.c:213-222 | a write of 3 after open sets the status word to 3 |
| Scenarios.ReadAcrossIrqRuns | goldfish_sensor.c:162 | begin-read, interrupt, finish-read is admissible on an armed, open device |
| Scenarios.WriteAccelCompassThenRead | goldfish_sensor.c:115-200 | write 3, interrupt, read: 36 bytes decoding to (1, 2, 3, 4, 5, 6, 0, 0, 0) |
| Scenarios.FirstReadDoesNotWait | goldfish_sensor.c:162 | right after probe and open the read finishes unsignalled with no interrupt and returns all nine registers |
| Scenarios.GyroMidRuns | goldfish_sensor.c:273-285 | with INT_ENABLE reading 4 the interrupt is claimed and stores status 4 |
| Scenarios.GyroTailRuns | goldfish_sensor.c:273-285 | a gyro-only interrupt during a read is claimed and the read then finishes |
| Scenarios.GyroReadFromOpened | goldfish_sensor.c:115-200 | a read started under status 7 still returns all nine registers after a gyro-only interrupt |
| Scenarios.ReadThenWriteRuns | goldfish_sensor.c:115-222 | a read begun under status 7 samples all classes; a write of 3 while it sleeps changes only the status word |
| Scenarios.ConcurrentReadOverwritesSample | goldfish_sensor.c:108-200 | a first read samples all nine registers; a write of 3 and a second read follow; the read that finishes returns (1, 2, 3, 4, 5, 6, 0, 0, 0) |
| Scenarios.GyroInterruptAfterFullSample | goldfish_sensor.c:115-200 | the same from the unbound device: probe, open, read, gyro-only interrupt; the interrupt is claimed and the read returns 1..9 |

## Left out

- Locking: the spinlock and the atomic counter's atomicity. Transitions are atomic steps, and the only interleavings modelled are whole events between a read's two halves, including other reads. The read path takes no lock, so the model misses interleavings inside `ReadBegin` and `ReadFinish`:
  - the sampling reads `buffer_status` four separate times (lines 115, 117, 129, 141), and an interrupt, a write or another read's reset (line 190) landing between them gives a record that mixes two status words;
  - another read can rewrite `read_buffer` while `copy_to_user` (line 192) is copying it out.
- The wait queue: sleeping reads are a count, and `wake_up` is implicit in the wake-up condition `Driver.Woken`. A read may finish as soon as the status word is nonzero, whoever set it. The write path never calls `wake_up`, so a write reaches a read that is already asleep only once an interrupt (or a signal) wakes it. The model lets such a read finish straight after the write. This affects when a read returns, never what it returns.
- Cancellation: the code has no cancellation path other than a signal, which it treats as a wake-up.
- The `kmalloc(sizeof(char))` allocations in the read path, which are too small for nine ints: the model gives `temp` nine slots.
- The `temp1` block after the wait, which only feeds `printk`, and every `printk` call.
- The leak of `temp` and `temp1` on the -EFAULT return of read.
- Platform plumbing: resource lookup, ioremap, DMA allocation, `request_irq`, `misc_register`, the probe error paths, module init and exit. `Bind` is a probe that succeeded.
- Use after free: traces exclude events that would touch freed memory or a null pointer, rather than model undefined behaviour. Excluded are read and write from a file opened on a removed device (through `private_data`), release while no device is bound (through the null global pointer), an interrupt after remove, and remove or release while a read sleeps.
- Samples.Assemble: with no class bit set, the code copies 36 bytes from address 0, which is undefined; the model gives the all-zero record.
- Driver.Probe: the buffer starts as the all-zero record, taking DMA-coherent memory to come zeroed.
- Driver.Open: the counter is an unbounded integer; 32-bit wrap-around of `atomic_t` is not modelled, and the admissible traces never reach it.
- Driver.ReadFinish: on a faulting copy the bytes that did reach the caller are not modelled (the reply carries none).
- Driver.Write: a short copy is modelled by how many bytes arrived, with the rest zero-filled; which bytes fault is not modelled.
- The arithmetic right shifts of signed samples in the `printk` arguments.
