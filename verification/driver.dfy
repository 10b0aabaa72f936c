/**
  The Goldfish sensor driver's file operations and interrupt handler as
  pure transitions over one device state. Each operation returns the new
  state together with the value the kernel hands back to its caller.

  The blocking read is split at its wait: `ReadBegin` is everything before
  `wait_event_interruptible`, `ReadFinish` everything after it. Whatever
  happens in between (interrupts, writes, the device changing its
  registers) is a separate transition.
 */
module Driver {
  import opened RegisterInterface
  import opened Samples
  import opened Marshal

  /** Linux errno values, returned negated. */
  const EFAULT: int := 14
  const EBUSY: int := 16
  const ENODEV: int := 19

  /** Bytes moved by one read (nine ints) and by one write (one int). */
  const READ_BUFFER_SIZE: nat := 36
  const WRITE_BUFFER_SIZE: nat := 4

  /** The one control command the driver refuses. */
  const LEGACY_IOCTL_CMD: bv32 := 315

  /**
    The driver's state. `bound` says whether the global device pointer is
    set (probe done, remove not yet); `openCount` is the global session
    counter, which outlives any one binding; `status` is the shared status
    word, which is at once the enable mask the caller writes and the ready
    mask the interrupt handler stores; `buffer` is the DMA sample buffer;
    `regs` is the device's register window.
   */
  datatype Device = Device(bound: bool, openCount: int, status: Word, buffer: Record, regs: Registers)

  datatype IrqReturn = IrqNone | IrqHandled

  /** What a read returns: the byte count or an error, and the bytes delivered to the caller. */
  datatype ReadReply = ReadReply(rc: int, bytes: seq<Byte>)

  /**
    The end of a successful probe: every class is marked in the status word,
    every class's interrupt is enabled and the device becomes reachable from
    `open`. The session counter is a global and is not reset.
   */
  function Probe(d: Device): (r: Device)
    ensures r.bound
    ensures r.status == SENSOR_MASK && r.status == 7
    ensures r.regs.intEnable == SENSOR_MASK
    ensures r.openCount == d.openCount && r.regs.samples == d.regs.samples
  {
    d.(bound := true,
       status := (SENSOR_IRQ_ACCEL | SENSOR_IRQ_COMPASS) | SENSOR_IRQ_GYRO,
       buffer := ZeroRecord,
       regs := WriteIntEnable(d.regs, SENSOR_MASK))
  }

  /** Remove clears the global device pointer and nothing else the model tracks. */
  function Remove(d: Device): (r: Device)
    ensures !r.bound
    ensures r.(bound := d.bound) == d
  {
    d.(bound := false)
  }

  /**
    Open: no device gives -ENODEV; otherwise the counter is incremented and,
    if it became 1, the open succeeds and arms all three classes; if not, the
    increment is undone and the open fails with -EBUSY. The status word is
    never touched.
   */
  function Open(d: Device): (r: (Device, int))
    ensures r.1 == 0 <==> d.bound && d.openCount == 0
    ensures !d.bound ==> r == (d, -ENODEV)
    ensures d.bound && d.openCount != 0 ==> r == (d, -EBUSY)
    ensures r.1 == 0 ==> r.0.openCount == 1 && r.0.regs.intEnable == SENSOR_MASK
    ensures r.0.status == d.status && r.0.buffer == d.buffer && r.0.bound == d.bound
    ensures r.0.regs.samples == d.regs.samples
  {
    if !d.bound then
      (d, -ENODEV)
    else if d.openCount + 1 == 1 then
      (d.(openCount := d.openCount + 1, regs := WriteIntEnable(d.regs, SENSOR_MASK)), 0)
    else
      (d, -EBUSY)
  }

  /**
    Release: drops the counter by one and disables every interrupt, however
    many classes were enabled. It dereferences the global device pointer, so
    the device must still be bound.
   */
  function Release(d: Device): (r: (Device, int))
    requires d.bound
    ensures r.1 == 0
    ensures r.0.openCount == d.openCount - 1
    ensures r.0.regs.intEnable == 0
    ensures r.0.status == d.status && r.0.buffer == d.buffer && r.0.bound
    ensures r.0.regs.samples == d.regs.samples
  {
    (d.(openCount := d.openCount - 1, regs := WriteIntEnable(d.regs, 0)), 0)
  }

  /** `n` zero bytes: what `copy_from_user` pads a short copy with. */
  function Zeros(n: nat): (z: seq<Byte>)
    ensures |z| == n
    ensures forall i :: 0 <= i < n ==> z[i] == 0
  {
    seq(n, _ => 0 as Byte)
  }

  /**
    Write: the caller's four bytes land in the status word verbatim, with no
    masking and no register access. `copied` is how many of them the user
    copy managed; a short copy leaves the rest zero-filled. The driver adds
    the 4-byte count after setting the error, so a failed copy returns
    -EFAULT + 4, not -EFAULT.
   */
  function Write(d: Device, user: seq<Byte>, copied: nat): (r: (Device, int))
    requires d.bound
    requires |user| == WRITE_BUFFER_SIZE && copied <= WRITE_BUFFER_SIZE
    ensures copied == WRITE_BUFFER_SIZE ==> WordToBytes(r.0.status) == user && r.1 == 4
    ensures copied < WRITE_BUFFER_SIZE ==> r.1 == -EFAULT + 4 && r.1 < 0
    ensures WordToBytes(r.0.status)[..copied] == user[..copied]
    ensures forall i :: copied <= i < 4 ==> WordToBytes(r.0.status)[i] == 0
    ensures r.0 == d.(status := r.0.status)
  {
    var landed := user[..copied] + Zeros(WRITE_BUFFER_SIZE - copied);
    BytesWordRoundTrip(landed);
    var rc := if copied == WRITE_BUFFER_SIZE then 0 else -EFAULT;
    (d.(status := BytesToWord(landed)), rc + WRITE_BUFFER_SIZE)
  }

  /** The control command: a stub that refuses command 315 and accepts everything else. */
  function Ioctl(cmd: bv32): (rc: int)
    ensures rc == -1 <==> cmd == LEGACY_IOCTL_CMD
    ensures rc == 0 <==> cmd != LEGACY_IOCTL_CMD
  {
    if cmd == LEGACY_IOCTL_CMD then -1 else 0
  }

  /**
    The interrupt handler: reads INT_ENABLE, keeps the three class bits, and
    if any is set stores them as the status word (which wakes the reader) and
    claims the interrupt; otherwise it leaves everything alone and declines
    it, so a shared line can be offered to the next handler.
   */
  function Interrupt(d: Device): (r: (Device, IrqReturn))
    requires d.bound
    ensures r.1 == IrqHandled <==> d.regs.intEnable & SENSOR_MASK != 0
    ensures r.1 == IrqHandled ==> r.0.status == d.regs.intEnable & SENSOR_MASK
    ensures r.1 == IrqHandled ==> 1 <= r.0.status <= 7
    ensures r.1 == IrqNone ==> r.0 == d
    ensures r.0 == d.(status := r.0.status)
  {
    var status := d.regs.intEnable & SENSOR_MASK;
    if status != 0 then (d.(status := status), IrqHandled) else (d, IrqNone)
  }

  /**
    The read up to its wait: each class whose bit is set in the status word
    as it stands now has its three registers sampled into the buffer; every
    other class's slots are zeroed. Nothing else changes.
   */
  function ReadBegin(d: Device): (r: Device)
    requires d.bound
    ensures forall c: SensorClass :: r.buffer[FirstSlot(c)..FirstSlot(c) + 3] == ClassTriple(d.status, d.regs, c)
    ensures r == d.(buffer := r.buffer)
  {
    AssembleAllTriples(d.status, d.regs);
    d.(buffer := Assemble(d.status, d.regs))
  }

  /**
    The wait's exit condition. The read sleeps until the status word is
    nonzero; a signal also ends the sleep, and because the driver ignores
    the wait's result the read then carries on exactly as after a wake-up.
    The test is on the whole word, so a written bit outside the three class
    bits ends the wait too.
   */
  predicate Woken(d: Device, signalled: bool)
  {
    d.status != 0 || signalled
  }

  /**
    The wait ends on a signal, on any class bit and on any other bit of the
    status word; it goes on only while the word is 0 and no signal came.
   */
  lemma WaitConditionCases(d: Device, signalled: bool)
    ensures signalled ==> Woken(d, signalled)
    ensures d.status & SENSOR_MASK != 0 ==> Woken(d, signalled)
    ensures d.status & !SENSOR_MASK != 0 ==> Woken(d, signalled)
    ensures !Woken(d, signalled) <==> !signalled && d.status == 0
  {
  }

  /**
    The read after its wait: the status word is reset to 0 first, then the
    buffer sampled before the wait is copied out. On success all 36 bytes
    reach the caller and 36 is returned; if the copy faults the read returns
    -EFAULT, but the status word has already been reset.
   */
  function ReadFinish(d: Device, signalled: bool, copyOk: bool): (r: (Device, ReadReply))
    requires d.bound && Woken(d, signalled)
    ensures r.0 == d.(status := 0)
    ensures copyOk ==> r.1.rc == READ_BUFFER_SIZE && |r.1.bytes| == READ_BUFFER_SIZE
    ensures copyOk ==> Unflatten(r.1.bytes) == d.buffer
    ensures !copyOk ==> r.1 == ReadReply(-EFAULT, [])
  {
    var d' := d.(status := 0);
    if copyOk then
      UnflattenFlatten(d.buffer);
      (d', ReadReply(READ_BUFFER_SIZE, Flatten(d.buffer)))
    else
      (d', ReadReply(-EFAULT, []))
  }
}
