/**
  Concrete runs of the driver, from an unbound device whose sample
  registers read accel (1, 2, 3), compass (4, 5, 6) and, where it matters,
  gyro (7, 8, 9).
 */
module Scenarios {
  import opened RegisterInterface
  import opened Samples
  import opened Marshal
  import opened Driver
  import opened Protocol

  /** The accelerometer reads (1, 2, 3) and the compass (4, 5, 6). */
  predicate AccelCompassRead(regs: Registers)
  {
    && ReadSample(regs, ACCEL_X) == 1 && ReadSample(regs, ACCEL_Y) == 2 && ReadSample(regs, ACCEL_Z) == 3
    && ReadSample(regs, COMPASS_X) == 4 && ReadSample(regs, COMPASS_Y) == 5 && ReadSample(regs, COMPASS_Z) == 6
  }

  /** ... and the gyroscope (7, 8, 9). */
  predicate AllRead(regs: Registers)
  {
    && AccelCompassRead(regs)
    && ReadSample(regs, GYRO_X) == 7 && ReadSample(regs, GYRO_Y) == 8 && ReadSample(regs, GYRO_Z) == 9
  }

  /** Sampling under status 7 reads every register. */
  lemma SampleAll(regs: Registers)
    requires AllRead(regs)
    ensures Assemble(SENSOR_MASK, regs) == [1, 2, 3, 4, 5, 6, 7, 8, 9]
  {
    var r := Assemble(SENSOR_MASK, regs);
    assert r == ClassTriple(SENSOR_MASK, regs, Accel) + ClassTriple(SENSOR_MASK, regs, Compass) + ClassTriple(SENSOR_MASK, regs, Gyro);
  }

  /** Sampling under status 3 reads accel and compass and zeroes the gyro triple, whatever the gyro reads. */
  lemma SampleAccelCompass(regs: Registers)
    requires AccelCompassRead(regs)
    ensures Assemble(3, regs) == [1, 2, 3, 4, 5, 6, 0, 0, 0]
  {
    var r := Assemble(3, regs);
    assert r == ClassTriple(3, regs, Accel) + ClassTriple(3, regs, Compass) + ClassTriple(3, regs, Gyro);
  }

  /** The world right after probe and a successful open: status 7, every class armed. */
  function Opened(regs: Registers): World
  {
    World(Device(true, 1, SENSOR_MASK, ZeroRecord, regs.(intEnable := SENSOR_MASK)), 1, 0, false)
  }

  lemma ProbeThenOpen(regs: Registers)
    ensures Run(Initial(regs), [Bind, OpenFile]) == Some((Opened(regs), [Returned(0), Returned(0)]))
  {
    var w1 := Step(Initial(regs), Bind).value.0;
    assert w1 == World(Device(true, 0, SENSOR_MASK, ZeroRecord, regs.(intEnable := SENSOR_MASK)), 0, 0, false);
    assert Step(w1, OpenFile) == Some((Opened(regs), Returned(0)));
    RunSingle(w1, OpenFile);
    RunCons(Initial(regs), Bind, [OpenFile]);
    assert [Bind] + [OpenFile] == [Bind, OpenFile];
    assert [Returned(0)] + [Returned(0)] == [Returned(0), Returned(0)];
  }

  /** Opened, then a write of 3 (accel and compass) that copies all four bytes. */
  lemma ProbeOpenWrite(regs: Registers)
    ensures var pre := [Bind, OpenFile] + [WriteMask(WordToBytes(3), 4)];
            && Run(Initial(regs), pre).Some?
            && Run(Initial(regs), pre).value.0 == Opened(regs).(dev := Opened(regs).dev.(status := 3))
  {
    var user := WordToBytes(3);
    ProbeThenOpen(regs);
    var w3 := Step(Opened(regs), WriteMask(user, 4)).value.0;
    assert WordToBytes(w3.dev.status) == user;
    assert w3.dev.status == 3;
    RunSingle(Opened(regs), WriteMask(user, 4));
    RunAfterPrefix(Initial(regs), [Bind, OpenFile], [WriteMask(user, 4)]);
  }

  /** From an open, armed world, begin-read, interrupt, finish-read is admissible. */
  lemma ReadAcrossIrqRuns(w: World)
    requires w.dev.bound && w.sessions == 1 && w.readers == 0 && !w.stale
    requires w.dev.regs.intEnable == SENSOR_MASK
    ensures Run(w, [BeginRead] + [Irq] + [FinishRead(false, true)]).Some?
  {
    var w1 := Step(w, BeginRead).value.0;
    RunSingle(w1, Irq);
    RunBracketedSome(w, BeginRead, [Irq], FinishRead(false, true));
  }

  /**
    Enable accel and compass with a write of 3; an interrupt reports data;
    the read returns 36 bytes that decode to (1, 2, 3, 4, 5, 6, 0, 0, 0).
   */
  lemma WriteAccelCompassThenRead(regs: Registers)
    requires AccelCompassRead(regs)
    ensures var es := [Bind, OpenFile] + [WriteMask(WordToBytes(3), 4)] + ([BeginRead] + [Irq] + [FinishRead(false, true)]);
            && Run(Initial(regs), es).Some?
            && Run(Initial(regs), es).value.1[5].ReadResult?
            && Run(Initial(regs), es).value.1[5].reply.rc == 36
            && |Run(Initial(regs), es).value.1[5].reply.bytes| == 36
            && Unflatten(Run(Initial(regs), es).value.1[5].reply.bytes) == [1, 2, 3, 4, 5, 6, 0, 0, 0]
  {
    var pre := [Bind, OpenFile] + [WriteMask(WordToBytes(3), 4)];
    var tail := [BeginRead] + [Irq] + [FinishRead(false, true)];
    ProbeOpenWrite(regs);
    var w3 := Run(Initial(regs), pre).value.0;
    ReadAcrossIrqRuns(w3);
    ReadDeliversPreWaitSample(w3, [Irq], false);
    SampleAccelCompass(regs);
    RunAfterPrefix(Initial(regs), pre, tail);
    assert |pre| + 2 == 5;
  }

  /**
    Right after probe and open the status word is already 7, so the first
    read does not wait for any interrupt: it finishes at once, unsignalled,
    and returns all nine registers.
   */
  lemma FirstReadDoesNotWait(regs: Registers)
    requires AllRead(regs)
    ensures var es := [Bind, OpenFile] + ([BeginRead] + [] + [FinishRead(false, true)]);
            && Run(Initial(regs), es).Some?
            && Run(Initial(regs), es).value.1[3].ReadResult?
            && Run(Initial(regs), es).value.1[3].reply.rc == 36
            && |Run(Initial(regs), es).value.1[3].reply.bytes| == 36
            && Unflatten(Run(Initial(regs), es).value.1[3].reply.bytes) == [1, 2, 3, 4, 5, 6, 7, 8, 9]
  {
    var pre := [Bind, OpenFile];
    var tail := [BeginRead] + [] + [FinishRead(false, true)];
    ProbeThenOpen(regs);
    var w2 := Opened(regs);
    RunBracketedSome(w2, BeginRead, [], FinishRead(false, true));
    ReadDeliversPreWaitSample(w2, [], false);
    SampleAll(regs);
    RunAfterPrefix(Initial(regs), pre, tail);
    assert |pre| + 1 == 3;
  }

  /** While a read sleeps, the device reports only the gyroscope and the interrupt claims it, storing status 4. */
  lemma GyroMidRuns(w1: World, regs: Registers)
    requires w1.dev.bound && regs.intEnable == SENSOR_IRQ_GYRO
    ensures Run(w1, [DeviceUpdate(regs), Irq]) ==
            Some((w1.(dev := w1.dev.(regs := regs, status := SENSOR_IRQ_GYRO)), [NoOutput, IrqResult(IrqHandled)]))
  {
    var w2 := w1.(dev := w1.dev.(regs := regs));
    assert Step(w1, DeviceUpdate(regs)) == Some((w2, NoOutput));
    assert Interrupt(w2.dev) == (w2.dev.(status := SENSOR_IRQ_GYRO), IrqHandled);
    RunSingle(w2, Irq);
    RunCons(w1, DeviceUpdate(regs), [Irq]);
    assert [DeviceUpdate(regs)] + [Irq] == [DeviceUpdate(regs), Irq];
    assert [NoOutput] + [IrqResult(IrqHandled)] == [NoOutput, IrqResult(IrqHandled)];
  }

  /**
    From an open world: a read begins, the device then reports only the
    gyroscope (INT_ENABLE reads 4), the interrupt claims it, and the read
    finishes.
   */
  lemma GyroTailRuns(w: World)
    requires w.dev.bound && w.sessions == 1 && w.readers == 0 && !w.stale
    ensures var upd := DeviceUpdate(w.dev.regs.(intEnable := SENSOR_IRQ_GYRO));
            var tail := [BeginRead] + [upd, Irq] + [FinishRead(false, true)];
            && Run(w, tail).Some?
            && Run(w, tail).value.1[2] == IrqResult(IrqHandled)
  {
    var regs := w.dev.regs.(intEnable := SENSOR_IRQ_GYRO);
    var upd := DeviceUpdate(regs);
    var fin := FinishRead(false, true);
    var w1 := Step(w, BeginRead).value.0;
    GyroMidRuns(w1, regs);
    RunCons(w, BeginRead, [upd, Irq]);
    var head := Run(w, [BeginRead] + [upd, Irq]).value;
    assert head.1[2] == IrqResult(IrqHandled);
    assert Step(head.0, fin).Some?;
    RunSingle(head.0, fin);
    RunAppend(w, [BeginRead] + [upd, Irq], [fin]);
  }

  /** From the opened world, the gyro-only interrupt and then the read's answer, which still holds every register. */
  lemma GyroReadFromOpened(regs: Registers)
    requires AllRead(regs)
    ensures var w2 := Opened(regs);
            var upd := DeviceUpdate(w2.dev.regs.(intEnable := SENSOR_IRQ_GYRO));
            var tail := [BeginRead] + [upd, Irq] + [FinishRead(false, true)];
            && Run(w2, tail).Some?
            && Run(w2, tail).value.1[2] == IrqResult(IrqHandled)
            && Run(w2, tail).value.1[3].ReadResult?
            && Run(w2, tail).value.1[3].reply.rc == 36
            && |Run(w2, tail).value.1[3].reply.bytes| == 36
            && Unflatten(Run(w2, tail).value.1[3].reply.bytes) == [1, 2, 3, 4, 5, 6, 7, 8, 9]
  {
    var w2 := Opened(regs);
    var upd := DeviceUpdate(w2.dev.regs.(intEnable := SENSOR_IRQ_GYRO));
    GyroTailRuns(w2);
    assert NoReadBegins([upd, Irq]);
    ReadDeliversPreWaitSample(w2, [upd, Irq], false);
    SampleAll(regs);
  }

  /**
    After probe and open, a read samples under status 7; the device then
    reports only the gyroscope and the interrupt stores status 4, yet the read
    returns all nine registers, because it sampled under the status word that
    held before its wait.
   */
  lemma GyroInterruptAfterFullSample(regs: Registers)
    requires AllRead(regs)
    ensures var upd := DeviceUpdate(regs.(intEnable := SENSOR_IRQ_GYRO));
            var es := [Bind, OpenFile] + ([BeginRead] + [upd, Irq] + [FinishRead(false, true)]);
            && Run(Initial(regs), es).Some?
            && Run(Initial(regs), es).value.1[4] == IrqResult(IrqHandled)
            && Run(Initial(regs), es).value.1[5].ReadResult?
            && Run(Initial(regs), es).value.1[5].reply.rc == 36
            && |Run(Initial(regs), es).value.1[5].reply.bytes| == 36
            && Unflatten(Run(Initial(regs), es).value.1[5].reply.bytes) == [1, 2, 3, 4, 5, 6, 7, 8, 9]
  {
    var pre := [Bind, OpenFile];
    var w2 := Opened(regs);
    var upd := DeviceUpdate(w2.dev.regs.(intEnable := SENSOR_IRQ_GYRO));
    assert upd == DeviceUpdate(regs.(intEnable := SENSOR_IRQ_GYRO));
    var tail := [BeginRead] + [upd, Irq] + [FinishRead(false, true)];
    ProbeThenOpen(regs);
    GyroReadFromOpened(regs);
    RunAfterPrefix(Initial(regs), pre, tail);
    assert |pre| + 2 == 4 && |pre| + 3 == 5;
  }

  /** From the opened world: a read begins under status 7, then the caller writes 3. */
  lemma ReadThenWriteRuns(regs: Registers)
    ensures var pre := [BeginRead, WriteMask(WordToBytes(3), 4)];
            && Run(Opened(regs), pre).Some?
            && Run(Opened(regs), pre).value.0 ==
               Opened(regs).(dev := Opened(regs).dev.(status := 3, buffer := Assemble(SENSOR_MASK, Opened(regs).dev.regs)), readers := 1)
  {
    var w2 := Opened(regs);
    var wr := WriteMask(WordToBytes(3), 4);
    var w3 := Step(w2, BeginRead).value.0;
    var w4 := Step(w3, wr).value.0;
    assert WordToBytes(w4.dev.status) == WordToBytes(3);
    assert w4.dev.status == BytesToWord(WordToBytes(3));
    RunSingle(w3, wr);
    RunCons(w2, BeginRead, [wr]);
    assert [BeginRead] + [wr] == [BeginRead, wr];
  }

  /**
    Two reads on the one open file: the first samples all nine registers and
    sleeps; the caller writes 3; a second read samples accel and compass only,
    into the same buffer. The read that then finishes hands out the second
    sample, (1, 2, 3, 4, 5, 6, 0, 0, 0): the first read's sample is gone.
   */
  lemma ConcurrentReadOverwritesSample(regs: Registers)
    requires AllRead(regs)
    ensures var es := [BeginRead, WriteMask(WordToBytes(3), 4)] + ([BeginRead] + [] + [FinishRead(false, true)]);
            && Run(Opened(regs), es).Some?
            && Run(Opened(regs), es).value.1[3].ReadResult?
            && Run(Opened(regs), es).value.1[3].reply.rc == 36
            && |Run(Opened(regs), es).value.1[3].reply.bytes| == 36
            && Unflatten(Run(Opened(regs), es).value.1[3].reply.bytes) == [1, 2, 3, 4, 5, 6, 0, 0, 0]
            && Run(Opened(regs), es).value.0.readers == 1
  {
    var pre := [BeginRead, WriteMask(WordToBytes(3), 4)];
    var tail := [BeginRead] + [] + [FinishRead(false, true)];
    ReadThenWriteRuns(regs);
    var w4 := Run(Opened(regs), pre).value.0;
    RunBracketedSome(w4, BeginRead, [], FinishRead(false, true));
    ReadDeliversPreWaitSample(w4, [], false);
    SampleAccelCompass(w4.dev.regs);
    RunAfterPrefix(Opened(regs), pre, tail);
    assert |pre| + 1 == 3;
  }
}
