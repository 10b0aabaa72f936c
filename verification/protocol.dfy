/**
  The driver's protocol over sequences of events. A `World` is the device
  state together with what the kernel knows about its callers: how many
  files are open on the device, how many reads are asleep in their wait,
  and whether the open file outlived the device it was opened on.
  `Step` admits an event only when the kernel could deliver it to the
  driver without the driver touching a missing or freed device: release,
  read, write and ioctl come from a successfully opened file; read and
  write go through the file's own device pointer, so they are refused once
  that device has been removed, even if another one has been probed since;
  release goes through the global pointer, so it needs some device bound;
  the interrupt handler runs only while it is registered; and neither
  release nor remove happens while a read sleeps on the device. Nothing
  stops two reads from sleeping at once: the driver takes no lock around
  its read path.
 */
module Protocol {
  import opened RegisterInterface
  import opened Samples
  import opened Marshal
  import opened Driver

  datatype Option<T> = None | Some(value: T)

  datatype Event =
    | Bind                                   // probe succeeded
    | Unbind                                 // remove
    | OpenFile
    | CloseFile
    | WriteMask(user: seq<Byte>, copied: nat)
    | BeginRead                              // read, up to its wait
    | FinishRead(signalled: bool, copyOk: bool)  // read, after its wait
    | Irq
    | DeviceUpdate(regs: Registers)          // the device changes its registers
    | Control(cmd: bv32)

  /** What the driver hands back for one event. */
  datatype Out =
    | Returned(rc: int)
    | IrqResult(ret: IrqReturn)
    | ReadResult(reply: ReadReply)
    | Sleeping                               // the read is now in its wait
    | NoOutput

  /**
    `readers` counts the reads asleep in their wait; `stale` says the open
    file's device pointer refers to a device that has been removed.
   */
  datatype World = World(dev: Device, sessions: nat, readers: nat, stale: bool)

  /** The machine before any probe: no device, no session. */
  function Initial(regs: Registers): World
  {
    World(Device(false, 0, 0, ZeroRecord, regs), 0, 0, false)
  }

  /** Whether `e` can happen in `w`, and if so the next world and the driver's answer. */
  function Step(w: World, e: Event): Option<(World, Out)>
  {
    match e
    case Bind =>
      if w.dev.bound then None
      else Some((w.(dev := Probe(w.dev)), Returned(0)))
    case Unbind =>
      if !w.dev.bound || w.readers > 0 then None
      else Some((w.(dev := Remove(w.dev), stale := w.sessions > 0), Returned(0)))
    case OpenFile =>
      var (d, rc) := Open(w.dev);
      Some((w.(dev := d, sessions := if rc == 0 then w.sessions + 1 else w.sessions), Returned(rc)))
    case CloseFile =>
      if !w.dev.bound || w.sessions == 0 || w.readers > 0 then None
      else
        var (d, rc) := Release(w.dev);
        Some((w.(dev := d, sessions := w.sessions - 1, stale := w.stale && w.sessions > 1), Returned(rc)))
    case WriteMask(user, copied) =>
      if !w.dev.bound || w.sessions == 0 || w.stale || |user| != WRITE_BUFFER_SIZE || copied > WRITE_BUFFER_SIZE then None
      else
        var (d, rc) := Write(w.dev, user, copied);
        Some((w.(dev := d), Returned(rc)))
    case BeginRead =>
      if !w.dev.bound || w.sessions == 0 || w.stale then None
      else Some((w.(dev := ReadBegin(w.dev), readers := w.readers + 1), Sleeping))
    case FinishRead(signalled, copyOk) =>
      if !w.dev.bound || w.readers == 0 || w.stale || !Woken(w.dev, signalled) then None
      else
        var (d, reply) := ReadFinish(w.dev, signalled, copyOk);
        Some((w.(dev := d, readers := w.readers - 1), ReadResult(reply)))
    case Irq =>
      if !w.dev.bound then None
      else
        var (d, ret) := Interrupt(w.dev);
        Some((w.(dev := d), IrqResult(ret)))
    case DeviceUpdate(regs) =>
      Some((w.(dev := w.dev.(regs := regs)), NoOutput))
    case Control(cmd) =>
      if w.sessions == 0 then None
      else Some((w, Returned(Ioctl(cmd))))
  }

  /**
    What each admissible event may touch: only the device changes its sample
    registers; only a read's sampling or a probe writes the buffer; only an
    interrupt, a write, a read's reset or a probe writes the status word;
    open and register changes can always happen.
   */
  lemma StepFrame(w: World, e: Event)
    ensures e.OpenFile? || e.DeviceUpdate? ==> Step(w, e).Some?
    ensures Step(w, e).Some? && !e.DeviceUpdate? ==> Step(w, e).value.0.dev.regs.samples == w.dev.regs.samples
    ensures Step(w, e).Some? && !e.BeginRead? && !e.Bind? ==> Step(w, e).value.0.dev.buffer == w.dev.buffer
    ensures Step(w, e).Some? && !e.Irq? && !e.WriteMask? && !e.FinishRead? && !e.Bind? ==>
              Step(w, e).value.0.dev.status == w.dev.status
  {
  }

  /** Runs a sequence of events; None if one of them is not admissible where it occurs. */
  function Run(w: World, es: seq<Event>): (r: Option<(World, seq<Out>)>)
    ensures r.Some? ==> |r.value.1| == |es|
    decreases |es|
  {
    if es == [] then Some((w, []))
    else
      match Step(w, es[0])
      case None => None
      case Some(s) =>
        match Run(s.0, es[1..])
        case None => None
        case Some(t) => Some((t.0, [s.1] + t.1))
  }

  /** Continues a run that may already have stopped. */
  function Then(r: Option<(World, seq<Out>)>, es: seq<Event>): Option<(World, seq<Out>)>
  {
    match r
    case None => None
    case Some(p) =>
      match Run(p.0, es)
      case None => None
      case Some(q) => Some((q.0, p.1 + q.1))
  }

  /** Running `a + b` is running `a` and then `b`. */
  lemma {:induction false} RunAppend(w: World, a: seq<Event>, b: seq<Event>)
    ensures Run(w, a + b) == Then(Run(w, a), b)
    decreases |a|
  {
    if a == [] {
      assert a + b == b;
      match Run(w, b)
      case None =>
      case Some(q) =>
        assert [] + q.1 == q.1;
    } else {
      if Step(w, a[0]).Some? {
        RunAppend(Step(w, a[0]).value.0, a[1..], b);
      }
      RunAppendStep(w, a, b);
    }
  }

  /** The inductive step of RunAppend: the first event, then the rest of `a` followed by `b`. */
  lemma RunAppendStep(w: World, a: seq<Event>, b: seq<Event>)
    requires a != []
    requires Step(w, a[0]).Some? ==>
               var w1 := Step(w, a[0]).value.0;
               Run(w1, a[1..] + b) == Then(Run(w1, a[1..]), b)
    ensures Run(w, a + b) == Then(Run(w, a), b)
  {
    assert (a + b)[0] == a[0];
    assert (a + b)[1..] == a[1..] + b;
    match Step(w, a[0])
    case None =>
    case Some(s) =>
      match Run(s.0, a[1..])
      case None =>
      case Some(t) =>
        match Run(t.0, b)
        case None =>
        case Some(q) =>
          assert [s.1] + (t.1 + q.1) == ([s.1] + t.1) + q.1;
  }

  /**
    The session invariant: the driver's counter equals the number of open
    files, which is at most one; a stale file is that one file; and reads in
    progress belong to that file, on the bound device it was opened on.
   */
  predicate Inv(w: World)
  {
    && w.dev.openCount == w.sessions
    && w.sessions <= 1
    && (w.stale ==> w.sessions == 1)
    && (w.readers > 0 ==> w.sessions == 1 && w.dev.bound && !w.stale)
  }

  lemma StepKeepsInv(w: World, e: Event)
    requires Inv(w) && Step(w, e).Some?
    ensures Inv(Step(w, e).value.0)
  {
  }

  /** Every admissible run from an invariant world ends in an invariant world. */
  lemma {:induction false} RunKeepsInv(w: World, es: seq<Event>)
    requires Inv(w) && Run(w, es).Some?
    ensures Inv(Run(w, es).value.0)
    decreases |es|
  {
    if es != [] {
      StepKeepsInv(w, es[0]);
      RunKeepsInv(Step(w, es[0]).value.0, es[1..]);
    }
  }

  /** Exclusivity: whatever admissible events have happened, at most one file is open and the counter says so. */
  lemma AtMostOneSession(regs: Registers, es: seq<Event>)
    requires Run(Initial(regs), es).Some?
    ensures Run(Initial(regs), es).value.0.sessions <= 1
    ensures Run(Initial(regs), es).value.0.dev.openCount == Run(Initial(regs), es).value.0.sessions
  {
    RunKeepsInv(Initial(regs), es);
  }

  /** While a file is open on the bound device, another open fails with -EBUSY and changes nothing. */
  lemma SecondOpenIsBusy(regs: Registers, es: seq<Event>)
    requires Run(Initial(regs), es).Some?
    requires Run(Initial(regs), es).value.0.sessions > 0
    requires Run(Initial(regs), es).value.0.dev.bound
    ensures var w := Run(Initial(regs), es).value.0;
            Step(w, OpenFile) == Some((w, Returned(-EBUSY)))
  {
    RunKeepsInv(Initial(regs), es);
  }

  /**
    Opening and at once closing the device returns 0 twice and gives back
    the world it started from, except that INT_ENABLE now holds 0: the
    counter, the sessions, the status word, the buffer and the sample
    registers are all as they were.
   */
  lemma OpenCloseRoundTrip(w: World)
    requires Inv(w) && w.dev.bound && w.sessions == 0
    ensures Run(w, [OpenFile, CloseFile]).Some?
    ensures var (w', outs) := Run(w, [OpenFile, CloseFile]).value;
            && outs == [Returned(0), Returned(0)]
            && w' == w.(dev := w.dev.(regs := WriteIntEnable(w.dev.regs, 0)))
  {
    var (w1, o1) := Step(w, OpenFile).value;
    var (w2, o2) := Step(w1, CloseFile).value;
    assert [OpenFile, CloseFile][1..] == [CloseFile];
    assert Step(w1, CloseFile).Some?;
    assert [CloseFile][1..] == [];
    assert Run(w2, []) == Some((w2, []));
    assert [o2] + [] == [o2];
    assert Run(w1, [CloseFile]) == Some((w2, [o2]));
  }

  /**
    No new read begins. Only a read's own sampling writes the shared buffer,
    so these events leave a sleeping read's sample alone; reads already
    asleep may still finish, which only resets the status word.
   */
  predicate NoReadBegins(mid: seq<Event>)
  {
    forall i :: 0 <= i < |mid| ==> !mid[i].BeginRead?
  }

  /** Moreover no read ends: the number of sleeping reads stays as it is. */
  predicate ReadStaysPending(mid: seq<Event>)
  {
    NoReadBegins(mid) && forall i :: 0 <= i < |mid| ==> !mid[i].FinishRead?
  }

  lemma NoReadBeginsTail(mid: seq<Event>)
    requires |mid| > 0 && NoReadBegins(mid)
    ensures !mid[0].BeginRead? && NoReadBegins(mid[1..])
    ensures ReadStaysPending(mid) ==> !mid[0].FinishRead? && ReadStaysPending(mid[1..])
  {
    forall i | 0 <= i < |mid[1..]| ensures mid[1..][i] == mid[i + 1] {
    }
  }

  /** Once no read sleeps, none sleeps again until a read begins. */
  lemma {:induction false} ReadersStayZero(w: World, mid: seq<Event>)
    requires w.readers == 0 && NoReadBegins(mid) && Run(w, mid).Some?
    ensures Run(w, mid).value.0.readers == 0
    decreases |mid|
  {
    if mid != [] {
      NoReadBeginsTail(mid);
      ReadersStayZero(Step(w, mid[0]).value.0, mid[1..]);
    }
  }

  /**
    While no read begins, sleeping reads never increase; and as long as one
    still sleeps at the end, the buffer it sampled is as it was and its
    device is still bound. When, moreover, no read ends, the count of
    sleeping reads is unchanged.
   */
  lemma {:induction false} BufferHeldWhileReading(w: World, mid: seq<Event>)
    requires w.readers > 0 && w.dev.bound && !w.stale && NoReadBegins(mid) && Run(w, mid).Some?
    ensures Run(w, mid).value.0.readers <= w.readers
    ensures ReadStaysPending(mid) ==> Run(w, mid).value.0.readers == w.readers
    ensures Run(w, mid).value.0.readers > 0 ==>
              && Run(w, mid).value.0.dev.bound && !Run(w, mid).value.0.stale
              && Run(w, mid).value.0.dev.buffer == w.dev.buffer
    decreases |mid|
  {
    if mid != [] {
      NoReadBeginsTail(mid);
      var w1 := Step(w, mid[0]).value.0;
      if w1.readers > 0 {
        BufferHeldWhileReading(w1, mid[1..]);
      } else {
        ReadersStayZero(w1, mid[1..]);
      }
    }
  }

  /**
    The hand-off: a read that completes delivers, as 36 bytes, the record
    sampled before its wait from the status word and registers of that
    moment, whatever interrupts, writes, register changes or finishing
    earlier reads happened while it slept, provided no other read began
    meanwhile; it leaves the status word at 0 and no more reads asleep than
    it found (exactly as many when no read ended meanwhile).
   */
  lemma ReadDeliversPreWaitSample(w: World, mid: seq<Event>, signalled: bool)
    requires NoReadBegins(mid)
    requires Run(w, [BeginRead] + mid + [FinishRead(signalled, true)]).Some?
    ensures var (w', outs) := Run(w, [BeginRead] + mid + [FinishRead(signalled, true)]).value;
            && outs[|outs| - 1] == ReadResult(ReadReply(READ_BUFFER_SIZE, Flatten(Assemble(w.dev.status, w.dev.regs))))
            && Unflatten(outs[|outs| - 1].reply.bytes) == Assemble(w.dev.status, w.dev.regs)
            && w'.dev.status == 0
            && w'.readers <= w.readers
            && (ReadStaysPending(mid) ==> w'.readers == w.readers)
  {
    var fin := FinishRead(signalled, true);
    RunBracketed(w, BeginRead, mid, fin);
    var w1 := Step(w, BeginRead).value.0;
    assert w1.dev.buffer == Assemble(w.dev.status, w.dev.regs);
    FinishDeliversHeldBuffer(w1, mid, signalled);
    UnflattenFlatten(w1.dev.buffer);
  }

  /** The read that has slept through `mid` finishes with the buffer it held when its wait began. */
  lemma FinishDeliversHeldBuffer(w1: World, mid: seq<Event>, signalled: bool)
    requires w1.readers > 0 && w1.dev.bound && !w1.stale && NoReadBegins(mid) && Run(w1, mid).Some?
    requires Step(Run(w1, mid).value.0, FinishRead(signalled, true)).Some?
    ensures var (wf, last) := Step(Run(w1, mid).value.0, FinishRead(signalled, true)).value;
            && last == ReadResult(ReadReply(READ_BUFFER_SIZE, Flatten(w1.dev.buffer)))
            && wf.dev.status == 0 && wf.readers == Run(w1, mid).value.0.readers - 1
            && wf.readers < w1.readers
            && (ReadStaysPending(mid) ==> wf.readers == w1.readers - 1)
  {
    BufferHeldWhileReading(w1, mid);
  }

  /**
    Nothing stops a second read while one sleeps: it samples afresh into the
    one shared buffer, under the status word of that moment, so whichever
    read wakes next hands out the newer sample.
   */
  lemma ConcurrentReadReplacesBuffer(w: World)
    requires Inv(w) && w.readers > 0
    ensures Step(w, BeginRead) ==
            Some((w.(dev := w.dev.(buffer := Assemble(w.dev.status, w.dev.regs)), readers := w.readers + 1), Sleeping))
  {
  }

  /**
    The caller chooses the classes: after a write that copies all four bytes
    of `m`, a read that begins samples exactly the classes whose bits are set
    in `m` (and nothing, should `m` hold no class bit).
   */
  lemma WriteSelectsClasses(w: World, m: Word)
    requires w.dev.bound && w.sessions > 0 && !w.stale
    ensures Run(w, [WriteMask(WordToBytes(m), WRITE_BUFFER_SIZE), BeginRead]).Some?
    ensures var w' := Run(w, [WriteMask(WordToBytes(m), WRITE_BUFFER_SIZE), BeginRead]).value.0;
            && w'.dev.status == m
            && w'.dev.buffer == Assemble(m, w.dev.regs)
            && w'.readers == w.readers + 1
  {
    var wr := WriteMask(WordToBytes(m), WRITE_BUFFER_SIZE);
    var w1 := Step(w, wr).value.0;
    assert WordToBytes(w1.dev.status) == WordToBytes(m);
    assert w1.dev.status == BytesToWord(WordToBytes(m));
    RunSingle(w1, BeginRead);
    RunCons(w, wr, [BeginRead]);
    assert [wr] + [BeginRead] == [wr, BeginRead];
  }

  /**
    Remove with a file still open strands that file: its device pointer
    refers to the freed device, so even after a new probe its reads and
    writes are refused, a new open is still busy (the counter survived), and
    only its release, which goes through the global pointer, is accepted;
    that release disarms the new device and ends the stale session.
   */
  lemma RebindLeavesOldFileStale(w: World, user: seq<Byte>, copied: nat, signalled: bool, copyOk: bool)
    requires Inv(w) && w.dev.bound && w.sessions == 1 && w.readers == 0
    ensures Run(w, [Unbind, Bind]).Some?
    ensures var w2 := Run(w, [Unbind, Bind]).value.0;
            && w2.stale && w2.dev.bound
            && Step(w2, BeginRead) == None
            && Step(w2, WriteMask(user, copied)) == None
            && Step(w2, FinishRead(signalled, copyOk)) == None
            && Step(w2, OpenFile) == Some((w2, Returned(-EBUSY)))
            && Step(w2, CloseFile).Some?
            && Step(w2, CloseFile).value.1 == Returned(0)
            && !Step(w2, CloseFile).value.0.stale
            && Step(w2, CloseFile).value.0.sessions == 0
            && Step(w2, CloseFile).value.0.dev.regs.intEnable == 0
  {
    var w1 := Step(w, Unbind).value.0;
    assert w1.stale;
    RunSingle(w1, Bind);
    RunCons(w, Unbind, [Bind]);
    assert [Unbind] + [Bind] == [Unbind, Bind];
  }

  /** A run of `first`, then `mid`, then `last` is each of them admissible in turn. */
  lemma RunBracketed(w: World, first: Event, mid: seq<Event>, last: Event)
    requires Run(w, [first] + mid + [last]).Some?
    ensures Step(w, first).Some?
    ensures Run(Step(w, first).value.0, mid).Some?
    ensures Step(Run(Step(w, first).value.0, mid).value.0, last).Some?
    ensures var w1 := Step(w, first).value.0;
            var m := Run(w1, mid).value;
            var (outs, n) := (Run(w, [first] + mid + [last]).value.1, |Run(w, [first] + mid + [last]).value.1|);
            && Run(w, [first] + mid + [last]).value.0 == Step(m.0, last).value.0
            && n > 0 && outs[n - 1] == Step(m.0, last).value.1
            && outs[0] == Step(w, first).value.1
  {
    RunAppend(w, [first] + mid, [last]);
    RunAppend(w, [first], mid);
    RunSingle(w, first);
    var w1 := Step(w, first).value.0;
    var m := Run(w1, mid).value;
    RunSingle(m.0, last);
  }

  /** Conversely, `first`, `mid` and `last`, each admissible in turn, make an admissible run. */
  lemma RunBracketedSome(w: World, first: Event, mid: seq<Event>, last: Event)
    requires Step(w, first).Some?
    requires Run(Step(w, first).value.0, mid).Some?
    requires Step(Run(Step(w, first).value.0, mid).value.0, last).Some?
    ensures Run(w, [first] + mid + [last]).Some?
  {
    RunAppend(w, [first] + mid, [last]);
    RunAppend(w, [first], mid);
    RunSingle(w, first);
    RunSingle(Run(Step(w, first).value.0, mid).value.0, last);
  }

  /** A run after an admissible prefix: the same end and the same answers, shifted by the prefix. */
  lemma RunAfterPrefix(w: World, pre: seq<Event>, es: seq<Event>)
    requires Run(w, pre).Some? && Run(Run(w, pre).value.0, es).Some?
    ensures Run(w, pre + es).Some?
    ensures Run(w, pre + es).value.0 == Run(Run(w, pre).value.0, es).value.0
    ensures forall i :: 0 <= i < |es| ==>
              Run(w, pre + es).value.1[|pre| + i] == Run(Run(w, pre).value.0, es).value.1[i]
  {
    RunAppend(w, pre, es);
    var p := Run(w, pre).value;
    var q := Run(p.0, es).value;
    assert Run(w, pre + es).value == (q.0, p.1 + q.1);
    assert |p.1| == |pre|;
    forall i | 0 <= i < |es|
      ensures (p.1 + q.1)[|pre| + i] == q.1[i]
    {
    }
  }

  /** An admissible event followed by an admissible run. */
  lemma RunCons(w: World, e: Event, es: seq<Event>)
    requires Step(w, e).Some? && Run(Step(w, e).value.0, es).Some?
    ensures Run(w, [e] + es) ==
            Some((Run(Step(w, e).value.0, es).value.0, [Step(w, e).value.1] + Run(Step(w, e).value.0, es).value.1))
  {
    assert ([e] + es)[0] == e;
    assert ([e] + es)[1..] == es;
  }

  /** A single admissible event runs to its own step. */
  lemma RunSingle(w: World, e: Event)
    requires Step(w, e).Some?
    ensures Run(w, [e]) == Some((Step(w, e).value.0, [Step(w, e).value.1]))
  {
    assert [e][1..] == [];
    assert [Step(w, e).value.1] + [] == [Step(w, e).value.1];
  }

  /**
    A read that begins on a re-armed device (no class bit set, as after the
    previous read) delivers the all-zero record, even if an interrupt reports
    fresh data while it sleeps.
   */
  lemma ReadAfterRearmIsZero(w: World, mid: seq<Event>, signalled: bool)
    requires w.dev.status & SENSOR_MASK == 0
    requires NoReadBegins(mid)
    requires Run(w, [BeginRead] + mid + [FinishRead(signalled, true)]).Some?
    ensures var (_, outs) := Run(w, [BeginRead] + mid + [FinishRead(signalled, true)]).value;
            outs[|outs| - 1] == ReadResult(ReadReply(READ_BUFFER_SIZE, Flatten(ZeroRecord)))
  {
    ReadDeliversPreWaitSample(w, mid, signalled);
    AssembleNoClassIsZero(w.dev.status, w.dev.regs);
  }

  /**
    Re-arming: a read that begins straight after another one finished finds
    the status word at 0, so it samples the all-zero record and cannot finish
    unsignalled until something sets the status word again.
   */
  lemma SecondReadBlocks(w: World, signalled: bool, copyOk: bool, again: bool)
    requires Run(w, [FinishRead(signalled, copyOk), BeginRead]).Some?
    ensures var w' := Run(w, [FinishRead(signalled, copyOk), BeginRead]).value.0;
            && w'.dev.status == 0
            && w'.dev.buffer == ZeroRecord
            && Step(w', FinishRead(false, again)) == None
  {
    var fin := FinishRead(signalled, copyOk);
    var w1 := Step(w, fin).value.0;
    assert [fin, BeginRead] == [fin] + [BeginRead];
    RunAppend(w, [fin], [BeginRead]);
    RunSingle(w, fin);
    RunSingle(w1, BeginRead);
    AssembleNoClassIsZero(w1.dev.status, w1.dev.regs);
  }

  /**
    An interrupt between two reads re-arms the status word: the next read
    samples exactly the classes the device reported, and its wait is over
    before it starts.
   */
  lemma InterruptBetweenReadsSelectsClasses(w: World, signalled: bool, copyOk: bool)
    requires w.dev.regs.intEnable & SENSOR_MASK != 0
    requires Run(w, [FinishRead(signalled, copyOk), Irq, BeginRead]).Some?
    ensures var w' := Run(w, [FinishRead(signalled, copyOk), Irq, BeginRead]).value.0;
            && w'.dev.status == w.dev.regs.intEnable & SENSOR_MASK
            && w'.dev.buffer == Assemble(w.dev.regs.intEnable & SENSOR_MASK, w.dev.regs)
            && Woken(w'.dev, false)
  {
    var fin := FinishRead(signalled, copyOk);
    var w1 := Step(w, fin).value.0;
    var w2 := Step(w1, Irq).value.0;
    assert [fin, Irq, BeginRead] == [fin] + ([Irq] + [BeginRead]);
    RunAppend(w, [fin], [Irq] + [BeginRead]);
    RunSingle(w, fin);
    RunAppend(w1, [Irq], [BeginRead]);
    RunSingle(w1, Irq);
    RunSingle(w2, BeginRead);
  }

  /** Events that cannot make the status word nonzero. */
  predicate LeavesStatusAlone(mid: seq<Event>)
  {
    forall i :: 0 <= i < |mid| ==> !mid[i].Irq? && !mid[i].WriteMask? && !mid[i].Bind?
  }

  /**
    A read whose wait starts with the status word at 0 stays asleep until an
    interrupt or a write sets it (or a signal arrives): without them it
    cannot finish unsignalled.
   */
  lemma {:induction false} WaitNeedsIrqOrWrite(w: World, mid: seq<Event>, copyOk: bool)
    requires w.dev.status == 0 && LeavesStatusAlone(mid) && Run(w, mid).Some?
    ensures Run(w, mid).value.0.dev.status == 0
    ensures Step(Run(w, mid).value.0, FinishRead(false, copyOk)) == None
    decreases |mid|
  {
    if mid != [] {
      var w1 := Step(w, mid[0]).value.0;
      assert LeavesStatusAlone(mid[1..]) by {
        forall i | 0 <= i < |mid[1..]| ensures !mid[1..][i].Irq? && !mid[1..][i].WriteMask? && !mid[1..][i].Bind? {
          assert mid[1..][i] == mid[i + 1];
        }
      }
      WaitNeedsIrqOrWrite(w1, mid[1..], copyOk);
    }
  }
}
