/**
  The nine-slot sample record and the way the read path assembles it from
  the register file under a status word: one X/Y/Z triple per sensor class,
  the triple of a class whose bit is clear being all zero.
 */
module Samples {
  import opened RegisterInterface

  const RECORD_SLOTS: nat := 9

  /** accelXYZ, compassXYZ, gyroXYZ. */
  type Record = s: seq<Word> | |s| == RECORD_SLOTS witness [0, 0, 0, 0, 0, 0, 0, 0, 0]

  const ZeroRecord: Record := [0, 0, 0, 0, 0, 0, 0, 0, 0]

  /** The class whose sample occupies slot `i` of a record. */
  function ClassOfSlot(i: nat): SensorClass
    requires i < RECORD_SLOTS
  {
    if i < 3 then Accel else if i < 6 then Compass else Gyro
  }

  /** The register read into slot `i`: the sample registers are contiguous, in record order. */
  function SlotOffset(i: nat): Offset
    requires i < RECORD_SLOTS
  {
    ACCEL_X + 4 * i
  }

  /** The slot rule: a class's register when its bit is set in `status`, zero otherwise. */
  function SlotValue(status: Word, regs: Registers, i: nat): Word
    requires i < RECORD_SLOTS
  {
    if status & Bit(ClassOfSlot(i)) != 0 then ReadSample(regs, SlotOffset(i)) else 0
  }

  /** The three values the read path stores for class `c`, each obeying the slot rule. */
  function ClassTriple(status: Word, regs: Registers, c: SensorClass): (t: seq<Word>)
    ensures |t| == 3
    ensures forall j :: 0 <= j < 3 ==> t[j] == SlotValue(status, regs, FirstSlot(c) + j)
  {
    if status & Bit(c) != 0 then
      [ReadSample(regs, Axes(c)[0]), ReadSample(regs, Axes(c)[1]), ReadSample(regs, Axes(c)[2])]
    else
      [0, 0, 0]
  }

  /**
    The record the read path leaves in the shared buffer before it waits.
    When no class bit is set the source copies from address 0, which is
    undefined behaviour in C; that branch is modelled as the all-zero record,
    which is also what the per-class rule gives for such a status.
   */
  function Assemble(status: Word, regs: Registers): (r: Record)
    ensures forall i {:trigger SlotValue(status, regs, i)} :: 0 <= i < RECORD_SLOTS ==> r[i] == SlotValue(status, regs, i)
  {
    if status & SENSOR_MASK != 0 then
      ClassTriple(status, regs, Accel) + ClassTriple(status, regs, Compass) + ClassTriple(status, regs, Gyro)
    else
      assert forall c: SensorClass :: status & Bit(c) == 0;
      ZeroRecord
  }

  /** With no class bit set, the whole record is zero. */
  lemma AssembleNoClassIsZero(status: Word, regs: Registers)
    requires status & SENSOR_MASK == 0
    ensures Assemble(status, regs) == ZeroRecord
  {
    var r := Assemble(status, regs);
    forall i | 0 <= i < RECORD_SLOTS
      ensures r[i] == 0
    {
      assert status & Bit(ClassOfSlot(i)) == 0;
    }
  }

  /** Masking with SENSOR_MASK keeps every class bit as it was. */
  lemma MaskKeepsClassBit(status: Word, c: SensorClass)
    ensures (status & SENSOR_MASK) & Bit(c) == status & Bit(c)
  {
    match c
    case Accel =>
    case Compass =>
    case Gyro =>
  }

  /** Bits of the status word above the three class bits never influence the record. */
  lemma AssembleIgnoresHighBits(status: Word, regs: Registers)
    ensures Assemble(status, regs) == Assemble(status & SENSOR_MASK, regs)
  {
    var r, q := Assemble(status, regs), Assemble(status & SENSOR_MASK, regs);
    forall i | 0 <= i < RECORD_SLOTS
      ensures r[i] == q[i]
    {
      MaskKeepsClassBit(status, ClassOfSlot(i));
    }
  }

  /** Where class `c`'s triple starts in a record. */
  function FirstSlot(c: SensorClass): nat
  {
    match c
    case Accel => 0
    case Compass => 3
    case Gyro => 6
  }

  /**
    Slots 3k..3k+2 hold class k's X/Y/Z registers when its bit is set and
    are exactly zero when it is clear.
   */
  lemma AssembleClassTriple(status: Word, regs: Registers, c: SensorClass)
    ensures Assemble(status, regs)[FirstSlot(c)..FirstSlot(c) + 3] == ClassTriple(status, regs, c)
  {
    var k := FirstSlot(c);
    var r := Assemble(status, regs);
    var t := ClassTriple(status, regs, c);
    var s := r[k..k + 3];
    assert |s| == 3 && s[0] == r[k] && s[1] == r[k + 1] && s[2] == r[k + 2];
    assert s[0] == t[0] && s[1] == t[1] && s[2] == t[2];
    assert s == t;
  }

  /** AssembleClassTriple for every class at once. */
  lemma AssembleAllTriples(status: Word, regs: Registers)
    ensures forall c: SensorClass ::
              Assemble(status, regs)[FirstSlot(c)..FirstSlot(c) + 3] == ClassTriple(status, regs, c)
  {
    forall c: SensorClass
      ensures Assemble(status, regs)[FirstSlot(c)..FirstSlot(c) + 3] == ClassTriple(status, regs, c)
    {
      AssembleClassTriple(status, regs, c);
    }
  }
}
