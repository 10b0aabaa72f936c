/**
  The Goldfish sensor's memory-mapped register window: one 32-bit
  interrupt-enable/status register at offset 0 and nine read-only sample
  registers (X, Y, Z of the accelerometer, the compass and the gyroscope)
  laid out contiguously after it, plus the three per-class status bits.
 */
module RegisterInterface {

  /** A 32-bit register value; `readl`/`writel` move exactly these. */
  type Word = bv32

  /** A byte offset into the register window. */
  type Offset = nat

  const INT_ENABLE: Offset := 0x00

  const ACCEL_X: Offset := 0x04
  const ACCEL_Y: Offset := 0x08
  const ACCEL_Z: Offset := 0x0c

  const COMPASS_X: Offset := 0x10
  const COMPASS_Y: Offset := 0x14
  const COMPASS_Z: Offset := 0x18

  const GYRO_X: Offset := 0x1c
  const GYRO_Y: Offset := 0x20
  const GYRO_Z: Offset := 0x24

  const SENSOR_IRQ_ACCEL: Word := 1 << 0
  const SENSOR_IRQ_COMPASS: Word := 1 << 1
  const SENSOR_IRQ_GYRO: Word := 1 << 2

  const SENSOR_MASK: Word := (SENSOR_IRQ_ACCEL | SENSOR_IRQ_COMPASS) | SENSOR_IRQ_GYRO

  /** The three sensor classes, in the order their samples appear in a record. */
  datatype SensorClass = Accel | Compass | Gyro

  /** The status bit that announces (or enables) a class: a single bit inside SENSOR_MASK. */
  function Bit(c: SensorClass): (b: Word)
    ensures b & SENSOR_MASK == b
    ensures b != 0 && b & (b - 1) == 0
  {
    match c
    case Accel => SENSOR_IRQ_ACCEL
    case Compass => SENSOR_IRQ_COMPASS
    case Gyro => SENSOR_IRQ_GYRO
  }

  /** Different classes own different bits. */
  lemma BitsDistinct(c: SensorClass, c': SensorClass)
    ensures Bit(c) & Bit(c') == 0 <==> c != c'
  {
  }

  /** The three class bits together make up SENSOR_MASK. */
  lemma BitsCoverMask()
    ensures (Bit(Accel) | Bit(Compass)) | Bit(Gyro) == SENSOR_MASK
    ensures SENSOR_MASK == 7
  {
  }

  /** The X, Y and Z register offsets of a class. */
  function Axes(c: SensorClass): seq<Offset>
  {
    match c
    case Accel => [ACCEL_X, ACCEL_Y, ACCEL_Z]
    case Compass => [COMPASS_X, COMPASS_Y, COMPASS_Z]
    case Gyro => [GYRO_X, GYRO_Y, GYRO_Z]
  }

  const SampleOffsets: set<Offset> :=
    {ACCEL_X, ACCEL_Y, ACCEL_Z, COMPASS_X, COMPASS_Y, COMPASS_Z, GYRO_X, GYRO_Y, GYRO_Z}

  /**
    The register file as the driver sees it: the interrupt-enable word and
    the values the nine sample registers currently read as.
   */
  datatype RegisterFile = RegisterFile(intEnable: Word, samples: map<Offset, Word>)

  /** A register file in which every sample register can be read. */
  type Registers = r: RegisterFile | r.samples.Keys == SampleOffsets
    witness RegisterFile(0, map[ACCEL_X := 0, ACCEL_Y := 0, ACCEL_Z := 0,
                                COMPASS_X := 0, COMPASS_Y := 0, COMPASS_Z := 0,
                                GYRO_X := 0, GYRO_Y := 0, GYRO_Z := 0])

  /** `readl` of a sample register: the value the device presents there. */
  function ReadSample(regs: Registers, off: Offset): Word
    requires off in SampleOffsets
  {
    regs.samples[off]
  }

  /** `writel` to INT_ENABLE: only that word changes, the sample registers are read-only. */
  function WriteIntEnable(regs: Registers, v: Word): (r: Registers)
    ensures r.intEnable == v
    ensures r.samples == regs.samples
  {
    regs.(intEnable := v)
  }
}
