/**
 * Driver for the ST L3GD20H three-axis gyroscope on an I2C bus: power control
 * through CTRL1, output-data-rate selection from a fixed table, and decoding
 * of the seven-byte burst (status byte, then X, Y and Z as low/high byte
 * pairs) into a raw sample and a data-freshness warning.
 */
module L3gd {
  import opened GoOps
  import opened I2c

  /** The sensor's default 7-bit I2C address. */
  const DefaultAddress: Byte := 0x6B

  const RegCtrl1: Byte := 0x20
  const RegCtrl4: Byte := 0x23
  const RegLowOdr: Byte := 0x39
  /** STATUS (0x27) with the auto-increment flag, so that OUT_X_L .. OUT_Z_H follow it. */
  const RegStatusBurst: Byte := 0x27 | (1 << 7)

  // ---------------------------------------------------------------------------
  // CTRL1 read-modify-write

  /** The CTRL1 value Sleep writes back: bit 3 (power-down control) cleared. */
  function SleepValue(ctrl1: Byte): (r: Byte)
    ensures !Bit(r, 3)
    ensures r as int == if Bit(ctrl1, 3) then ctrl1 as int - 8 else ctrl1 as int
  {
    ctrl1 & !(1 << 3)
  }

  /** The CTRL1 value Wake writes back: the top nibble forced on. */
  function WakeValue(ctrl1: Byte): (r: Byte)
    ensures r as int == 0xF0 + ctrl1 as int % 16
  {
    ctrl1 | 0xF0
  }

  lemma SleepClearsOnlyBit3(v: Byte)
    ensures forall i :: 0 <= i < 8 ==> Bit(SleepValue(v), i) == (i != 3 && Bit(v, i))
  {
  }

  lemma WakeSetsTopNibbleOnly(v: Byte)
    ensures forall i :: 0 <= i < 8 ==> Bit(WakeValue(v), i) == (4 <= i || Bit(v, i))
  {
  }

  /**
   * Wake after Sleep gives `(V &^ 0x08) | 0xF0`: bit 3, the one Sleep
   * clears, stays clear, and bits 4..7 are forced on rather than restored.
   */
  lemma WakeAfterSleep(v: Byte)
    ensures WakeValue(SleepValue(v)) == (v & !0x08) | 0xF0
    ensures !Bit(WakeValue(SleepValue(v)), 3)
    ensures forall i :: 0 <= i < 3 ==> Bit(WakeValue(SleepValue(v)), i) == Bit(v, i)
    ensures forall i :: 4 <= i < 8 ==> Bit(WakeValue(SleepValue(v)), i)
  {
    SleepClearsOnlyBit3(v);
    WakeSetsTopNibbleOnly(SleepValue(v));
  }

  /** A CTRL1 of 0x0F (bit 3 set, all axes on) comes back from Sleep then Wake as 0xF7. */
  lemma WakeDoesNotRestoreSleep()
    ensures SleepValue(0x0F) == 0x07 && WakeValue(SleepValue(0x0F)) == 0xF7
  {
  }

  // ---------------------------------------------------------------------------
  // Output data rate

  /** One row of the rate table: requests up to `thresholdHz` Hz use this row. */
  datatype FrequencyEntry = FrequencyEntry(thresholdHz: int, lowOdr: int, ctrl1: int)

  const FrequencyTable: seq<FrequencyEntry> := [
    FrequencyEntry(12, 1, 0x0F),
    FrequencyEntry(25, 1, 0x1F),
    FrequencyEntry(50, 1, 0x2F),
    FrequencyEntry(100, 0, 0x0F),
    FrequencyEntry(200, 0, 0x1F),
    FrequencyEntry(400, 0, 0x2F),
    FrequencyEntry(800, 0, 0x3F)
  ]

  /**
   * The table's shape: seven rows; the low-ODR bit is set exactly in the
   * first three; every CTRL1 byte has its low nibble (bit 3 and the three
   * axis-enable bits) all set; the last row is the 800 Hz one.
   */
  lemma FrequencyTableShape()
    ensures |FrequencyTable| == 7
    ensures forall i :: 0 <= i < |FrequencyTable| ==> (FrequencyTable[i].lowOdr == 1 <==> i < 3)
    ensures forall i :: 0 <= i < |FrequencyTable| ==> FrequencyTable[i].lowOdr in {0, 1}
    ensures forall i :: 0 <= i < |FrequencyTable| ==>
      0 <= FrequencyTable[i].ctrl1 < 256 && FrequencyTable[i].ctrl1 % 16 == 0x0F
    ensures FrequencyTable[|FrequencyTable| - 1] == FrequencyEntry(800, 0, 0x3F)
  {
  }

  /** The row the scan picks: a row qualifies by its threshold, the last one unconditionally. */
  predicate Qualifies(hz: int, i: nat)
    requires i < |FrequencyTable|
  {
    FrequencyTable[i].thresholdHz >= hz || i == |FrequencyTable| - 1
  }

  /** The first row at or after `i` that qualifies. */
  function SelectRowFrom(hz: int, i: nat): (k: nat)
    requires i < |FrequencyTable|
    ensures i <= k < |FrequencyTable| && Qualifies(hz, k)
    ensures forall j :: i <= j < k ==> !Qualifies(hz, j)
    decreases |FrequencyTable| - i
  {
    if Qualifies(hz, i) then i else SelectRowFrom(hz, i + 1)
  }

  /** The row SetFrequency uses for a request of `hz` Hz. */
  function SelectRow(hz: int): (k: nat)
    ensures k < |FrequencyTable| && Qualifies(hz, k)
    ensures forall j :: 0 <= j < k ==> FrequencyTable[j].thresholdHz < hz
  {
    SelectRowFrom(hz, 0)
  }

  /** Exactly one row is selected: any qualifying row with no qualifying row before it is SelectRow's. */
  lemma SelectRowUnique(hz: int, k: nat)
    requires k < |FrequencyTable| && Qualifies(hz, k)
    requires forall j :: 0 <= j < k ==> FrequencyTable[j].thresholdHz < hz
    ensures k == SelectRow(hz)
  {
  }

  lemma {:induction false} TableAscending()
    ensures forall i, j :: 0 <= i < j < |FrequencyTable| ==>
      FrequencyTable[i].thresholdHz < FrequencyTable[j].thresholdHz
  {
  }

  /**
   * The selection rounds up to the nearest tabulated rate and clamps at the
   * top: for `hz <= 800` the chosen threshold is the smallest one `>= hz`,
   * above 800 the 800 Hz row is used.
   */
  lemma SelectRowRoundsUp(hz: int)
    ensures hz <= 800 ==>
      FrequencyTable[SelectRow(hz)].thresholdHz >= hz &&
      forall j :: 0 <= j < |FrequencyTable| && FrequencyTable[j].thresholdHz >= hz ==>
        FrequencyTable[SelectRow(hz)].thresholdHz <= FrequencyTable[j].thresholdHz
    ensures hz > 800 ==> SelectRow(hz) == |FrequencyTable| - 1
    ensures SelectRow(hz) == |FrequencyTable| - 1 <==> hz > 400
  {
    TableAscending();
    if hz <= 800 {
      assert FrequencyTable[6].thresholdHz == 800;
    } else {
      assert FrequencyTable[5].thresholdHz < hz;
    }
  }

  /** A larger request never selects an earlier row. */
  lemma SelectRowMonotonic(hz1: int, hz2: int)
    requires hz1 <= hz2
    ensures SelectRow(hz1) <= SelectRow(hz2)
  {
  }

  lemma SelectRowExamples(hz: int)
    ensures hz <= 12 ==> FrequencyTable[SelectRow(hz)] == FrequencyEntry(12, 1, 0x0F)
    ensures FrequencyTable[SelectRow(13)] == FrequencyEntry(25, 1, 0x1F)
    ensures FrequencyTable[SelectRow(24)] == FrequencyEntry(25, 1, 0x1F)
    ensures FrequencyTable[SelectRow(25)] == FrequencyEntry(25, 1, 0x1F)
    ensures FrequencyTable[SelectRow(100)] == FrequencyEntry(100, 0, 0x0F)
    ensures FrequencyTable[SelectRow(799)] == FrequencyEntry(800, 0, 0x3F)
    ensures FrequencyTable[SelectRow(800)] == FrequencyEntry(800, 0, 0x3F)
    ensures FrequencyTable[SelectRow(5000)] == FrequencyEntry(800, 0, 0x3F)
  {
    if hz <= 12 {
      SelectRowUnique(hz, 0);
    }
    SelectRowUnique(13, 1);
    SelectRowUnique(24, 1);
    SelectRowUnique(25, 1);
    SelectRowUnique(100, 3);
    SelectRowUnique(799, 6);
    SelectRowUnique(800, 6);
    SelectRowUnique(5000, 6);
  }

  /** The three writes SetFrequency issues, in order: gain, low-ODR bit, CTRL1. */
  function SetFrequencyPlan(addr: Byte, hz: int): (plan: seq<Transaction>)
    ensures |plan| == 3 && forall i :: 0 <= i < 3 ==> plan[i].WriteByte? && plan[i].addr == addr
    ensures plan[0].reg == RegCtrl4 && plan[1].reg == RegLowOdr && plan[2].reg == RegCtrl1
    ensures plan[0].value == 0x00
    ensures plan[1].value == (if hz <= 50 then 0x01 else 0x00)
    ensures plan[2].value & 0x0F == 0x0F && Bit(plan[2].value, 3)
    ensures plan[2].value ==
      if hz <= 12 || 50 < hz <= 100 then 0x0F
      else if hz <= 25 || 100 < hz <= 200 then 0x1F
      else if hz <= 50 || 200 < hz <= 400 then 0x2F
      else 0x3F
  {
    var row := FrequencyTable[SelectRow(hz)];
    FrequencyTableShape();
    SelectRowRoundsUp(hz);
    [ WriteByte(addr, RegCtrl4, 0x00),
      WriteByte(addr, RegLowOdr, ToByte(row.lowOdr)),
      WriteByte(addr, RegCtrl1, ToByte(row.ctrl1)) ]
  }

  lemma SetFrequencyPlanExamples(addr: Byte)
    ensures SetFrequencyPlan(addr, 100) ==
      [WriteByte(addr, 0x23, 0x00), WriteByte(addr, 0x39, 0x00), WriteByte(addr, 0x20, 0x0F)]
    ensures SetFrequencyPlan(addr, 12) ==
      [WriteByte(addr, 0x23, 0x00), WriteByte(addr, 0x39, 0x01), WriteByte(addr, 0x20, 0x0F)]
  {
    SelectRowExamples(12);
  }

  // ---------------------------------------------------------------------------
  // Sample decoding

  /** A raw angular-rate sample, in counts. */
  datatype Sample = Sample(x: int, y: int, z: int)

  /** One axis as the driver computes it: `(int(int8(hi)) << 8) | int(int8(lo))`. */
  function DecodeAxis(lo: Byte, hi: Byte): (r: int)
    ensures lo < 0x80 ==> r == Int8(hi) * 256 + lo as int
    ensures lo >= 0x80 ==> r == lo as int - 256
    ensures -32768 <= r <= 32767
  {
    var r := Or(ShiftLeft(Int8(hi), 8), Int8(lo));
    assert lo < 0x80 ==> r == Int8(hi) * 256 + lo as int by {
      if lo < 0x80 {
        OrIntoClearLowBits(Int8(hi), Int8(lo), 8);
      }
    }
    assert lo >= 0x80 ==> r == lo as int - 256 by {
      if lo >= 0x80 {
        OrNegativeSwallows(Int8(hi), Int8(lo), 8);
      }
    }
    r
  }

  /** The 16-bit two's-complement value of the little-endian pair (lo, hi). */
  function Int16(lo: Byte, hi: Byte): (r: int)
    ensures -32768 <= r <= 32767
    ensures (r - lo as int - 256 * hi as int) % 65536 == 0
  {
    var u := 256 * hi as int + lo as int;
    if u >= 32768 then u - 65536 else u
  }

  /** The decode is the 16-bit two's-complement value exactly when the low byte is below 0x80 or the high byte is 0xFF. */
  lemma DecodeAxisIsInt16Iff(lo: Byte, hi: Byte)
    ensures DecodeAxis(lo, hi) == Int16(lo, hi) <==> lo < 0x80 || hi == 0xFF
  {
  }

  lemma DecodeAxisExamples()
    ensures DecodeAxis(0xFF, 0xFF) == -1
    ensures DecodeAxis(0x00, 0x80) == -32768
    ensures DecodeAxis(0x01, 0x00) == 1
    ensures DecodeAxis(0xFF, 0x7F) == -1 && Int16(0xFF, 0x7F) == 32767
  {
  }

  // ---------------------------------------------------------------------------
  // Data availability

  /** The "soft" error Read reports about data freshness. */
  datatype DataAvailabilityError = DataAvailabilityError(newDataNotAvailable: bool, newDataWasOverwritten: bool)

  /** The warning for a status byte: overrun flags (bits 4..7) first, then no data-ready flag (bits 0..3). */
  function StatusWarning(status: Byte): (w: Option<DataAvailabilityError>)
    ensures w == Some(DataAvailabilityError(false, true)) <==> status >= 0x10
    ensures w == Some(DataAvailabilityError(true, false)) <==> status == 0
    ensures w == None <==> 0 < status < 0x10
  {
    if status & 0xF0 > 0 then Some(DataAvailabilityError(false, true))
    else if status & 0x0F == 0 then Some(DataAvailabilityError(true, false))
    else None
  }

  /** StatusWarning in terms of the status byte's bits; the two flags are never both set. */
  lemma StatusWarningByBits(s: Byte)
    ensures StatusWarning(s) == Some(DataAvailabilityError(false, true)) <==>
      exists i :: 4 <= i < 8 && Bit(s, i)
    ensures StatusWarning(s) == Some(DataAvailabilityError(true, false)) <==>
      forall i :: 0 <= i < 8 ==> !Bit(s, i)
    ensures StatusWarning(s) == None <==>
      (forall i :: 4 <= i < 8 ==> !Bit(s, i)) && exists i :: 0 <= i < 4 && Bit(s, i)
    ensures StatusWarning(s).Some? ==>
      StatusWarning(s).value.newDataNotAvailable != StatusWarning(s).value.newDataWasOverwritten
  {
    if s & 0xF0 > 0 {
      var i: nat := if s & 0x80 != 0 then 7 else if s & 0x40 != 0 then 6 else if s & 0x20 != 0 then 5 else 4;
      assert Bit(s, i);
    } else if s & 0x0F != 0 {
      var i: nat := if s & 0x08 != 0 then 3 else if s & 0x04 != 0 then 2 else if s & 0x02 != 0 then 1 else 0;
      assert Bit(s, i);
    } else {
      assert s == 0;
    }
  }

  lemma StatusWarningExamples()
    ensures StatusWarning(0x00) == Some(DataAvailabilityError(true, false))
    ensures StatusWarning(0x0F) == None
    ensures StatusWarning(0xF0) == Some(DataAvailabilityError(false, true))
    ensures StatusWarning(0xFF) == Some(DataAvailabilityError(false, true))
  {
  }

  /** The three warning texts, by meaning. */
  datatype Message = NoNewMeasurement | MeasurementOverwritten | UnknownCondition

  /** The text of a DataAvailabilityError: not-available takes priority over overwritten. */
  function ErrorMessage(e: DataAvailabilityError): (m: Message)
    ensures m == NoNewMeasurement <==> e.newDataNotAvailable
    ensures m == MeasurementOverwritten <==> !e.newDataNotAvailable && e.newDataWasOverwritten
    ensures m == UnknownCondition <==> !e.newDataNotAvailable && !e.newDataWasOverwritten
  {
    if e.newDataNotAvailable then NoNewMeasurement
    else if e.newDataWasOverwritten then MeasurementOverwritten
    else UnknownCondition
  }

  /** Every warning Read produces names its cause; the unknown text never appears. */
  lemma ReadWarningMessage(s: Byte)
    requires StatusWarning(s).Some?
    ensures ErrorMessage(StatusWarning(s).value) != UnknownCondition
    ensures ErrorMessage(StatusWarning(s).value) == NoNewMeasurement <==> s == 0
    ensures ErrorMessage(StatusWarning(s).value) == MeasurementOverwritten <==> s & 0xF0 != 0
  {
  }

  /** The error Read returns: a failed transaction, or a warning beside a valid sample. */
  datatype ReadError = BusFailure(cause: BusError) | Availability(warning: DataAvailabilityError)

  /** The burst read covers STATUS (0x27) and the six output registers 0x28 .. 0x2D. */
  lemma BurstCoversOutputRegisters(regs: RegisterFile, addr: Byte)
    ensures forall i :: 0 <= i < 7 ==>
      BurstBytes(regs, addr, RegStatusBurst, 7)[i] == RegisterValue(regs, addr, 0x27 + i as Byte)
  {
  }

  // ---------------------------------------------------------------------------
  // The driver

  class L3GD {
    const bus: Bus
    const address: Byte

    constructor (bus: Bus, addr: Byte)
      ensures this.bus == bus && address == addr
    {
      this.bus := bus;
      address := addr;
    }

    function Ctrl1(): Byte
      reads bus
    {
      RegisterValue(bus.regs, address, RegCtrl1)
    }

    /**
     * Reads CTRL1 and writes it back with bit 3 cleared.  A failed read
     * stops before any write.
     */
    method Sleep() returns (err: Option<BusError>)
      modifies bus
      ensures old(bus.Pending()).Some? ==>
        && err == old(bus.Pending())
        && bus.log == old(bus.log) + [ReadByte(address, RegCtrl1)]
        && bus.regs == old(bus.regs)
      ensures old(bus.Pending()).None? ==>
        && bus.log == old(bus.log) + [ReadByte(address, RegCtrl1), WriteByte(address, RegCtrl1, SleepValue(old(Ctrl1())))]
        && err == bus.FailureAt(|old(bus.log)| + 1)
        && bus.regs == if err.None? then old(bus.regs)[(address, RegCtrl1) := SleepValue(old(Ctrl1()))] else old(bus.regs)
    {
      var bw;
      bw, err := bus.ReadByteFromReg(address, RegCtrl1);
      if err.Some? {
        return;
      }
      err := bus.WriteByteToReg(address, RegCtrl1, SleepValue(bw));
    }

    /**
     * Reads CTRL1 and writes it back with bits 4..7 set.  A failed read
     * stops before any write.
     */
    method Wake() returns (err: Option<BusError>)
      modifies bus
      ensures old(bus.Pending()).Some? ==>
        && err == old(bus.Pending())
        && bus.log == old(bus.log) + [ReadByte(address, RegCtrl1)]
        && bus.regs == old(bus.regs)
      ensures old(bus.Pending()).None? ==>
        && bus.log == old(bus.log) + [ReadByte(address, RegCtrl1), WriteByte(address, RegCtrl1, WakeValue(old(Ctrl1())))]
        && err == bus.FailureAt(|old(bus.log)| + 1)
        && bus.regs == if err.None? then old(bus.regs)[(address, RegCtrl1) := WakeValue(old(Ctrl1()))] else old(bus.regs)
    {
      var bw;
      bw, err := bus.ReadByteFromReg(address, RegCtrl1);
      if err.Some? {
        return;
      }
      err := bus.WriteByteToReg(address, RegCtrl1, WakeValue(bw));
    }

    /**
     * Resets the gain, then scans the rate table and writes the selected
     * row's low-ODR bit and CTRL1 byte.  The writes come in the plan's order
     * and stop at the first one that fails, whose error is returned.
     */
    method SetFrequency(hz: int) returns (err: Option<BusError>)
      modifies bus
      ensures
        var plan := SetFrequencyPlan(address, hz);
        var k := FirstFailure(bus.failures, |old(bus.log)|, 3);
        && bus.log == old(bus.log) + plan[..if k < 3 then k + 1 else 3]
        && bus.regs == ApplyWrites(old(bus.regs), plan[..k])
        && err == (if k < 3 then bus.FailureAt(|old(bus.log)| + k) else None)
    {
      ghost var start := |bus.log|;
      ghost var regs0 := bus.regs;
      ghost var plan := SetFrequencyPlan(address, hz);
      err := bus.WriteByteToReg(address, RegCtrl4, 0x00);
      if err.Some? {
        assert plan[..0] == [];
        return;
      }
      assert plan[..1] == [plan[0]];
      var i := 0;
      while i < |FrequencyTable|
        invariant 0 <= i < |FrequencyTable|
        invariant forall j :: 0 <= j < i ==> FrequencyTable[j].thresholdHz < hz
        invariant bus.log == old(bus.log) + [plan[0]]
        invariant bus.regs == ApplyWrites(regs0, plan[..1])
      {
        if FrequencyTable[i].thresholdHz >= hz || i == |FrequencyTable| - 1 {
          SelectRowUnique(hz, i);
          err := bus.WriteByteToReg(address, RegLowOdr, ToByte(FrequencyTable[i].lowOdr));
          assert plan[..2] == plan[..1] + [plan[1]];
          if err.Some? {
            return;
          }
          err := bus.WriteByteToReg(address, RegCtrl1, ToByte(FrequencyTable[i].ctrl1));
          assert plan[..3] == plan[..2] + [plan[2]];
          return;
        }
        i := i + 1;
      }
    }

    /**
     * One burst read of seven bytes from STATUS onwards.  On failure the
     * bus error is returned with a zero sample; otherwise the sample is
     * decoded from bytes 1..6 whatever the status says, and the status byte
     * decides the warning.
     */
    method Read() returns (v: Sample, err: Option<ReadError>)
      modifies bus
      ensures bus.log == old(bus.log) + [ReadSlice(address, RegStatusBurst, 7)]
      ensures bus.regs == old(bus.regs)
      ensures old(bus.Pending()).Some? ==>
        v == Sample(0, 0, 0) && err == Some(BusFailure(old(bus.Pending()).value))
      ensures old(bus.Pending()).None? ==>
        var b := BurstBytes(old(bus.regs), address, RegStatusBurst, 7);
        && v == Sample(DecodeAxis(b[1], b[2]), DecodeAxis(b[3], b[4]), DecodeAxis(b[5], b[6]))
        && err == (if StatusWarning(b[0]).Some? then Some(Availability(StatusWarning(b[0]).value)) else None)
    {
      var bytes := new Byte[7];
      var n, e := bus.ReadSliceFromReg(address, RegStatusBurst, bytes);
      if e.Some? {
        v, err := Sample(0, 0, 0), Some(BusFailure(e.value));
        return;
      }
      v := Sample(DecodeAxis(bytes[1], bytes[2]), DecodeAxis(bytes[3], bytes[4]), DecodeAxis(bytes[5], bytes[6]));
      var warning := StatusWarning(bytes[0]);
      err := if warning.Some? then Some(Availability(warning.value)) else None;
    }
  }
}
