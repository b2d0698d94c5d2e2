/**
 * Client programs that drive the L3GD class against a scripted bus and
 * check, from the driver's contracts alone, the end-to-end behaviour the
 * sensor's users rely on.
 */
module L3gdScenarios {
  import opened GoOps
  import opened I2c
  import opened L3gd

  /** SetFrequency(100) and SetFrequency(12) on a healthy bus: three writes, gain first. */
  method SetFrequencyOnHealthyBus()
  {
    var bus := new Bus(map[], map[]);
    var gyro := new L3GD(bus, DefaultAddress);
    SetFrequencyPlanExamples(DefaultAddress);

    var err := gyro.SetFrequency(100);
    assert FirstFailure(bus.failures, 0, 3) == 3;
    assert err.None?;
    assert bus.log == [WriteByte(0x6B, 0x23, 0x00), WriteByte(0x6B, 0x39, 0x00), WriteByte(0x6B, 0x20, 0x0F)];

    err := gyro.SetFrequency(12);
    assert FirstFailure(bus.failures, 3, 3) == 3;
    assert err.None?;
    assert bus.log[3..] == [WriteByte(0x6B, 0x23, 0x00), WriteByte(0x6B, 0x39, 0x01), WriteByte(0x6B, 0x20, 0x0F)];
    assert RegisterValue(bus.regs, 0x6B, RegLowOdr) == 0x01;
  }

  /** The second write fails: the CTRL1 write is never issued and that failure is returned. */
  method SetFrequencySecondWriteFails()
  {
    var bus := new Bus(map[], map[1 := BusError(121)]);
    var gyro := new L3GD(bus, DefaultAddress);
    SetFrequencyPlanExamples(DefaultAddress);

    var err := gyro.SetFrequency(100);
    assert FirstFailure(bus.failures, 0, 3) == 1;
    assert err == Some(BusError(121));
    assert bus.log == [WriteByte(0x6B, 0x23, 0x00), WriteByte(0x6B, 0x39, 0x00)];
    assert bus.regs == map[(0x6B, RegCtrl4) := 0x00];
  }

  /** Sleep then Wake leaves CTRL1 at `(v &^ 0x08) | 0xF0`: bit 3 is still clear. */
  method SleepThenWake(v: Byte)
  {
    var bus := new Bus(map[(DefaultAddress, RegCtrl1) := v], map[]);
    var gyro := new L3GD(bus, DefaultAddress);
    var err := gyro.Sleep();
    assert err.None?;
    err := gyro.Wake();
    assert err.None?;
    WakeAfterSleep(v);
    assert gyro.Ctrl1() == (v & !0x08) | 0xF0;
    assert !Bit(gyro.Ctrl1(), 3);
    assert |bus.log| == 4;
  }

  /** A failed read in Sleep means no write at all. */
  method SleepReadFails(v: Byte)
  {
    var bus := new Bus(map[(DefaultAddress, RegCtrl1) := v], map[0 := BusError(5)]);
    var gyro := new L3GD(bus, DefaultAddress);
    var err := gyro.Sleep();
    assert err == Some(BusError(5));
    assert bus.log == [ReadByte(DefaultAddress, RegCtrl1)];
    assert gyro.Ctrl1() == v;
  }

  /** A fresh status byte followed by X = (0x01, 0x00), Y = (0x00, 0x80) and Z = (0xFF, 0x7F). */
  function FreshRegisters(): RegisterFile
  {
    map[
      (DefaultAddress, 0x27 as Byte) := 0x0F,
      (DefaultAddress, 0x28 as Byte) := 0x01, (DefaultAddress, 0x29 as Byte) := 0x00,
      (DefaultAddress, 0x2A as Byte) := 0x00, (DefaultAddress, 0x2B as Byte) := 0x80,
      (DefaultAddress, 0x2C as Byte) := 0xFF, (DefaultAddress, 0x2D as Byte) := 0x7F]
  }

  lemma FreshBurst()
    ensures BurstBytes(FreshRegisters(), DefaultAddress, RegStatusBurst, 7) == [0x0F, 0x01, 0x00, 0x00, 0x80, 0xFF, 0x7F]
  {
    BurstCoversOutputRegisters(FreshRegisters(), DefaultAddress);
  }

  /** A fresh sample with X = 1, Y = -32768 and Z swallowed by its low byte. */
  method ReadFreshSample()
  {
    var bus := new Bus(FreshRegisters(), map[]);
    var gyro := new L3GD(bus, DefaultAddress);
    FreshBurst();
    DecodeAxisExamples();
    var v, err := gyro.Read();
    assert v == Sample(1, -32768, -1);
    assert err.None?;
  }

  /** An overrun status gives a warning beside the sample; a failed burst gives a zero sample. */
  method ReadWarningsAndFailures()
  {
    var regs := map[(DefaultAddress, 0x27 as Byte) := 0xF0];
    var bus := new Bus(regs, map[1 := BusError(7)]);
    var gyro := new L3GD(bus, DefaultAddress);
    BurstCoversOutputRegisters(regs, DefaultAddress);
    var v, err := gyro.Read();
    assert err == Some(Availability(DataAvailabilityError(false, true)));
    assert ErrorMessage(err.value.warning) == MeasurementOverwritten;
    v, err := gyro.Read();
    assert v == Sample(0, 0, 0) && err == Some(BusFailure(BusError(7)));
  }
}
