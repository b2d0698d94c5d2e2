/**
 * An abstract two-wire (I2C) bus with register-addressed devices: the
 * transport the driver talks to.  It is a register file per device address,
 * an ordered log of every transaction the driver issued, and a fixed schedule
 * of injected failures, keyed by the position a transaction takes in the log.
 * A failed write leaves the register file as it was.
 */
module I2c {
  import opened GoOps

  datatype Option<T> = None | Some(value: T)

  /** Whatever the transport reports when a transaction does not complete. */
  datatype BusError = BusError(code: int)

  datatype Transaction =
    | ReadByte(addr: Byte, reg: Byte)
    | WriteByte(addr: Byte, reg: Byte, value: Byte)
    | ReadSlice(addr: Byte, reg: Byte, count: nat)

  /** Device registers, keyed by (device address, register); absent ones read as 0. */
  type RegisterFile = map<(Byte, Byte), Byte>

  function RegisterValue(regs: RegisterFile, addr: Byte, reg: Byte): Byte
  {
    if (addr, reg) in regs then regs[(addr, reg)] else 0
  }

  /**
   * The register that supplies byte `i` of a multi-byte read starting at
   * sub-address `reg`: with the most significant bit set the device
   * auto-increments from `reg & 0x7F`; without it every byte comes from `reg`.
   */
  function BurstRegister(reg: Byte, i: nat): Byte
  {
    if reg & 0x80 == 0 then reg else ToByte((reg & 0x7F) as int + i)
  }

  /**
   * The bytes an `n`-byte read from sub-address `reg` returns: repeated reads
   * of `reg` itself, or, with the auto-increment flag, the registers from
   * `reg & 0x7F` upwards in order (while they stay below 0x100).
   */
  function BurstBytes(regs: RegisterFile, addr: Byte, reg: Byte, n: nat): (bs: seq<Byte>)
    ensures |bs| == n
    ensures reg & 0x80 == 0 ==> forall i :: 0 <= i < n ==> bs[i] == RegisterValue(regs, addr, reg)
    ensures reg & 0x80 != 0 && (reg & 0x7F) as int + n <= 0x100 ==>
      forall i :: 0 <= i < n ==> bs[i] == RegisterValue(regs, addr, ((reg & 0x7F) as int + i) as Byte)
  {
    seq(n, (i: nat) => RegisterValue(regs, addr, BurstRegister(reg, i)))
  }

  /** The register file after every write in `ts`, applied in order (other transactions change nothing). */
  function ApplyWrites(regs: RegisterFile, ts: seq<Transaction>): RegisterFile
    decreases |ts|
  {
    if ts == [] then regs
    else
      var last := ts[|ts| - 1];
      var before := ApplyWrites(regs, ts[..|ts| - 1]);
      if last.WriteByte? then before[(last.addr, last.reg) := last.value] else before
  }

  /**
   * How many of the `n` transactions issued from log position `start` on go
   * through before the first one the schedule fails (`n` if none fails).
   */
  function FirstFailure(failures: map<nat, BusError>, start: nat, n: nat): (k: nat)
    ensures k <= n
    ensures forall j :: start <= j < start + k ==> j !in failures
    ensures k < n ==> start + k in failures
    decreases n
  {
    if n == 0 || start in failures then 0 else 1 + FirstFailure(failures, start + 1, n - 1)
  }

  class Bus {
    var regs: RegisterFile
    var log: seq<Transaction>
    const failures: map<nat, BusError>

    constructor (regs: RegisterFile, failures: map<nat, BusError>)
      ensures this.regs == regs && this.failures == failures && log == []
    {
      this.regs := regs;
      this.failures := failures;
      log := [];
    }

    /** The failure the schedule injects into the transaction at log position `k`. */
    function FailureAt(k: nat): Option<BusError>
    {
      if k in failures then Some(failures[k]) else None
    }

    /** The failure the next transaction will meet. */
    function Pending(): Option<BusError>
      reads this
    {
      FailureAt(|log|)
    }

    method ReadByteFromReg(addr: Byte, reg: Byte) returns (b: Byte, err: Option<BusError>)
      modifies this`log
      ensures log == old(log) + [ReadByte(addr, reg)]
      ensures err == old(Pending())
      ensures err.None? ==> b == RegisterValue(regs, addr, reg)
    {
      err := Pending();
      b := if err.None? then RegisterValue(regs, addr, reg) else 0;
      log := log + [ReadByte(addr, reg)];
    }

    method WriteByteToReg(addr: Byte, reg: Byte, value: Byte) returns (err: Option<BusError>)
      modifies this
      ensures log == old(log) + [WriteByte(addr, reg, value)]
      ensures err == old(Pending())
      ensures regs == if err.None? then old(regs)[(addr, reg) := value] else old(regs)
    {
      err := Pending();
      if err.None? {
        regs := regs[(addr, reg) := value];
      }
      log := log + [WriteByte(addr, reg, value)];
    }

    /** Fills `buf` from consecutive registers; on failure `buf` holds unspecified bytes. */
    method ReadSliceFromReg(addr: Byte, reg: Byte, buf: array<Byte>) returns (n: nat, err: Option<BusError>)
      modifies this`log, buf
      ensures log == old(log) + [ReadSlice(addr, reg, buf.Length)]
      ensures err == old(Pending())
      ensures err.None? ==> n == buf.Length && buf[..] == BurstBytes(regs, addr, reg, buf.Length)
    {
      err := Pending();
      n := 0;
      if err.None? {
        forall i | 0 <= i < buf.Length {
          buf[i] := RegisterValue(regs, addr, BurstRegister(reg, i));
        }
        n := buf.Length;
      }
      log := log + [ReadSlice(addr, reg, buf.Length)];
    }
  }
}
