# L3GD20H gyroscope driver, modelled in Dafny

This project models the Go driver for the ST L3GD20H three-axis gyroscope
(`l3gd/l3gd.go`). The driver talks to the sensor over an I2C bus. It does four
things:

- It puts the sensor to sleep and wakes it by a read-modify-write of CTRL1
  (register 0x20).
- It sets the output data rate. It writes 0x00 to CTRL4 (0x23), then the
  low-ODR bit of a row taken from a fixed seven-row table to LOW_ODR (0x39),
  then that row's byte to CTRL1.
- It reads a sample in one seven-byte burst from STATUS (0x27, with the
  auto-increment flag: 0xA7). It decodes X, Y and Z from the byte pairs
  (1,2), (3,4) and (5,6).
- It reports a data-freshness warning from the status byte (overwritten, or
  not yet available), and gives that warning a message.

Files:

- `goops.dfy` (module `GoOps`): the Go operators the driver uses. The axis
  decode uses `int8(b)`, `<<` and `|` on signed integers; `SetFrequency` uses
  `byte(x)` on the table values. `|` is the two's-complement bitwise OR,
  defined by recursion on the bits. `<<` is modelled without Go's 64-bit
  wrap-around (see "Left out").
- `i2c.dfy` (module `I2c`): the bus, which is outside the driver. It is a class
  holding a register file for each device address, an ordered log of every
  transaction, and a fixed schedule of injected failures. The schedule says,
  by log position, which transaction fails and with what error. A failed write
  changes no register. A multi-byte read with bit 7 of the sub-address set
  reads consecutive registers from `reg & 0x7F`; this is the sensor's
  auto-increment convention.
- `l3gd.dfy` (module `L3gd`): the driver. Its pure logic is in functions with
  lemmas: the CTRL1 values, the rate table and row selection, the axis decode,
  the status classification and the message. The `L3GD` class has the four
  operations as methods over the bus, and each method's `ensures` gives the
  whole new bus state (log, registers) and the returned error.
- `scenarios.dfy` (module `L3gdScenarios`): client methods that call the driver
  on scripted buses and exercise its contracts end to end: the
  writes of `SetFrequency(100)` and `SetFrequency(12)`, a failure on the second
  write, Sleep then Wake, a failed read in Sleep, and a fresh Read, an
  overrun Read and a failed Read.

## Quirks kept as the code has them

- **Axis decode.** The Go code computes `(int(int8(hi)) << 8) | int(int8(lo))`.
  When `lo >= 0x80`, the sign-extended low byte has every bit from 8 upwards
  set, so the OR wipes out the high byte and the result is `lo - 256`
  whatever `hi` is. The contract of `DecodeAxis` states both cases.
  `DecodeAxisIsInt16Iff` proves that the decode equals the 16-bit
  two's-complement value exactly when `lo < 0x80` or `hi == 0xFF`.
  `DecodeAxisExamples` shows that `(lo, hi) = (0xFF, 0x7F)` decodes to -1, not
  32767. `Read` uses the decode as written.
- **Wake.** Wake ORs in 0xF0. It never sets bit 3, the bit that Sleep clears.
  So Wake after Sleep leaves CTRL1 at `(V &^ 0x08) | 0xF0`, with bit 3 still
  clear (`WakeAfterSleep`, `WakeDoesNotRestoreSleep`, and the
  `SleepThenWake` scenario). Bit 3 is the power-down control, so Wake after
  Sleep leaves the sensor powered down, although the comment on Wake
  (l3gd/l3gd.go:65) says it re-enables a sensor that Sleep powered down.
  Wake also forces bits 4 and 5 to 1. Those are the rate bits that
  `SetFrequency` took from the table (0x0F, 0x1F, 0x2F or 0x3F), so after
  Wake those two bits are 1 whatever rate was selected
  (`WakeSetsTopNibbleOnly`).
- **Status byte.** Only the top nibble and the all-zero byte raise a warning:
  0x00 means not available, 0x0F means fresh, and 0xF0 and 0xFF mean
  overwritten (`StatusWarningExamples`).
- **The loop in SetFrequency.** Go has a trailing `return nil` after the
  table loop. The model keeps the loop. Its invariant `i < |FrequencyTable|`
  holds because the last row always qualifies, so the loop never runs out
  and nothing after it can run.

## Model

| member | source | states |
|---|---|---|
| `GoOps.Int8` | l3gd/l3gd.go:116-118 | `int8(b)` lies in [-128, 127], agrees with the byte modulo 256, and is negative exactly when bit 7 is set |
| `GoOps.ToByte` | l3gd/l3gd.go:93-98 | `byte(x)` keeps every table value from 0 to 255 unchanged |
| `GoOps.ShiftLeft` | l3gd/l3gd.go:116-118 | `x << k` leaves the low k bits clear and loses nothing: dividing by 2^k gives x back with no remainder |
| `GoOps.Or` | l3gd/l3gd.go:116-118 | the bitwise OR of a and b is negative exactly when an operand is; for non-negative operands it lies between the larger operand and their sum |
| `GoOps.OrIntoClearLowBits` | l3gd/l3gd.go:116-118 | ORing a value in [0, 2^k) into a multiple of 2^k just adds it |
| `GoOps.OrNegativeSwallows` | l3gd/l3gd.go:116-118 | ORing a value in [-2^k, 0) into a multiple of 2^k yields that value: sign extension erases the high part |
| `I2c.FirstFailure` | l3gd/l3gd.go:88-98 | the number of writes that succeed before the first scheduled failure: none before it fails, and the one at it does fail |
| `L3gd.SleepValue` | l3gd/l3gd.go:62 | `V &^ (1<<3)` has bit 3 clear and equals V, less 8 when bit 3 was set |
| `L3gd.WakeValue` | l3gd/l3gd.go:72 | V with 0xF0 ORed in equals 0xF0 plus the low nibble of V |
| `L3gd.SleepClearsOnlyBit3` | l3gd/l3gd.go:57-62 | the value Sleep writes back differs from the CTRL1 it read only in bit 3, which is cleared |
| `L3gd.WakeSetsTopNibbleOnly` | l3gd/l3gd.go:69-72 | the value Wake writes back has bits 4..7 set and bits 0..3 as read |
| `L3gd.WakeAfterSleep` | l3gd/l3gd.go:53-73 | Wake after Sleep gives `V &^ 0x08` with 0xF0 ORed in: bit 3 stays clear, bits 0..2 are kept, bits 4..7 are forced on |
| `L3gd.WakeDoesNotRestoreSleep` | l3gd/l3gd.go:53-73 | a CTRL1 of 0x0F comes back from Sleep then Wake as 0xF7, not 0x0F |
| `L3gd.FrequencyTableShape` | l3gd/l3gd.go:75-83 | seven rows; low-ODR is 1 for exactly the first three rows and 0 otherwise; every CTRL1 byte fits a byte with its low nibble 0xF; the last row is (800, 0, 0x3F) |
| `L3gd.SelectRowFrom` | l3gd/l3gd.go:91-92 | the scan from row i stops at the first row that is at or above the request or is the last row |
| `L3gd.SelectRow` | l3gd/l3gd.go:75-92 | selection is total: it yields a table row that qualifies, and every earlier row is below the request |
| `L3gd.SelectRowUnique` | l3gd/l3gd.go:91-92 | exactly one row is selected: any qualifying row with only lower thresholds before it is the selected row |
| `L3gd.TableAscending` | l3gd/l3gd.go:75-83 | the table's thresholds strictly increase |
| `L3gd.SelectRowRoundsUp` | l3gd/l3gd.go:75-99 | up to 800 Hz the chosen threshold is the smallest one at or above the request; above 800 Hz the 800 Hz row is chosen; the last row is chosen exactly for requests above 400 Hz |
| `L3gd.SelectRowMonotonic` | l3gd/l3gd.go:91-92 | a higher request never selects an earlier row |
| `L3gd.SelectRowExamples` | l3gd/l3gd.go:75-99 | requests of 12 Hz or less get (12,1,0x0F); 13, 24 and 25 get (25,1,0x1F); 100 gets (100,0,0x0F); 799, 800 and 5000 get (800,0,0x3F) |
| `L3gd.SetFrequencyPlan` | l3gd/l3gd.go:88-98 | three writes to the driver's address, in order CTRL4, LOW_ODR, CTRL1: 0x00 to CTRL4, low-ODR 1 exactly when the request is 50 Hz or less, and a CTRL1 byte with bit 3 (power) and the three axis enables set: 0x0F for up to 12 Hz or 51..100 Hz, 0x1F for 13..25 or 101..200, 0x2F for 26..50 or 201..400, 0x3F above 400 |
| `L3gd.SetFrequencyPlanExamples` | l3gd/l3gd.go:86-103 | SetFrequency(100) writes 0x00→0x23, 0x00→0x39, 0x0F→0x20; SetFrequency(12) writes 0x00→0x23, 0x01→0x39, 0x0F→0x20 |
| `L3gd.Int16` | l3gd/l3gd.go:115-118 | the reference 16-bit two's-complement value of (lo, hi): in [-32768, 32767] and congruent to `256*hi + lo` modulo 65536 |
| `L3gd.DecodeAxis` | l3gd/l3gd.go:116-118 | for `lo < 0x80` the axis is `int8(hi)*256 + lo`; for `lo >= 0x80` it is `lo - 256` whatever `hi` is; it always lies in [-32768, 32767] |
| `L3gd.DecodeAxisIsInt16Iff` | l3gd/l3gd.go:116-118 | the decode equals the 16-bit two's-complement value if and only if `lo < 0x80` or `hi == 0xFF` |
| `L3gd.DecodeAxisExamples` | l3gd/l3gd.go:116-118 | (0xFF,0xFF) → -1, (0x00,0x80) → -32768, (0x01,0x00) → 1, and (0xFF,0x7F) → -1 where two's complement gives 32767 |
| `L3gd.StatusWarning` | l3gd/l3gd.go:119-123 | overwritten exactly when the status is 0x10 or more; not available exactly when it is 0; no warning exactly when it is in 1..15 |
| `L3gd.StatusWarningByBits` | l3gd/l3gd.go:119-123 | overwritten if and only if one of bits 4..7 is set; not-available if and only if no bit is set; no warning if and only if bits 4..7 are clear and some bit of 0..3 is set; the two flags are never both set |
| `L3gd.StatusWarningExamples` | l3gd/l3gd.go:119-123 | 0x00 → not available, 0x0F → no warning, 0xF0 and 0xFF → overwritten |
| `L3gd.ErrorMessage` | l3gd/l3gd.go:42-50 | the not-available text when that flag is set (it takes priority), else the overwritten text when that flag is set, else the unknown text |
| `L3gd.ReadWarningMessage` | l3gd/l3gd.go:42-50 | every warning Read produces gets a specific text, never the unknown one: not-available exactly when the status is 0, overwritten exactly when bits 4..7 are not all clear |
| `L3gd.BurstCoversOutputRegisters` | l3gd/l3gd.go:111-112 | the burst from 0xA7 (0x27 with bit 7 set) returns registers 0x27 (STATUS) to 0x2D (OUT_Z_H), in order |
| `L3gd.L3GD.constructor` | l3gd/l3gd.go:19-25 | the driver is bound to the given bus and address, which never change (both are `const`) |
| `L3gd.L3GD.Sleep` | l3gd/l3gd.go:53-63 | reads CTRL1; if the read fails, returns that error with no write and no register changed; otherwise writes `V &^ 0x08` back, returns the write's outcome, and CTRL1 changes only if the write succeeds |
| `L3gd.L3GD.Wake` | l3gd/l3gd.go:66-73 | reads CTRL1; if the read fails, returns that error with no write; otherwise writes V with 0xF0 ORed in back, returns the write's outcome, and CTRL1 changes only if the write succeeds |
| `L3gd.L3GD.SetFrequency` | l3gd/l3gd.go:86-103 | issues 0x00→CTRL4, then the selected row's low-ODR byte→LOW_ODR, then its CTRL1 byte→CTRL1; stops after the first failed write and returns its error; the registers reflect exactly the successful writes |
| `L3gd.L3GD.Read` | l3gd/l3gd.go:110-125 | one 7-byte burst read from 0xA7, no register changed; if it fails, a zero sample and the bus error; otherwise X, Y, Z decoded from bytes (1,2), (3,4), (5,6) whatever the status is, with the warning that StatusWarning gives for byte 0 |

## Left out

- The I2C transport (`ReadByteFromReg`, `WriteByteToReg` and `ReadSliceFromReg`
  of the bus package) is foreign I/O. The `I2c.Bus` class stands in for it:
  an abstract register file, a transaction log and a failure schedule. It
  does not model timing, acknowledgements or the error values' contents.
- The float64 fields of the `r3.Vector` sample are not modelled. `Sample`
  holds the three integers. Each one lies in [-32768, 32767], so converting
  it to float64 is exact.
- The exact wording of the three warning texts is not modelled. `Message`
  names them by meaning.
- Only the value of `DefaultAddress` (0x6B) is modelled. The constructor only
  fixes the bus and address, as in the code. The driver has no concurrency,
  locking or timing to model.
- `GoOps.ShiftLeft`: does not model Go's 64-bit wrap-around of `<<`. The
  driver only shifts values in [-128, 127] by 8, which never wraps.
- On a failed burst read the buffer's contents are left unspecified. Read
  ignores the buffer in that case.
