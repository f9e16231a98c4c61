# MAG3110 magnetometer driver, modelled in Dafny

This project models the Linux driver for the Freescale MAG3110 three-axis
magnetometer (`linux-2.6.35-imx/drivers/hwmon/mag3110.c`). The driver talks to
the chip over SMBus. It keeps a `data_ready` flag that the interrupt handler
raises and the sample reader consumes. It exposes two sysfs controls:
`enable`, which drives the active/standby bit 0 of CTRL_REG1 (0x10), and
`dr_mode`, which drives the 3-bit data-rate field in bits 5..7 of CTRL_REG1.
Suspend saves CTRL_REG1 and puts the chip in standby. Resume writes the saved
value back. Remove puts the chip in standby.

Files:

- `registers.dfy` (module `Mag3110Registers`): register addresses and masks, the
  CTRL_REG1 bit-field functions behind the show and store handlers, and the
  sample decoder. The decoder turns the 6-byte block read from OUT_X_MSB into
  three signed 16-bit axes. Both round trips with the chip's big-endian
  encoding are proved.
- `bus.dfy` (module `Mag3110Bus`): the SMBus transport as a `Bus` class. It
  holds a register file (`map` from address to byte) and a log of every
  operation issued (byte read, byte write, block read, delay). Write outcomes
  and the byte count of a block transfer are parameters chosen by the caller.
  Byte reads always succeed.
- `sysfs.dfy` (module `Mag3110Sysfs`): the text of the sysfs attributes. A
  show handler prints its value with `sprintf(buf, "%d\n", val)`; the model
  gives that line as `DecimalLine` and proves that reading it back as a
  decimal value (`ParseDecimal`) gives the value again.
- `driver.dfy` (module `Mag3110Driver`): the per-device state
  `struct mag3110_data` as the class `Mag3110Data`, with fields `dataReady`
  and `ctlReg1`. Each handler is a method whose contract gives the new
  register file, the new operation log, the new fields and the return value.
  The global `mag3110_pdata` becomes a nullable argument of `ReadData` and
  `ReportAbs`, so the NULL check of `mag3110_read_data` is kept. The
  interrupt handler has no such check; it is a method of a device state
  that exists (see "## Left out").
- `sessions.dfy` (module `Mag3110Sessions`): properties spanning several
  handlers, proved from the handlers' contracts alone. These are the
  store/show round trips, suspend followed by resume, one interrupt consumed
  by exactly one read, writing back what a show handler printed, and a
  concrete session starting from CTRL_REG1 = 0x00.

Where the driver's stated intent and its code differ, the model follows the
code:

- `mag3110_init_client` carries the comment "set default data rate to 10HZ"
  (line 129), the rate of mode 3.
  The code ORs `0x3 << 5` into CTRL_REG1 without clearing bit 7, so the
  resulting mode is 3 only if bit 7 was clear, and 7 otherwise
  (`DefaultRateMode`).
- `mag3110_probe` ignores the result of `mag3110_init_client` and returns 0.
- `mag3110_resume` issues the stale-interrupt-clearing block read whenever the
  saved value is active, even if its restore write failed. `enable_store`
  issues its clearing read only after a successful write.
- `dr_mode_store` carries a comment that it must run in standby, but it does
  not check this. The model does not check it either.

## Model

| member | source | states |
|---|---|---|
| Mag3110Registers.ActiveFlag | linux-2.6.35-imx/drivers/hwmon/mag3110.c:206 | the value `enable` shows is 0 or 1, and 1 exactly when bit 0 of CTRL_REG1 is set |
| Mag3110Registers.ActiveFlagIsParity | linux-2.6.35-imx/drivers/hwmon/mag3110.c:38 | the shown enable value is the register value mod 2 |
| Mag3110Registers.DataRateMode | linux-2.6.35-imx/drivers/hwmon/mag3110.c:256-257 | the value `dr_mode` shows is in 0..7 |
| Mag3110Registers.DataRateModeIsHighBits | linux-2.6.35-imx/drivers/hwmon/mag3110.c:40-41 | the shown data-rate mode is bits 5..7, the register value div 32 |
| Mag3110Registers.SetActive | linux-2.6.35-imx/drivers/hwmon/mag3110.c:223-230 | after the read-modify-write, the shown enable value is 1 exactly when enabling; every other bit, and so the data-rate mode, is as read |
| Mag3110Registers.SetDataRateMode | linux-2.6.35-imx/drivers/hwmon/mag3110.c:276-278 | the shown data-rate mode becomes the stored value; bits 0..4, and so the active flag, are as read |
| Mag3110Registers.WithDefaultRate | linux-2.6.35-imx/drivers/hwmon/mag3110.c:129-131 | bits 5 and 6 are set; all other bits, bit 7 and the active bit included, are as read |
| Mag3110Registers.DefaultRateMode | linux-2.6.35-imx/drivers/hwmon/mag3110.c:129-131 | the initial data-rate mode is 3 when bit 7 was clear and 7 when it was set |
| Mag3110Registers.StandbyKeepsAllButActive | linux-2.6.35-imx/drivers/hwmon/mag3110.c:431-446 | the standby value has bit 0 clear and differs from the saved value only there; setting bit 0 back as saved restores the saved value |
| Mag3110Registers.RestoreSameValue | linux-2.6.35-imx/drivers/hwmon/mag3110.c:223-230 | storing the active flag or the data-rate mode a register already has leaves the register unchanged |
| Mag3110Registers.Signed16 | linux-2.6.35-imx/drivers/hwmon/mag3110.c:165-167 | storing a 16-bit quantity into a `short` gives a value in -32768..32767, negative exactly when bit 15 is set, equal to the quantity or the quantity minus 65536 |
| Mag3110Registers.ComposeValue | linux-2.6.35-imx/drivers/hwmon/mag3110.c:165 | the shifted MSB ORed with the LSB, `(msb << 8) & 0xff00` OR `lsb`, is msb * 256 + lsb |
| Mag3110Registers.Axis | linux-2.6.35-imx/drivers/hwmon/mag3110.c:165-167 | one axis, the pair read big-endian as two's complement, is a signed 16-bit value |
| Mag3110Registers.AxisIsDriverExpression | linux-2.6.35-imx/drivers/hwmon/mag3110.c:165 | the driver's `((msb << 8) & 0xff00)` OR `lsb`, stored into a `short`, is that axis value |
| Mag3110Registers.Decode | linux-2.6.35-imx/drivers/hwmon/mag3110.c:161-167 | the three decoded axes are signed 16-bit values |
| Mag3110Registers.DecodeIsDriverExpression | linux-2.6.35-imx/drivers/hwmon/mag3110.c:165-167 | x, y and z are the driver's composition of bytes (0,1), (2,3) and (4,5), each stored into a `short` |
| Mag3110Registers.DecodeEncode | linux-2.6.35-imx/drivers/hwmon/mag3110.c:161-167 | decoding the chip's big-endian encoding of any signed 16-bit sample gives that sample back |
| Mag3110Registers.EncodeDecode | linux-2.6.35-imx/drivers/hwmon/mag3110.c:161-167 | every 6-byte block is the encoding of its decoded sample, so decoding is injective |
| Mag3110Sysfs.DecimalDigits | linux-2.6.35-imx/drivers/hwmon/mag3110.c:208 | `%d` of a non-negative value prints at least one digit, only digits, and no leading zero |
| Mag3110Sysfs.DecimalLine | linux-2.6.35-imx/drivers/hwmon/mag3110.c:208 | a shown line is the digits followed by a newline |
| Mag3110Sysfs.ParseDecimal | linux-2.6.35-imx/drivers/hwmon/mag3110.c:220 | a line that parses starts with a digit |
| Mag3110Sysfs.DigitsValueOfDecimal | linux-2.6.35-imx/drivers/hwmon/mag3110.c:208 | reading the printed digits as a decimal number gives the value printed |
| Mag3110Sysfs.ParseDecimalLine | linux-2.6.35-imx/drivers/hwmon/mag3110.c:208-220 | the line a show handler prints parses back to the value shown |
| Mag3110Bus.WriteOutcome.Status | linux-2.6.35-imx/drivers/hwmon/mag3110.c:93-101 | the value `mag3110_write_reg` passes on is 0 for an acknowledged write and a negative error number otherwise |
| Mag3110Bus.AfterWrite | linux-2.6.35-imx/drivers/hwmon/mag3110.c:93-101 | an acknowledged write changes exactly the written register; a failed write changes nothing |
| Mag3110Bus.BlockOf | linux-2.6.35-imx/drivers/hwmon/mag3110.c:109-110 | a block read returns `n` bytes, the i-th being the register at the start address plus i |
| Mag3110Bus.Bus.ReadReg | linux-2.6.35-imx/drivers/hwmon/mag3110.c:85-88 | a byte read returns the register and only appends a read to the log |
| Mag3110Bus.Bus.WriteReg | linux-2.6.35-imx/drivers/hwmon/mag3110.c:93-101 | a byte write returns 0 or the negative error, updates the register only on success, and appends the write to the log |
| Mag3110Bus.Bus.Sleep | linux-2.6.35-imx/drivers/hwmon/mag3110.c:238 | `msleep(100)` only appends a delay to the log and changes no register |
| Mag3110Bus.Bus.ReadI2cBlock | linux-2.6.35-imx/drivers/hwmon/mag3110.c:109-110 | the transfer returns the bytes obtained, fills that many bytes of the buffer from the register file, and logs one block read |
| Mag3110Driver.ReadBlockData | linux-2.6.35-imx/drivers/hwmon/mag3110.c:106-116 | returns -1 when fewer than `count` bytes arrive and `count` otherwise; on success the buffer holds the register block |
| Mag3110Driver.InitLog | linux-2.6.35-imx/drivers/hwmon/mag3110.c:125-132 | initialisation writes 0x80 to CTRL_REG2, reads CTRL_REG1, and writes back the value read with the default-rate bits ORed in, which gives a data-rate mode of at least 3 |
| Mag3110Driver.InitRegs | linux-2.6.35-imx/drivers/hwmon/mag3110.c:125-132 | after initialisation CTRL_REG2 is 0x80 if its write succeeded, CTRL_REG1 has the default-rate bits ORed in if its write succeeded, and nothing else changes |
| Mag3110Driver.InitClient | linux-2.6.35-imx/drivers/hwmon/mag3110.c:121-135 | issues exactly those operations and returns only the second write's result |
| Mag3110Driver.Mag3110Data.constructor | linux-2.6.35-imx/drivers/hwmon/mag3110.c:325-328 | a new device state has `data_ready` and `ctl_reg1` zero |
| Mag3110Driver.Mag3110Data.IrqHandler | linux-2.6.35-imx/drivers/hwmon/mag3110.c:192-198 | the interrupt handler sets `data_ready` and changes nothing else |
| Mag3110Driver.Mag3110Data.EnableShow | linux-2.6.35-imx/drivers/hwmon/mag3110.c:200-209 | after one register read, prints bit 0 of CTRL_REG1 as the line "0\n" or "1\n" and returns its length |
| Mag3110Driver.Mag3110Data.EnableStore | linux-2.6.35-imx/drivers/hwmon/mag3110.c:211-245 | unparsable input gives -EINVAL with no bus traffic. Otherwise it reads CTRL_REG1 and writes it with bit 0 set iff the value is 1. A failed write returns its error with no further traffic. A successful enable adds a 100 ms delay and one 6-byte block read at 0x01, whose result is ignored. Success returns `count` |
| Mag3110Driver.Mag3110Data.DrModeShow | linux-2.6.35-imx/drivers/hwmon/mag3110.c:250-260 | after one register read, prints bits 5..7 of CTRL_REG1 as a one-digit decimal line in 0..7 and returns its length |
| Mag3110Driver.Mag3110Data.DrModeStore | linux-2.6.35-imx/drivers/hwmon/mag3110.c:262-285 | unparsable input or a value above 7 gives -EINVAL with no bus traffic. Otherwise one read and one write set bits 5..7 to the value and keep bits 0..4. It returns the write error or `count` |
| Mag3110Driver.Mag3110Data.Suspend | linux-2.6.35-imx/drivers/hwmon/mag3110.c:426-435 | saves the whole CTRL_REG1 in `ctl_reg1`, writes it back with bit 0 cleared, and returns that write's result |
| Mag3110Driver.Mag3110Data.Resume | linux-2.6.35-imx/drivers/hwmon/mag3110.c:437-453 | writes `ctl_reg1` back, issues the clearing block read iff its bit 0 is set, and returns the write's result |
| Mag3110Driver.Mag3110Data.Remove | linux-2.6.35-imx/drivers/hwmon/mag3110.c:408-412 | performs the same save and standby write as suspend and returns its result |
| Mag3110Driver.ReadData | linux-2.6.35-imx/drivers/hwmon/mag3110.c:142-170 | with no device it gives -EINVAL. On timeout it gives -ETIME with no bus traffic and `data_ready` unchanged. Otherwise it clears `data_ready` before the one block read, so an interrupt during the transfer leaves the flag raised. It returns -1 on a short read, else 0 with x, y, z the decoded block |
| Mag3110Driver.ReportAbs | linux-2.6.35-imx/drivers/hwmon/mag3110.c:172-185 | a poll tick delivers the decoded sample exactly when the read succeeds and nothing otherwise; the register file, `ctl_reg1` and the operation log change as in `ReadData`, and so does `data_ready` (unchanged on timeout, otherwise whether an interrupt came after the clear) |
| Mag3110Driver.Probe | linux-2.6.35-imx/drivers/hwmon/mag3110.c:308-386 | a missing SMBus capability gives -EIO with no traffic. A WHO_AM_I other than 0xC4 gives -EINVAL after that one read, with nothing allocated. Otherwise a zeroed device state is allocated and the chip initialised, and 0 is returned whatever the initialisation result |
| Mag3110Sessions.EnableRoundTrip | linux-2.6.35-imx/drivers/hwmon/mag3110.c:200-245 | after a successful store, `enable` shows "1\n" exactly when 1 was written and "0\n" otherwise, and the data-rate mode is unchanged |
| Mag3110Sessions.DrModeRoundTrip | linux-2.6.35-imx/drivers/hwmon/mag3110.c:250-285 | after a successful store of v in 0..7, the line `dr_mode` shows reads back as v, and the active flag is unchanged |
| Mag3110Sessions.SuspendResume | linux-2.6.35-imx/drivers/hwmon/mag3110.c:426-453 | suspend then a successful resume restores CTRL_REG1 to its value before suspend, whatever happened to the standby write; the clearing read follows iff that value is active |
| Mag3110Sessions.OneShotReady | linux-2.6.35-imx/drivers/hwmon/mag3110.c:142-198 | after one interrupt the first read does not time out and consumes the flag; a second read without an interrupt times out with no bus traffic |
| Mag3110Sessions.EnableWriteBack | linux-2.6.35-imx/drivers/hwmon/mag3110.c:200-245 | writing back the line `enable` showed, with the write acknowledged, leaves CTRL_REG1 as it was |
| Mag3110Sessions.DrModeWriteBack | linux-2.6.35-imx/drivers/hwmon/mag3110.c:250-285 | writing back the line `dr_mode` showed, with the write acknowledged, leaves CTRL_REG1 as it was |
| Mag3110Sessions.ControlSession | linux-2.6.35-imx/drivers/hwmon/mag3110.c:211-453 | from CTRL_REG1 = 0x00: enabling gives 0x01, data-rate mode 5 gives 0xA1, suspend writes 0xA0, resume writes 0xA1 and issues the clearing read |

## Left out

- The SMBus transfers themselves (`i2c_smbus_read_byte_data`, `i2c_smbus_write_byte_data`, `i2c_smbus_read_i2c_block_data`) are replaced by the `Bus` register map and operation log. Write failures and short block reads are parameters.
- Byte reads are taken to succeed. The driver uses a negative error from `mag3110_read_reg` as if it were a register value: it ORs bits into it (lines 130-131, 226-228), masks it with AND (lines 206, 230, 256, 276-277), compares it with the chip ID (lines 316-318), and truncates it into the `u8` field `ctl_reg1` (lines 410, 431). That mixing is not modelled.
- The wait queue and interrupt concurrency are reduced to two points where the interrupt handler may run during `ReadData`: during the wait (`irqDuringWait`) and while the block transfer is in flight (`irqDuringRead`), which comes after the flag is cleared. `wake_up_interruptible` is not modelled.
- `wait_event_interruptible_timeout` returning -ERESTARTSYS is not modelled. That value is non-zero, so the code at lines 151-156 would go on as if the data were ready.
- Mag3110Driver.Mag3110Data.IrqHandler: `mag3110_irq_handler` dereferences the global `mag3110_pdata` without a NULL check (line 194). The global is still NULL between `request_irq` (lines 374-375) and `mag3110_pdata = data` (line 384), and `mag3110_remove` sets it back to NULL (line 420). An interrupt in those windows would dereference NULL. The model's handler is a method of an existing device state, so it does not capture these windows. `free_irq` at line 414 is passed `data` while `request_irq` registered `idev`; the interrupt registration is not modelled.
- `msleep(100)` is logged as a `Delay(100)` operation and takes no time.
- The kernel log messages (`dev_err`, `dev_dbg`, `dev_info` at lines 99, 111, 154, 315, 319, 385) are not modelled; they change no driver state.
- `strict_strtoul` is not part of this model. The store handlers take its result as an `Option<nat>` parameter (`None` when parsing fails). `ParseDecimal` accepts one or more decimal digits followed by at most one newline (leading zeros included, as in "0042\n"); it is used only to read back the lines the show handlers print. Whether it agrees with the kernel parser on other input, and values beyond `unsigned long`, are not modelled.
- Probe's registration steps are not modelled: the kzalloc failure path, sysfs group, hwmon device, input polled device, `request_irq`, the error unwinding, and setting `mag3110_pdata`. Probe returns the new device state instead. The teardown in remove (`free_irq`, unregistering, `kfree`, clearing `mag3110_pdata`) is not modelled either.
- `input_report_abs` and `input_sync` become the returned `Option<Sample>` of `ReportAbs`. The poll interval settings are not modelled.
- `module_init`, `module_exit` and the driver table are not modelled.
- The chip's own behaviour is not modelled: data registers changing, DR_STATUS being cleared by reads, the interrupt line and automatic resets.
- ReadData: does not specify x, y and z when it returns non-zero, because the source then leaves the caller's variables untouched. The model returns 0 in that case.
