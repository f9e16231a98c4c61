/** The MAG3110 driver: the data-ready flag shared with the interrupt handler,
    the sample acquisition, the `enable` and `dr_mode` controls, and the
    probe, remove, suspend and resume sequences. The per-device state of the
    driver is a class; the chip and the bus are a `Bus` whose transfer
    outcomes the caller supplies. */
module Mag3110Driver {
  import opened Mag3110Registers
  import opened Mag3110Bus
  import opened Mag3110Sysfs

  // Kernel error numbers the driver returns (negated).
  const EIO: int := 5
  const EINVAL: int := 22
  const ETIME: int := 62

  /** Settle time after switching the chip to active mode, in milliseconds. */
  const SETTLE_MS: nat := 100

  /** The operations mag3110_init_client issues, given the CTRL_REG1 it reads. */
  function InitLog(reg1: bv8): (ops: seq<BusOp>)
    ensures |ops| == 3 && ops[0] == WriteByte(CTRL_REG2, AUTO_MRST_EN)
    ensures ops[1] == ReadByte(CTRL_REG1)
    ensures ops[2] == WriteByte(CTRL_REG1, WithDefaultRate(reg1))
    ensures DataRateMode(ops[2].value) >= 3
  {
    DefaultRateMode(reg1);
    [WriteByte(CTRL_REG2, AUTO_MRST_EN), ReadByte(CTRL_REG1), WriteByte(CTRL_REG1, WithDefaultRate(reg1))]
  }

  /** The register file after mag3110_init_client, given the outcomes of its two writes. */
  function InitRegs(regs: map<Addr, bv8>, o2: WriteOutcome, o1: WriteOutcome): (m: map<Addr, bv8>)
    ensures o2.Written? ==> RegOf(m, CTRL_REG2) == AUTO_MRST_EN
    ensures o2.WriteFailed? ==> RegOf(m, CTRL_REG2) == RegOf(regs, CTRL_REG2)
    ensures RegOf(m, CTRL_REG1) == if o1.Written? then WithDefaultRate(RegOf(regs, CTRL_REG1)) else RegOf(regs, CTRL_REG1)
    ensures forall a :: a != CTRL_REG1 && a != CTRL_REG2 ==> RegOf(m, a) == RegOf(regs, a)
  {
    var after2 := AfterWrite(regs, CTRL_REG2, AUTO_MRST_EN, o2);
    AfterWrite(after2, CTRL_REG1, WithDefaultRate(RegOf(after2, CTRL_REG1)), o1)
  }

  /** mag3110_read_block_data: -1 when fewer than `count` bytes arrive, else `count`. */
  method ReadBlockData(client: Bus, reg: Addr, count: nat, buf: array<bv8>, got: int) returns (ret: int)
    requires count <= buf.Length && got <= count
    modifies client`log, buf
    ensures ret == if got < count then -1 else count
    ensures client.log == old(client.log) + [ReadBlock(reg, count)]
    ensures ret == count ==> buf[..count] == BlockOf(client.regs, reg, count)
  {
    var n := client.ReadI2cBlock(reg, count, buf, got);
    if n < count {
      return -1;
    }
    return count;
  }

  /** mag3110_init_client: enable automatic resets in CTRL_REG2, then OR the
      default data-rate bits into CTRL_REG1. Only the second write's result
      is returned. */
  method InitClient(client: Bus, o2: WriteOutcome, o1: WriteOutcome) returns (ret: int)
    modifies client
    ensures ret == o1.Status()
    ensures client.log == old(client.log) + InitLog(old(client.Reg(CTRL_REG1)))
    ensures client.regs == InitRegs(old(client.regs), o2, o1)
  {
    var val: bv8 := AUTO_MRST_EN;
    ret := client.WriteReg(CTRL_REG2, val, o2);
    val := client.ReadReg(CTRL_REG1);
    val := WithDefaultRate(val);
    ret := client.WriteReg(CTRL_REG1, val, o1);
  }

  /** The driver's per-device state (struct mag3110_data). */
  class Mag3110Data {
    const client: Bus
    /** Set by the interrupt handler, cleared by the consumer. */
    var dataReady: bool
    /** CTRL_REG1 as saved across suspend. */
    var ctlReg1: bv8

    /** kzalloc: every field zero. */
    constructor (client: Bus)
      ensures this.client == client && !dataReady && ctlReg1 == 0
    {
      this.client := client;
      dataReady := false;
      ctlReg1 := 0;
    }

    /** mag3110_irq_handler: raises the flag and touches nothing else. */
    method IrqHandler()
      modifies this`dataReady
      ensures dataReady
    {
      dataReady := true;
    }

    /** mag3110_enable_show: prints bit 0 of CTRL_REG1 as a decimal line and
        returns the length printed. */
    method EnableShow() returns (ret: int, text: string)
      modifies client`log
      ensures text == DecimalLine(ActiveFlag(client.Reg(CTRL_REG1)))
      ensures text == "0\n" || text == "1\n"
      ensures ret == |text|
      ensures client.log == old(client.log) + [ReadByte(CTRL_REG1)]
    {
      var reg := client.ReadReg(CTRL_REG1);
      var val := ActiveFlag(reg);
      text := DecimalLine(val);
      ret := |text|;
    }

    /** mag3110_enable_store: write bit 0 of CTRL_REG1 (set only for the
        value 1) and, after switching to active mode, wait and read one
        sample block to clear a stale interrupt. */
    method EnableStore(parsed: Option<nat>, count: nat, o: WriteOutcome, got: int) returns (ret: int)
      requires got <= XYZ_DATA_LEN
      modifies client
      ensures parsed.None? ==>
        ret == -EINVAL && client.log == old(client.log) && client.regs == old(client.regs)
      ensures parsed.Some? ==>
        var enable := parsed.value == 1;
        var reg := SetActive(old(client.Reg(CTRL_REG1)), enable);
        && client.regs == AfterWrite(old(client.regs), CTRL_REG1, reg, o)
        && client.log == old(client.log) + [ReadByte(CTRL_REG1), WriteByte(CTRL_REG1, reg)]
                         + (if o.Written? && enable then [Delay(SETTLE_MS), ReadBlock(OUT_X_MSB, XYZ_DATA_LEN)] else [])
        && ret == if o.Written? then count else o.Status()
    {
      if parsed.None? {
        return -EINVAL;
      }
      var enable := parsed.value == 1;
      var reg := client.ReadReg(CTRL_REG1);
      reg := SetActive(reg, enable);
      ret := client.WriteReg(CTRL_REG1, reg, o);
      if ret < 0 {
        return ret;
      }
      if enable {
        client.Sleep(SETTLE_MS);
        var tmp := new bv8[XYZ_DATA_LEN];
        var _ := ReadBlockData(client, OUT_X_MSB, XYZ_DATA_LEN, tmp, got);
      }
      return count;
    }

    /** mag3110_dr_mode_show: prints bits 5..7 of CTRL_REG1 as a decimal
        line and returns the length printed. */
    method DrModeShow() returns (ret: int, text: string)
      modifies client`log
      ensures text == DecimalLine(DataRateMode(client.Reg(CTRL_REG1)))
      ensures |text| == 2 && '0' <= text[0] <= '7'
      ensures ret == |text|
      ensures client.log == old(client.log) + [ReadByte(CTRL_REG1)]
    {
      var reg := client.ReadReg(CTRL_REG1);
      var val := DataRateMode(reg);
      text := DecimalLine(val);
      ret := |text|;
    }

    /** mag3110_dr_mode_store: replace bits 5..7 of CTRL_REG1 by a value in
        0..7. Whether the chip is in standby is not checked. */
    method DrModeStore(parsed: Option<nat>, count: nat, o: WriteOutcome) returns (ret: int)
      modifies client
      ensures (parsed.None? || parsed.value > 7) ==>
        ret == -EINVAL && client.log == old(client.log) && client.regs == old(client.regs)
      ensures parsed.Some? && parsed.value <= 7 ==>
        var reg := SetDataRateMode(old(client.Reg(CTRL_REG1)), parsed.value);
        && client.regs == AfterWrite(old(client.regs), CTRL_REG1, reg, o)
        && client.log == old(client.log) + [ReadByte(CTRL_REG1), WriteByte(CTRL_REG1, reg)]
        && ret == if o.Written? then count else o.Status()
    {
      if parsed.None? || parsed.value > 7 {
        return -EINVAL;
      }
      var val := parsed.value;
      var reg := client.ReadReg(CTRL_REG1);
      reg := SetDataRateMode(reg, val);
      ret := client.WriteReg(CTRL_REG1, reg, o);
      if ret < 0 {
        return ret;
      }
      return count;
    }

    /** mag3110_suspend: save CTRL_REG1 and put the chip in standby. */
    method Suspend(o: WriteOutcome) returns (ret: int)
      modifies this`ctlReg1, client
      ensures ctlReg1 == old(client.Reg(CTRL_REG1))
      ensures client.regs == AfterWrite(old(client.regs), CTRL_REG1, SetActive(ctlReg1, false), o)
      ensures client.log == old(client.log) + [ReadByte(CTRL_REG1), WriteByte(CTRL_REG1, SetActive(ctlReg1, false))]
      ensures ret == o.Status()
    {
      ctlReg1 := client.ReadReg(CTRL_REG1);
      ret := client.WriteReg(CTRL_REG1, SetActive(ctlReg1, false), o);
    }

    /** mag3110_resume: write the saved CTRL_REG1 back and, when it is in
        active mode, read one sample block to clear a stale interrupt. The
        clearing read is issued whatever the outcome of the write. */
    method Resume(o: WriteOutcome, got: int) returns (ret: int)
      requires got <= XYZ_DATA_LEN
      modifies client
      ensures client.regs == AfterWrite(old(client.regs), CTRL_REG1, ctlReg1, o)
      ensures client.log == old(client.log) + [WriteByte(CTRL_REG1, ctlReg1)]
                            + (if ActiveFlag(ctlReg1) == 1 then [ReadBlock(OUT_X_MSB, XYZ_DATA_LEN)] else [])
      ensures ret == o.Status()
    {
      ret := client.WriteReg(CTRL_REG1, ctlReg1, o);
      if ctlReg1 & AC_MASK != 0 {
        var tmp := new bv8[XYZ_DATA_LEN];
        var _ := ReadBlockData(client, OUT_X_MSB, XYZ_DATA_LEN, tmp, got);
      }
    }

    /** The chip-facing part of mag3110_remove: save CTRL_REG1 and put the
        chip in standby, exactly as suspend does. */
    method Remove(o: WriteOutcome) returns (ret: int)
      modifies this`ctlReg1, client
      ensures ctlReg1 == old(client.Reg(CTRL_REG1))
      ensures client.regs == AfterWrite(old(client.regs), CTRL_REG1, SetActive(ctlReg1, false), o)
      ensures client.log == old(client.log) + [ReadByte(CTRL_REG1), WriteByte(CTRL_REG1, SetActive(ctlReg1, false))]
      ensures ret == o.Status()
    {
      ctlReg1 := client.ReadReg(CTRL_REG1);
      ret := client.WriteReg(CTRL_REG1, SetActive(ctlReg1, false), o);
    }
  }

  /** mag3110_read_data. `pdata` is the driver's device pointer, null until
      probe succeeds. The interrupt may fire while the driver waits
      (`irqDuringWait`) and again while the block transfer is in flight
      (`irqDuringRead`), which is after the flag has been cleared; `got` is
      the block transfer's return value. */
  method ReadData(pdata: Mag3110Data?, irqDuringWait: bool, irqDuringRead: bool, got: int)
    returns (ret: int, x: int, y: int, z: int)
    requires got <= XYZ_DATA_LEN
    modifies pdata, if pdata == null then {} else {pdata.client}
    ensures pdata == null ==> ret == -EINVAL
    ensures pdata != null ==> pdata.ctlReg1 == old(pdata.ctlReg1) && pdata.client.regs == old(pdata.client.regs)
    ensures pdata != null && !old(pdata.dataReady) && !irqDuringWait ==>
      ret == -ETIME && pdata.client.log == old(pdata.client.log) && pdata.dataReady == old(pdata.dataReady)
    ensures pdata != null && (old(pdata.dataReady) || irqDuringWait) ==>
      && pdata.dataReady == irqDuringRead
      && pdata.client.log == old(pdata.client.log) + [ReadBlock(OUT_X_MSB, XYZ_DATA_LEN)]
      && ret == (if got < XYZ_DATA_LEN then -1 else 0)
      && (ret == 0 ==> Sample(x, y, z) == Decode(BlockOf(pdata.client.regs, OUT_X_MSB, XYZ_DATA_LEN)))
  {
    x, y, z := 0, 0, 0;
    if pdata == null {
      return -EINVAL, x, y, z;
    }
    var data := pdata;
    // The wait ends as soon as the flag is up; the interrupt may raise it meanwhile.
    if irqDuringWait {
      data.IrqHandler();
    }
    if !data.dataReady {
      return -ETIME, x, y, z;
    }
    data.dataReady := false;
    var tmp := new bv8[XYZ_DATA_LEN];
    var n := ReadBlockData(data.client, OUT_X_MSB, XYZ_DATA_LEN, tmp, got);
    // An interrupt during the transfer comes after the clear and is kept.
    if irqDuringRead {
      data.IrqHandler();
    }
    if n < 0 {
      return -1, x, y, z;
    }
    x := Signed16(Compose(tmp[0], tmp[1]) as int);
    y := Signed16(Compose(tmp[2], tmp[3]) as int);
    z := Signed16(Compose(tmp[4], tmp[5]) as int);
    assert tmp[..] == tmp[..XYZ_DATA_LEN];
    DecodeIsDriverExpression(tmp[..]);
    ret := 0;
  }

  /** report_abs: a sample is delivered exactly when mag3110_read_data
      succeeds; otherwise the poll tick is skipped. */
  method ReportAbs(pdata: Mag3110Data?, irqDuringWait: bool, irqDuringRead: bool, got: int)
    returns (reported: Option<Sample>)
    requires got <= XYZ_DATA_LEN
    modifies pdata, if pdata == null then {} else {pdata.client}
    ensures pdata == null ==> reported.None?
    ensures pdata != null ==> pdata.ctlReg1 == old(pdata.ctlReg1) && pdata.client.regs == old(pdata.client.regs)
    ensures pdata != null && !old(pdata.dataReady) && !irqDuringWait ==>
      reported.None? && pdata.client.log == old(pdata.client.log) && pdata.dataReady == old(pdata.dataReady)
    ensures pdata != null && (old(pdata.dataReady) || irqDuringWait) ==>
      && pdata.dataReady == irqDuringRead
      && pdata.client.log == old(pdata.client.log) + [ReadBlock(OUT_X_MSB, XYZ_DATA_LEN)]
      && reported == if got < XYZ_DATA_LEN then None
                     else Some(Decode(BlockOf(pdata.client.regs, OUT_X_MSB, XYZ_DATA_LEN)))
  {
    var ret, x, y, z := ReadData(pdata, irqDuringWait, irqDuringRead, got);
    if ret != 0 {
      return None;
    }
    return Some(Sample(x, y, z));
  }

  /** The chip-facing part of mag3110_probe: the adapter must offer the SMBus
      transfers used (`functional`), the chip must identify itself as a
      MAG3110, and then the device state is allocated and the chip
      initialised. The initialisation's result is not checked. */
  method Probe(client: Bus, functional: bool, o2: WriteOutcome, o1: WriteOutcome)
    returns (ret: int, data: Mag3110Data?)
    modifies client
    ensures !functional ==>
      ret == -EIO && data == null && client.log == old(client.log) && client.regs == old(client.regs)
    ensures functional && old(client.Reg(WHO_AM_I)) != MAG3110_ID ==>
      && ret == -EINVAL && data == null
      && client.log == old(client.log) + [ReadByte(WHO_AM_I)] && client.regs == old(client.regs)
    ensures functional && old(client.Reg(WHO_AM_I)) == MAG3110_ID ==>
      && ret == 0 && data != null && fresh(data)
      && data.client == client && !data.dataReady && data.ctlReg1 == 0
      && client.log == old(client.log) + [ReadByte(WHO_AM_I)] + InitLog(old(client.Reg(CTRL_REG1)))
      && client.regs == InitRegs(old(client.regs), o2, o1)
  {
    if !functional {
      return -EIO, null;
    }
    var id := client.ReadReg(WHO_AM_I);
    if id != MAG3110_ID {
      return -EINVAL, null;
    }
    data := new Mag3110Data(client);
    var _ := InitClient(client, o2, o1);
    ret := 0;
  }
}
