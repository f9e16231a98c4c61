/** Properties of the driver that span several handlers: the show/store
    round trips, suspend followed by resume, and the one-shot data-ready
    flag. Each is a client of the handlers' contracts alone. */
module Mag3110Sessions {
  import opened Mag3110Registers
  import opened Mag3110Bus
  import opened Mag3110Driver
  import opened Mag3110Sysfs

  /** Writing `enable` and reading it back shows 1 exactly for the value 1,
      and the data-rate mode is left as it was. */
  method EnableRoundTrip(data: Mag3110Data, v: nat, count: nat, got: int) returns (ret: int, shown: string)
    requires got <= XYZ_DATA_LEN
    modifies data.client
    ensures ret == count
    ensures shown == if v == 1 then "1\n" else "0\n"
    ensures DataRateMode(data.client.Reg(CTRL_REG1)) == DataRateMode(old(data.client.Reg(CTRL_REG1)))
  {
    ret := data.EnableStore(Some(v), count, Written, got);
    var len;
    len, shown := data.EnableShow();
  }

  /** Writing a data-rate mode in 0..7 and reading it back shows that mode,
      and the active flag is left as it was. */
  method DrModeRoundTrip(data: Mag3110Data, v: nat, count: nat) returns (ret: int, shown: string)
    requires v <= 7
    modifies data.client
    ensures ret == count
    ensures ParseDecimal(shown) == Some(v)
    ensures ActiveFlag(data.client.Reg(CTRL_REG1)) == ActiveFlag(old(data.client.Reg(CTRL_REG1)))
  {
    ret := data.DrModeStore(Some(v), count, Written);
    var len;
    len, shown := data.DrModeShow();
    ParseDecimalLine(v);
  }

  /** Writing back the line `enable` shows, when the write is acknowledged,
      leaves CTRL_REG1 as it was. */
  method EnableWriteBack(data: Mag3110Data, count: nat, got: int) returns (ret: int)
    requires got <= XYZ_DATA_LEN
    modifies data.client
    ensures ret == count
    ensures data.client.Reg(CTRL_REG1) == old(data.client.Reg(CTRL_REG1))
  {
    var _, text := data.EnableShow();
    ParseDecimalLine(ActiveFlag(data.client.Reg(CTRL_REG1)));
    RestoreSameValue(data.client.Reg(CTRL_REG1));
    ret := data.EnableStore(ParseDecimal(text), count, Written, got);
  }

  /** Writing back the line `dr_mode` shows, when the write is acknowledged,
      leaves CTRL_REG1 as it was. */
  method DrModeWriteBack(data: Mag3110Data, count: nat) returns (ret: int)
    modifies data.client
    ensures ret == count
    ensures data.client.Reg(CTRL_REG1) == old(data.client.Reg(CTRL_REG1))
  {
    var _, text := data.DrModeShow();
    ParseDecimalLine(DataRateMode(data.client.Reg(CTRL_REG1)));
    RestoreSameValue(data.client.Reg(CTRL_REG1));
    ret := data.DrModeStore(ParseDecimal(text), count, Written);
  }

  /** Suspend then resume: whatever became of the standby write, a
      successful restore write gives CTRL_REG1 back its value before suspend,
      and the clearing block read follows exactly when that value is active. */
  method SuspendResume(data: Mag3110Data, oSuspend: WriteOutcome, got: int) returns (ret: int)
    requires got <= XYZ_DATA_LEN
    modifies data, data.client
    ensures ret == 0
    ensures data.client.Reg(CTRL_REG1) == old(data.client.Reg(CTRL_REG1))
    ensures var r := old(data.client.Reg(CTRL_REG1));
      data.client.log == old(data.client.log)
        + [ReadByte(CTRL_REG1), WriteByte(CTRL_REG1, SetActive(r, false)), WriteByte(CTRL_REG1, r)]
        + (if ActiveFlag(r) == 1 then [ReadBlock(OUT_X_MSB, XYZ_DATA_LEN)] else [])
  {
    var _ := data.Suspend(oSuspend);
    ret := data.Resume(Written, got);
  }

  /** One interrupt is consumed by one read: a read after the interrupt
      does not time out, and a second read with no new interrupt does. */
  method OneShotReady(data: Mag3110Data, got: int) returns (first: int, second: int)
    requires got <= XYZ_DATA_LEN
    modifies data, data.client
    ensures first != -ETIME
    ensures second == -ETIME
    ensures !data.dataReady
    ensures data.client.log == old(data.client.log) + [ReadBlock(OUT_X_MSB, XYZ_DATA_LEN)]
  {
    data.IrqHandler();
    var x, y, z;
    first, x, y, z := ReadData(data, false, false, got);
    second, x, y, z := ReadData(data, false, false, got);
  }

  /** A session on a chip whose CTRL_REG1 starts at 0x00: enable, a
      data-rate change, then suspend and resume. */
  method ControlSession(count: nat) returns (bus: Bus, data: Mag3110Data)
    ensures bus.Reg(CTRL_REG1) == 0xA1
    ensures data.ctlReg1 == 0xA1
    ensures bus.log == [ReadByte(CTRL_REG1), WriteByte(CTRL_REG1, 0x01), Delay(SETTLE_MS), ReadBlock(OUT_X_MSB, XYZ_DATA_LEN),
                        ReadByte(CTRL_REG1), WriteByte(CTRL_REG1, 0xA1),
                        ReadByte(CTRL_REG1), WriteByte(CTRL_REG1, 0xA0),
                        WriteByte(CTRL_REG1, 0xA1), ReadBlock(OUT_X_MSB, XYZ_DATA_LEN)]
  {
    bus := new Bus(map[CTRL_REG1 := 0x00]);
    data := new Mag3110Data(bus);
    var ret := data.EnableStore(Some(1), count, Written, XYZ_DATA_LEN);
    assert bus.Reg(CTRL_REG1) == 0x01;
    ret := data.DrModeStore(Some(5), count, Written);
    assert bus.Reg(CTRL_REG1) == 0xA1;
    ret := data.Suspend(Written);
    assert bus.Reg(CTRL_REG1) == 0xA0;
    ret := data.Resume(Written, XYZ_DATA_LEN);
  }
}
