/** The SMBus transport the driver talks to, reduced to what the driver can
    observe: the chip's register file, the log of bus operations issued, and
    the outcome of each transfer, which the environment chooses. */
module Mag3110Bus {

  /** A register address on the chip. */
  type Addr = a: int | 0 <= a < 256

  /** One operation issued by the driver, in the order issued. */
  datatype BusOp =
    | ReadByte(reg: Addr)
    | WriteByte(reg: Addr, value: bv8)
    | ReadBlock(reg: Addr, count: nat)
    | Delay(ms: nat)

  /** A positive kernel error number; functions return its negation. */
  type Errno = n: int | n > 0 witness 5

  /** The outcome of a byte write, as the SMBus layer reports it. */
  datatype WriteOutcome = Written | WriteFailed(errno: Errno) {
    /** The return value of the write: 0, or a negative error number. */
    function Status(): (s: int)
      ensures s <= 0
      ensures s == 0 <==> Written?
    {
      if Written? then 0 else -(errno as int)
    }
  }

  /** The register file after a write to `reg`: updated only if it was acknowledged. */
  function AfterWrite(regs: map<Addr, bv8>, reg: Addr, value: bv8, o: WriteOutcome): (m: map<Addr, bv8>)
    ensures o.Written? ==> reg in m && m[reg] == value
    ensures forall a :: a != reg ==> (a in m <==> a in regs) && (a in m ==> m[a] == regs[a])
    ensures o.WriteFailed? ==> m == regs
  {
    if o.Written? then regs[reg := value] else regs
  }

  /** Registers the map does not hold read as 0. */
  function RegOf(regs: map<Addr, bv8>, a: Addr): bv8 {
    if a in regs then regs[a] else 0
  }

  /** The `n` registers from `reg` upwards, as an auto-incrementing block read
      returns them. */
  function BlockOf(regs: map<Addr, bv8>, reg: Addr, n: nat): (b: seq<bv8>)
    ensures |b| == n
    ensures forall i :: 0 <= i < n ==> b[i] == RegOf(regs, (reg + i) % 256)
  {
    seq(n, i requires 0 <= i < n => RegOf(regs, (reg + i) % 256))
  }

  class Bus {
    /** The chip's register file. */
    var regs: map<Addr, bv8>
    /** Every operation issued on the bus so far. */
    var log: seq<BusOp>

    constructor (regs: map<Addr, bv8>)
      ensures this.regs == regs && log == []
    {
      this.regs := regs;
      log := [];
    }

    function Reg(a: Addr): bv8
      reads this
    {
      RegOf(regs, a)
    }

    /** i2c_smbus_read_byte_data; reads are taken to succeed. */
    method ReadReg(reg: Addr) returns (v: bv8)
      modifies this`log
      ensures v == Reg(reg)
      ensures log == old(log) + [ReadByte(reg)]
    {
      v := Reg(reg);
      log := log + [ReadByte(reg)];
    }

    /** i2c_smbus_write_byte_data, with the outcome chosen by the environment. */
    method WriteReg(reg: Addr, value: bv8, outcome: WriteOutcome) returns (ret: int)
      modifies this
      ensures ret == outcome.Status()
      ensures regs == AfterWrite(old(regs), reg, value, outcome)
      ensures log == old(log) + [WriteByte(reg, value)]
    {
      regs := AfterWrite(regs, reg, value, outcome);
      log := log + [WriteByte(reg, value)];
      ret := outcome.Status();
    }

    /** msleep: only recorded. */
    method Sleep(ms: nat)
      modifies this`log
      ensures log == old(log) + [Delay(ms)]
    {
      log := log + [Delay(ms)];
    }

    /** i2c_smbus_read_i2c_block_data: `got` is the transfer's return value
        (the number of bytes obtained, or a negative error); the bytes that
        arrived are copied into `buf`. */
    method ReadI2cBlock(reg: Addr, count: nat, buf: array<bv8>, got: int) returns (n: int)
      requires count <= buf.Length
      requires got <= count
      modifies this`log, buf
      ensures n == got
      ensures log == old(log) + [ReadBlock(reg, count)]
      ensures forall i :: 0 <= i < got ==> buf[i] == BlockOf(regs, reg, count)[i]
      ensures forall i :: got <= i < buf.Length && 0 <= i ==> buf[i] == old(buf[i])
    {
      var block := BlockOf(regs, reg, count);
      forall i | 0 <= i < buf.Length && i < got {
        buf[i] := block[i];
      }
      log := log + [ReadBlock(reg, count)];
      n := got;
    }
  }
}
