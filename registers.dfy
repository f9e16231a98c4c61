/** Register map, bit fields of CTRL_REG1 and the sample decoder of the
    Freescale MAG3110 three-axis magnetometer driver. Everything here is a
    pure function of register bytes. */
module Mag3110Registers {

  // Register addresses of the sensor.
  const OUT_X_MSB: int := 0x01
  const WHO_AM_I: int := 0x07
  const CTRL_REG1: int := 0x10
  const CTRL_REG2: int := 0x11

  /** Identity byte the chip reports at WHO_AM_I. */
  const MAG3110_ID: bv8 := 0xC4
  /** Length of one X/Y/Z sample block starting at OUT_X_MSB. */
  const XYZ_DATA_LEN: nat := 6

  /** CTRL_REG1 bit 0: 0 is standby, 1 is active. */
  const AC_MASK: bv8 := 0x01
  /** CTRL_REG1 bits 5..7: the data-rate mode. */
  const DR_MODE_OFFSET: bv8 := 5
  const DR_MODE_MASK: bv8 := 0x7 << 5

  /** Value written to CTRL_REG2 at initialisation: automatic magnetic resets on. */
  const AUTO_MRST_EN: bv8 := 0x80
  /** Data-rate bits ORed into CTRL_REG1 at initialisation (0x3 << 5). */
  const DEFAULT_DR_BITS: bv8 := 0x3 << 5

  /** The active flag of a CTRL_REG1 value as `enable` shows it: 0 or 1. */
  function ActiveFlag(r: bv8): (v: int)
    ensures v == 0 || v == 1
    ensures v == 1 <==> r & AC_MASK != 0
  {
    (r & AC_MASK) as int
  }

  /** Bit 0 is the parity of the register value. */
  lemma ActiveFlagIsParity(r: bv8)
    ensures ActiveFlag(r) == r as int % 2
  {
  }

  /** The data-rate mode of a CTRL_REG1 value as `dr_mode` shows it. */
  function DataRateMode(r: bv8): (m: int)
    ensures 0 <= m <= 7
  {
    ((r & DR_MODE_MASK) >> DR_MODE_OFFSET) as int
  }

  /** Bits 5..7 are the register value divided by 32. */
  lemma DataRateModeIsHighBits(r: bv8)
    ensures DataRateMode(r) == r as int / 32
  {
  }

  /** CTRL_REG1 with bit 0 set when `enable` holds and cleared otherwise. */
  function SetActive(r: bv8, enable: bool): (r': bv8)
    ensures ActiveFlag(r') == if enable then 1 else 0
    ensures r' & !AC_MASK == r & !AC_MASK
    ensures DataRateMode(r') == DataRateMode(r)
  {
    if enable then r | AC_MASK else r & !AC_MASK
  }

  /** CTRL_REG1 with bits 5..7 replaced by the three-bit mode `val`. */
  function SetDataRateMode(r: bv8, val: nat): (r': bv8)
    requires val <= 7
    ensures DataRateMode(r') == val
    ensures r' & !DR_MODE_MASK == r & !DR_MODE_MASK
    ensures ActiveFlag(r') == ActiveFlag(r)
  {
    (r & !DR_MODE_MASK) | ((val as bv8) << DR_MODE_OFFSET)
  }

  /** CTRL_REG1 with the default data-rate bits 5 and 6 ORed in. */
  function WithDefaultRate(r: bv8): (r': bv8)
    ensures r' & DEFAULT_DR_BITS == DEFAULT_DR_BITS
    ensures r' & !DEFAULT_DR_BITS == r & !DEFAULT_DR_BITS
    ensures ActiveFlag(r') == ActiveFlag(r)
  {
    r | DEFAULT_DR_BITS
  }

  /** The default-rate OR leaves mode 3 only when bit 7 was clear; otherwise
      the mode becomes 7. */
  lemma DefaultRateMode(r: bv8)
    ensures DataRateMode(WithDefaultRate(r)) == if r & 0x80 == 0 then 3 else 7
  {
  }

  /** Standby followed by restoring the value it was computed from gives back
      every bit, and the standby value differs from it only in bit 0. */
  lemma StandbyKeepsAllButActive(r: bv8)
    ensures ActiveFlag(SetActive(r, false)) == 0
    ensures SetActive(r, false) == r <==> ActiveFlag(r) == 0
    ensures SetActive(SetActive(r, false), ActiveFlag(r) == 1) == r
  {
  }

  /** Storing back the active flag or the data-rate mode a register already
      has leaves it unchanged. */
  lemma RestoreSameValue(r: bv8)
    ensures SetActive(r, ActiveFlag(r) == 1) == r
    ensures SetDataRateMode(r, DataRateMode(r)) == r
  {
  }

  /** A sample of the three axes, each a signed 16-bit value. */
  datatype Sample = Sample(x: int, y: int, z: int)

  predicate IsShort(v: int) {
    -0x8000 <= v < 0x8000
  }

  predicate IsShortSample(s: Sample) {
    IsShort(s.x) && IsShort(s.y) && IsShort(s.z)
  }

  /** Two's-complement reading of a 16-bit unsigned quantity: what storing
      it into a C `short` gives. */
  function Signed16(u: int): (v: int)
    requires 0 <= u < 0x10000
    ensures IsShort(v)
    ensures v == u || v == u - 0x10000
    ensures v < 0 <==> u >= 0x8000
  {
    if u < 0x8000 then u else u - 0x10000
  }

  /** ((msb << 8) & 0xff00) | lsb, the pair composed big-endian in a 16-bit word. */
  function Compose(msb: bv8, lsb: bv8): bv16
  {
    (((msb as bv16) << 8) & 0xff00) | lsb as bv16
  }

  /** The composed word is msb * 256 + lsb: the shifted MSB and the LSB
      occupy disjoint bits, so the OR adds them. */
  lemma ComposeValue(msb: bv8, lsb: bv8)
    ensures Compose(msb, lsb) as int == msb as int * 256 + lsb as int
  {
    var hi := (msb as bv16) << 8;
    assert hi & 0xff00 == hi;
    assert hi & 0xff == 0;
    ShiftedByteValue(msb);
    DisjointOrValue(hi, lsb);
  }

  lemma ShiftedByteValue(x: bv8)
    ensures ((x as bv16) << 8) as int == x as int * 256
  {
  }

  lemma DisjointOrValue(hi: bv16, lo: bv8)
    requires hi & 0xff == 0
    ensures (hi | lo as bv16) as int == hi as int + lo as int
  {
  }

  /** One axis: the MSB/LSB pair read big-endian as a signed 16-bit value. */
  function Axis(msb: bv8, lsb: bv8): (v: int)
    ensures IsShort(v)
  {
    Signed16(msb as int * 256 + lsb as int)
  }

  /** The driver's own expression for an axis, `((msb << 8) & 0xff00) | lsb`
      stored into a `short`, is that value. */
  lemma AxisIsDriverExpression(msb: bv8, lsb: bv8)
    ensures Signed16(Compose(msb, lsb) as int) == Axis(msb, lsb)
  {
    ComposeValue(msb, lsb);
  }

  /** The three axes of a six-byte block [x_msb, x_lsb, y_msb, y_lsb, z_msb, z_lsb]. */
  function Decode(b: seq<bv8>): (s: Sample)
    requires |b| == XYZ_DATA_LEN
    ensures IsShortSample(s)
  {
    Sample(Axis(b[0], b[1]), Axis(b[2], b[3]), Axis(b[4], b[5]))
  }

  /** Decoding gives, axis by axis, what the driver computes from the block. */
  lemma DecodeIsDriverExpression(b: seq<bv8>)
    requires |b| == XYZ_DATA_LEN
    ensures Decode(b) == Sample(Signed16(Compose(b[0], b[1]) as int),
                                Signed16(Compose(b[2], b[3]) as int),
                                Signed16(Compose(b[4], b[5]) as int))
  {
    AxisIsDriverExpression(b[0], b[1]);
    AxisIsDriverExpression(b[2], b[3]);
    AxisIsDriverExpression(b[4], b[5]);
  }

  /** The big-endian byte pair of a signed 16-bit value (the chip's encoding). */
  function EncodeShort(v: int): (p: seq<bv8>)
    requires IsShort(v)
    ensures |p| == 2
  {
    var u := if v < 0 then v + 0x10000 else v;
    [(u / 256) as bv8, (u % 256) as bv8]
  }

  /** The six-byte block the chip holds for a sample. */
  function Encode(s: Sample): (b: seq<bv8>)
    requires IsShortSample(s)
    ensures |b| == XYZ_DATA_LEN
  {
    EncodeShort(s.x) + EncodeShort(s.y) + EncodeShort(s.z)
  }

  lemma EncodeShortValue(v: int)
    requires IsShort(v)
    ensures Axis(EncodeShort(v)[0], EncodeShort(v)[1]) == v
  {
    var u := if v < 0 then v + 0x10000 else v;
    SplitWord(u);
    var hi, lo := u / 256, u % 256;
    var p := EncodeShort(v);
    assert p[0] == hi as bv8 && p[1] == lo as bv8;
    PairValue(hi, lo);
    AxisOfBytes(p[0], p[1], u);
  }

  lemma AxisOfBytes(msb: bv8, lsb: bv8, u: int)
    requires msb as int * 256 + lsb as int == u
    ensures Axis(msb, lsb) == Signed16(u)
  {
  }

  lemma SplitWord(u: int)
    requires 0 <= u < 0x10000
    ensures 0 <= u / 256 < 256 && 0 <= u % 256 < 256
    ensures u == u / 256 * 256 + u % 256
  {
  }

  lemma PairValue(hi: int, lo: int)
    requires 0 <= hi < 256 && 0 <= lo < 256
    ensures (hi as bv8) as int * 256 + (lo as bv8) as int == hi * 256 + lo
  {
    ByteOfSmallInt(hi);
    ByteOfSmallInt(lo);
  }

  lemma ShortOfPair(hi: bv8, lo: bv8)
    ensures IsShort(Axis(hi, lo)) && EncodeShort(Axis(hi, lo)) == [hi, lo]
  {
    var a, b := hi as int, lo as int;
    EncodeSigned(a * 256 + b);
    PairDigits(a, b);
    ByteRoundTrip(hi);
    ByteRoundTrip(lo);
  }

  lemma EncodeSigned(u: int)
    requires 0 <= u < 0x10000
    ensures EncodeShort(Signed16(u)) == [(u / 256) as bv8, (u % 256) as bv8]
  {
    var v := Signed16(u);
    assert (if v < 0 then v + 0x10000 else v) == u;
  }

  lemma PairDigits(a: int, b: int)
    requires 0 <= a < 256 && 0 <= b < 256
    ensures (a * 256 + b) / 256 == a && (a * 256 + b) % 256 == b
  {
  }

  lemma ByteRoundTrip(x: bv8)
    ensures (x as int) as bv8 == x
  {
  }

  lemma ByteOfSmallInt(n: int)
    requires 0 <= n < 256
    ensures (n as bv8) as int == n
  {
    assert n % 256 == n;
  }

  /** Decoding inverts the chip's encoding of every signed 16-bit sample. */
  lemma DecodeEncode(s: Sample)
    requires IsShortSample(s)
    ensures Decode(Encode(s)) == s
  {
    var px, py, pz := EncodeShort(s.x), EncodeShort(s.y), EncodeShort(s.z);
    var b := Encode(s);
    assert b[0] == px[0] && b[1] == px[1];
    assert b[2] == py[0] && b[3] == py[1];
    assert b[4] == pz[0] && b[5] == pz[1];
    EncodeShortValue(s.x);
    EncodeShortValue(s.y);
    EncodeShortValue(s.z);
    assert Decode(b) == Sample(Axis(b[0], b[1]), Axis(b[2], b[3]), Axis(b[4], b[5]));
  }

  /** Every six-byte block is the encoding of the sample it decodes to, so the
      decoder loses no information. */
  lemma EncodeDecode(b: seq<bv8>)
    requires |b| == XYZ_DATA_LEN
    ensures Encode(Decode(b)) == b
  {
    var s := Decode(b);
    assert s == Sample(Axis(b[0], b[1]), Axis(b[2], b[3]), Axis(b[4], b[5]));
    ShortOfPair(b[0], b[1]);
    ShortOfPair(b[2], b[3]);
    ShortOfPair(b[4], b[5]);
    assert b == [b[0], b[1]] + [b[2], b[3]] + [b[4], b[5]];
  }
}
