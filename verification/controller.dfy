/**
 * The Daydream controller report and its decoder.
 *
 * A report is one BLE notification value. Only a 20-byte report is
 * accepted; the touchpad position and the button flags live in bytes 16,
 * 17 and 18. All extraction is on unsigned 8-bit values, where a left
 * shift drops the bits pushed past bit 7.
 */
module Controller {
  import opened Optional

  /** Length of the only report layout the decoder accepts. */
  const ReportLength: nat := 20

  /** One decoded instant of controller state (`DaydreamControllerData`). */
  datatype Snapshot = Snapshot(
    touchpadX: bv8,
    touchpadY: bv8,
    app: bool,
    home: bool,
    volUp: bool,
    volDown: bool,
    touchClick: bool,
    // Reverse-engineered heuristic: contact is assumed whenever byte 17 is non-zero.
    touchDown: bool)

  /** The derived `Default`: both coordinates zero, every flag false. */
  const Initial := Snapshot(0, 0, false, false, false, false, false, false)

  /** Bit `k` (0 = least significant) of `b`, by arithmetic rather than by mask. */
  predicate Bit(b: bv8, k: nat)
    requires k < 8
  {
    ((b as int) / Pow2(k)) % 2 == 1
  }

  function Pow2(k: nat): (r: nat)
    requires k < 8
  {
    match k
    case 0 => 1 case 1 => 2 case 2 => 4 case 3 => 8
    case 4 => 16 case 5 => 32 case 6 => 64 case _ => 128
  }

  /**
   * A coordinate built from `hi << 3` and the top three bits of `lo` is, as
   * a number, `hi * 8` reduced mod 256 plus `lo / 32`. Both masks the
   * decoder uses keep all three bits that survive `lo >> 5`.
   */
  lemma CoordinateBits(hi: bv8, lo: bv8)
    ensures ((hi << 3) | ((lo >> 5) & 0x1F)) as int == (hi as int * 8) % 256 + lo as int / 32
    ensures ((hi << 3) | ((lo >> 5) & 0x07)) as int == (hi as int * 8) % 256 + lo as int / 32
  {
    assert (hi << 3) as int == (hi as int * 8) % 256;
    assert (lo >> 5) as int == lo as int / 32;
  }

  /** Masking with a single-bit constant tests that bit of the byte. */
  lemma FlagBits(b: bv8)
    ensures ((b & 0x01) != 0) <==> Bit(b, 0)
    ensures ((b & 0x02) != 0) <==> Bit(b, 1)
    ensures ((b & 0x04) != 0) <==> Bit(b, 2)
    ensures ((b & 0x08) != 0) <==> Bit(b, 3)
    ensures ((b & 0x10) != 0) <==> Bit(b, 4)
  {
    MaskBit0(b);
    MaskBit1(b);
    MaskBit2(b);
    MaskBit3(b);
    MaskBit4(b);
  }

  // One lemma per mask: the solver handles each alone but not all at once.
  lemma MaskBit0(b: bv8) ensures ((b & 0x01) != 0) <==> (b as int) % 2 == 1 {}
  lemma MaskBit1(b: bv8) ensures ((b & 0x02) != 0) <==> (b as int / 2) % 2 == 1 {}
  lemma MaskBit2(b: bv8) ensures ((b & 0x04) != 0) <==> (b as int / 4) % 2 == 1 {}
  lemma MaskBit3(b: bv8) ensures ((b & 0x08) != 0) <==> (b as int / 8) % 2 == 1 {}
  lemma MaskBit4(b: bv8) ensures ((b & 0x10) != 0) <==> (b as int / 16) % 2 == 1 {}

  /**
   * Decodes a report. Any length but 20 is rejected; otherwise each
   * coordinate is the low five bits of one byte followed by the top three
   * bits of the next, and the flags are bits 0..4 of byte 18.
   */
  function Decode(data: seq<bv8>): (r: Option<Snapshot>)
    ensures r.None? <==> |data| != ReportLength
    ensures r.Some? ==>
      && r.value.touchpadX as int == (data[16] as int * 8) % 256 + data[17] as int / 32
      && r.value.touchpadY as int == (data[17] as int * 8) % 256 + data[18] as int / 32
    ensures r.Some? ==>
      && (r.value.touchClick <==> Bit(data[18], 0))
      && (r.value.home <==> Bit(data[18], 1))
      && (r.value.app <==> Bit(data[18], 2))
      && (r.value.volDown <==> Bit(data[18], 3))
      && (r.value.volUp <==> Bit(data[18], 4))
      && (r.value.touchDown <==> data[17] != 0)
  {
    if |data| != ReportLength then None
    else
      var b16, b17, b18 := data[16], data[17], data[18];
      CoordinateBits(b16, b17);
      CoordinateBits(b17, b18);
      FlagBits(b18);
      Some(Snapshot(
        touchpadX := (b16 << 3) | ((b17 >> 5) & 0x1F),
        touchpadY := (b17 << 3) | ((b18 >> 5) & 0x07),
        app := (b18 & 0x04) != 0,
        home := (b18 & 0x02) != 0,
        volUp := (b18 & 0x10) != 0,
        volDown := (b18 & 0x08) != 0,
        touchClick := (b18 & 0x01) != 0,
        touchDown := b17 != 0))
  }

  /** Every flag of `Initial` is clear. */
  lemma InitialHasNoFlags()
    ensures !Initial.touchDown && !Initial.touchClick && !Initial.app
    ensures !Initial.home && !Initial.volUp && !Initial.volDown
  {
  }

  /** Decoding reads nothing but bytes 16, 17 and 18 of a 20-byte report. */
  lemma DecodeReadsOnlyTouchBytes(a: seq<bv8>, b: seq<bv8>)
    requires |a| == ReportLength && |b| == ReportLength
    requires a[16] == b[16] && a[17] == b[17] && a[18] == b[18]
    ensures Decode(a) == Decode(b)
  {
  }

  /** The low three bits of each coordinate are the top three bits of the following byte. */
  lemma CoordinateLowBits(data: seq<bv8>)
    requires |data| == ReportLength
    ensures Decode(data).value.touchpadX as int % 8 == data[17] as int / 32
    ensures Decode(data).value.touchpadY as int % 8 == data[18] as int / 32
  {
    LowBitsOfJoin(data[16] as int, data[17] as int);
    LowBitsOfJoin(data[17] as int, data[18] as int);
  }

  lemma LowBitsOfJoin(hi: int, lo: int)
    requires 0 <= hi < 256 && 0 <= lo < 256
    ensures ((hi * 8) % 256 + lo / 32) % 8 == lo / 32
  {
    var q := hi / 32;
    assert hi * 8 == 256 * q + 8 * (hi % 32);
    assert (hi * 8) % 256 == 8 * (hi % 32);
  }

  /** A report whose byte 18 is 0b00000101 presses exactly App and the touchpad click. */
  lemma AppAndClickExample(data: seq<bv8>)
    requires |data| == ReportLength && data[18] == 0x05
    ensures Decode(data).value.app && Decode(data).value.touchClick
    ensures !Decode(data).value.home && !Decode(data).value.volUp && !Decode(data).value.volDown
  {
  }

  /**
   * The touch heuristic as a property of a snapshot: contact is reported
   * exactly when the byte that carries the top five bits of y and the low
   * three bits of x is non-zero.
   */
  predicate Consistent(s: Snapshot) {
    s.touchDown <==> ((s.touchpadX & 0x07) != 0 || (s.touchpadY >> 3) != 0)
  }

  function FlagByte(s: Snapshot): bv8 {
    (if s.touchClick then 0x01 else 0)
    | (if s.home then 0x02 else 0)
    | (if s.app then 0x04 else 0)
    | (if s.volDown then 0x08 else 0)
    | (if s.volUp then 0x10 else 0)
  }

  /**
   * A report that decodes to `s`: the inverse of `Decode` on consistent
   * snapshots. Bytes outside 16..18 and the top three bits of byte 16 are
   * never read, so they are zero here.
   */
  function Encode(s: Snapshot): (r: seq<bv8>)
    ensures |r| == ReportLength
  {
    var b16 := s.touchpadX >> 3;
    var b17 := ((s.touchpadX & 0x07) << 5) | (s.touchpadY >> 3);
    var b18 := ((s.touchpadY & 0x07) << 5) | FlagByte(s);
    seq(16, _ => 0 as bv8) + [b16, b17, b18, 0]
  }

  /** Every snapshot the decoder produces obeys the touch heuristic. */
  lemma DecodedIsConsistent(data: seq<bv8>)
    requires |data| == ReportLength
    ensures Consistent(Decode(data).value)
  {
  }

  /** Encoding a consistent snapshot and decoding the report gives the snapshot back. */
  lemma DecodeEncode(s: Snapshot)
    requires Consistent(s)
    ensures Decode(Encode(s)) == Some(s)
  {
  }

  /**
   * Re-encoding a decoded report restores bytes 17 and 18 exactly and byte
   * 16 except its top three bits, which `<< 3` on a `u8` discards.
   */
  lemma EncodeDecode(data: seq<bv8>)
    requires |data| == ReportLength
    ensures Encode(Decode(data).value)[16] == data[16] & 0x1F
    ensures Encode(Decode(data).value)[17] == data[17]
    ensures Encode(Decode(data).value)[18] == data[18]
  {
  }
}
