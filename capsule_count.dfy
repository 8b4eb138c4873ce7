/**
 * The capsule counter frame: a signed big-endian 16-bit count of the
 * capsules left, with an `enabled` flag meant to tell a disabled counter.
 */
module CapsuleCounts {
  import opened Wrappers
  import opened Bytes
  import opened Strings

  datatype CapsuleCount = CapsuleCount(enabled: bool, capsulesLeft: int)

  /** `readInt16BE`: bytes `hi`, `lo` read as a two's complement 16-bit integer. */
  function Int16BE(hi: Byte, lo: Byte): (v: int)
    ensures -0x8000 <= v < 0x8000
    ensures (v + 0x10000) % 0x10000 == Uint16BE(hi, lo)
    ensures v < 0 <==> hi as int >= 0x80
  {
    var u := Uint16BE(hi, lo);
    HighBit(hi, lo);
    if u >= 0x8000 then u - 0x10000 else u
  }

  /** `readUInt16BE`: the same two bytes read unsigned. */
  function Uint16BE(hi: Byte, lo: Byte): (u: nat)
    ensures u < 0x10000
  {
    hi as int * 256 + lo as int
  }

  lemma HighBit(hi: Byte, lo: Byte)
    ensures Uint16BE(hi, lo) >= 0x8000 <==> hi as int >= 0x80
  {
    var h, l := hi as int, lo as int;
    assert 0 <= h < 256 && 0 <= l < 256;
    if h >= 0x80 {
      assert h * 256 >= 0x80 * 256;
    } else {
      assert h * 256 <= 0x7F * 256;
    }
  }

  /** Distinct byte pairs read as distinct counts. */
  lemma {:induction false} Int16BEInjective(h1: Byte, l1: Byte, h2: Byte, l2: Byte)
    ensures Int16BE(h1, l1) == Int16BE(h2, l2) ==> h1 == h2 && l1 == l2
  {
    if Int16BE(h1, l1) == Int16BE(h2, l2) {
      Uint16BEInjective(h1, l1, h2, l2);
    }
  }

  lemma {:induction false} Uint16BEInjective(h1: Byte, l1: Byte, h2: Byte, l2: Byte)
    requires Uint16BE(h1, l1) == Uint16BE(h2, l2)
    ensures h1 == h2 && l1 == l2
  {
    PairInjective(h1 as int, l1 as int, h2 as int, l2 as int);
    ValueInjective(h1, h2);
    ValueInjective(l1, l2);
  }

  lemma PairInjective(a: int, b: int, c: int, d: int)
    requires 0 <= b < 256 && 0 <= d < 256
    requires a * 256 + b == c * 256 + d
    ensures a == c && b == d
  {
  }

  /**
   * `new CapsuleCount(buffer)` as written: `enabled` compares the byte
   * `buffer[0]` (undefined when the buffer is empty) with 0xffff, and the
   * count is read with `readInt16BE(0)`, which fails on a buffer of fewer
   * than two bytes.
   */
  function DecodeAsWritten(buffer: Buffer): (r: Option<CapsuleCount>)
    ensures r.None? <==> |buffer| < 2
    ensures r.Some? ==> r.value.capsulesLeft == Int16BE(buffer[0], buffer[1])
  {
    var count := At(buffer, 0);
    var enabled := !(count.Some? && count.value as int == 0xFFFF);
    if enabled then
      if |buffer| < 2 then None else Some(CapsuleCount(true, Int16BE(buffer[0], buffer[1])))
    else
      Some(CapsuleCount(false, 0))
  }

  /** A byte never equals 0xffff, so the counter always reads as enabled. */
  lemma AlwaysEnabled(buffer: Buffer)
    requires |buffer| >= 2
    ensures DecodeAsWritten(buffer).value.enabled
  {
  }

  /** The counter's "disabled" pattern FF FF reads as enabled with -1 capsules. */
  lemma DisabledPatternMisread()
    ensures DecodeAsWritten([0xFF, 0xFF]) == Some(CapsuleCount(true, -1))
    ensures Decode([0xFF, 0xFF]) == Some(CapsuleCount(false, 0))
  {
  }

  /**
   * The decoder the check on 0xffff evidently intends: the two bytes read
   * unsigned are compared with 0xffff, and a disabled counter reports 0.
   */
  function Decode(buffer: Buffer): (r: Option<CapsuleCount>)
    ensures r.None? <==> |buffer| < 2
    ensures r.Some? ==> (!r.value.enabled <==> buffer[0] == 0xFF && buffer[1] == 0xFF)
    ensures r.Some? ==> r.value.capsulesLeft == if r.value.enabled then Int16BE(buffer[0], buffer[1]) else 0
  {
    if |buffer| < 2 then None
    else
      var raw := buffer[0] as int * 256 + buffer[1] as int;
      if raw == 0xFFFF then Some(CapsuleCount(false, 0))
      else Some(CapsuleCount(true, Int16BE(buffer[0], buffer[1])))
  }

  /** The two decoders differ only on the FF FF pattern. */
  lemma DecodersAgree(buffer: Buffer)
    requires !(|buffer| >= 2 && buffer[0] == 0xFF && buffer[1] == 0xFF)
    ensures Decode(buffer) == DecodeAsWritten(buffer)
  {
  }

  /** Every enabled count is in the signed 16-bit range and is not -1. */
  lemma EnabledRange(buffer: Buffer)
    requires Decode(buffer).Some? && Decode(buffer).value.enabled
    ensures -0x8000 <= Decode(buffer).value.capsulesLeft < 0x8000
    ensures Decode(buffer).value.capsulesLeft != -1
  {
  }

  /** Only the first two bytes are read. */
  lemma TrailingBytesIgnored(buffer: Buffer, extra: Buffer)
    requires |buffer| >= 2
    ensures Decode(buffer + extra) == Decode(buffer)
    ensures DecodeAsWritten(buffer + extra) == DecodeAsWritten(buffer)
  {
  }

  lemma Examples()
    ensures Decode([0x00, 0x05]) == Some(CapsuleCount(true, 5))
    ensures Decode([0x01, 0x00, 0x07]) == Some(CapsuleCount(true, 256))
    ensures Decode([0x80, 0x00]) == Some(CapsuleCount(true, -0x8000))
    ensures Decode([0x05]) == None
  {
  }

  const Prefix := "Capsule counter:"
  const Infix := " capsules left:"

  /** `toString`: the counter state and the count in decimal. */
  function ToString(c: CapsuleCount): (s: string)
    ensures var state := if c.enabled then "enabled" else "disabled";
      |s| == |Prefix| + |state| + |Infix| + |IntToString(c.capsulesLeft)|
      && s[..|Prefix|] == Prefix
      && s[|Prefix|..|Prefix| + |state|] == state
      && s[|Prefix| + |state|..|Prefix| + |state| + |Infix|] == Infix
      && s[|Prefix| + |state| + |Infix|..] == IntToString(c.capsulesLeft)
  {
    Prefix + (if c.enabled then "enabled" else "disabled") + Infix + IntToString(c.capsulesLeft)
  }

  /** Distinct counters print differently. */
  lemma {:induction false} ToStringInjective(a: CapsuleCount, b: CapsuleCount)
    ensures ToString(a) == ToString(b) ==> a == b
  {
    if ToString(a) == ToString(b) {
      IntToStringInjective(a.capsulesLeft, b.capsulesLeft);
    }
  }
}
