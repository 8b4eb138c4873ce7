/**
 * Node.js buffers as the decoders see them: a sequence of octets, where
 * reading past the end yields `undefined` rather than failing.
 */
module Bytes {
  import opened Wrappers

  type Byte = bv8

  type Buffer = seq<Byte>

  /** `buffer[i]`: the octet at `i`, or `undefined` (`None`) past the end. */
  function At(b: Buffer, i: nat): (r: Option<Byte>)
    ensures r.Some? <==> i < |b|
    ensures i < |b| ==> r.value == b[i]
  {
    if i < |b| then Some(b[i]) else None
  }

  /** The value a JavaScript bitwise operator takes from `buffer[i]`: `undefined` counts as 0. */
  function Operand(o: Option<Byte>): (r: Byte)
    ensures o.Some? ==> r == o.value
    ensures o.None? ==> r == 0
  {
    if o.Some? then o.value else 0
  }

  /** `(hi << 8) | lo` on two octets is the big-endian 16-bit value. */
  lemma ShiftOrValue(hi: Byte, lo: Byte)
    ensures (((hi as bv16) << 8) | (lo as bv16)) as int == hi as int * 256 + lo as int
  {
  }

  /** The octet of a value below 16, picked from the sixteen literals. */
  function Nibble(d: nat): (b: Byte)
    requires d < 16
    ensures b as int == d
  {
    if d < 8 then
      if d < 4 then (if d == 0 then 0 else if d == 1 then 1 else if d == 2 then 2 else 3)
      else (if d == 4 then 4 else if d == 5 then 5 else if d == 6 then 6 else 7)
    else
      if d < 12 then (if d == 8 then 8 else if d == 9 then 9 else if d == 10 then 10 else 11)
      else (if d == 12 then 12 else if d == 13 then 13 else if d == 14 then 14 else 15)
  }

  /** Two nibbles side by side are the octet `16 * hi + lo`. */
  lemma NibblesValue(hi: Byte, lo: Byte)
    requires hi as int < 16 && lo as int < 16
    ensures ((hi << 4) | lo) as int == hi as int * 16 + lo as int
  {
  }

  /** The octet with numeric value `x`, built from its two nibbles. */
  function OfNat(x: nat): (b: Byte)
    requires x < 256
    ensures b as int == x
  {
    var hi := Nibble(x / 16);
    var lo := Nibble(x % 16);
    NibblesValue(hi, lo);
    (hi << 4) | lo
  }

  /** A byte is determined by its numeric value. */
  lemma ValueInjective(x: Byte, y: Byte)
    requires x as int == y as int
    ensures x == y
  {
    assert x == (x as int) as Byte;
  }
}
