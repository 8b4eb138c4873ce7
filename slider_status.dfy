/** The slider frame: whether the capsule slider is closed. */
module SliderStatuses {
  import opened Wrappers
  import opened Bytes

  datatype SliderStatus = SliderStatus(closed: bool)

  /** `new SliderStatus(buffer)`: `buffer[0] === 0x02`; an empty buffer gives undefined, which is not 0x02. */
  function Decode(buffer: Buffer): (r: SliderStatus)
    ensures r.closed <==> |buffer| > 0 && buffer[0] == 0x02
  {
    SliderStatus(At(buffer, 0) == Some(0x02))
  }

  /** Only byte 0 is read. */
  lemma OnlyFirstByte(b: Byte, rest1: Buffer, rest2: Buffer)
    ensures Decode([b] + rest1) == Decode([b] + rest2)
  {
  }

  lemma OpenValues()
    ensures !Decode([0x00]).closed && !Decode([0x01]).closed
    ensures !Decode([0x03]).closed && !Decode([0xFF]).closed
    ensures !Decode([]).closed
    ensures Decode([0x02, 0x00]).closed
  {
  }

  /** `toString`. */
  function ToString(s: SliderStatus): (r: string)
    ensures r == "Slider:closed" <==> s.closed
    ensures r == "Slider:open" <==> !s.closed
  {
    "Slider:" + (if s.closed then "closed" else "open")
  }
}
