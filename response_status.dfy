/**
 * Correlating a reply frame with the command just sent, and reading its
 * success bits and reason code.
 */
module Responses {
  import opened Wrappers
  import opened Bytes

  datatype ResponseStatus = ResponseStatus(success: bool, reason: string)

  const WrongPacket: string := "Received wrong response packet"
  const UnknownCommand: string := "Unknown command"
  const UnknownError: string := "Unknown error"

  /** The reply answers `sent`: the low six bits of byte 0 and all of byte 1 agree. */
  predicate FrameMatches(response: Buffer, sent: Buffer) {
    At(sent, 0) == Some(Operand(At(response, 0)) & 0x3F) && At(sent, 1) == At(response, 1)
  }

  /** The two status bits on top of byte 0: 0x80 means ok, 0xC0 a device error. */
  function StatusBits(response: Buffer): Byte {
    Operand(At(response, 0)) & 0xC0
  }

  function AsNumber(o: Option<Byte>): Option<int> {
    if o.Some? then Some(o.value as int) else None
  }

  /**
   * The reason code: the single byte 3 when byte 2 is 1, bytes 3 and 4 big-endian
   * when byte 2 is 2 (missing bytes read as 0), and 0 otherwise. `None` is the
   * `undefined` a one-byte code takes from a frame that stops before byte 3.
   */
  function ReasonCode(response: Buffer): Option<int> {
    var kind := At(response, 2);
    if kind == Some(1) then AsNumber(At(response, 3))
    else if kind == Some(2) then Some(Operand(At(response, 3)) as int * 256 + Operand(At(response, 4)) as int)
    else Some(0)
  }

  /** The reason table: 0x20 leaves the reason empty; unlisted codes are unknown errors. */
  function ReasonText(code: Option<int>): string {
    if code == Some(0x20) then ""
    else if code == Some(0x21) then "Brew cancelled"
    else if code == Some(0x2412) then "No capsule inserted"
    else if code == Some(0x2408) then "Tray open"
    else if code == Some(0x3603) then "Command error"
    else UnknownError
  }

  /** The outcome stated declaratively: the reference `Decode` is proved against. */
  function Expected(response: Buffer, sent: Buffer): ResponseStatus {
    if !FrameMatches(response, sent) then ResponseStatus(false, WrongPacket)
    else
      var code := ReasonCode(response);
      ResponseStatus(StatusBits(response) == 0x80 || code == Some(0x20), ReasonText(code))
  }

  /**
   * `new ResponseStatus(response, sent)`: the frame check with its early
   * return, then three switches that overwrite `success`, `code` and
   * `reason` in turn.
   */
  method Decode(response: Buffer, sent: Buffer) returns (r: ResponseStatus)
    ensures r == Expected(response, sent)
  {
    var success := false;
    var reason := "";
    if At(sent, 0) != Some(Operand(At(response, 0)) & 0x3F) || At(sent, 1) != At(response, 1) {
      reason := WrongPacket;
      return ResponseStatus(success, reason);
    }

    assert FrameMatches(response, sent);
    var code: Option<int> := Some(0);

    var bits := Operand(At(response, 0)) & 0xC0;
    if bits == 0xC0 {
      success := false;
    } else if bits == 0x80 {
      success := true;
    } else {
      success := false;
    }
    assert success == (StatusBits(response) == 0x80);

    var kind := At(response, 2);
    if kind == Some(1) {
      code := AsNumber(At(response, 3));
    } else if kind == Some(2) {
      var hi := Operand(At(response, 3));
      var lo := Operand(At(response, 4));
      ShiftOrValue(hi, lo);
      code := Some((((hi as bv16) << 8) | (lo as bv16)) as int);
    } else {
      reason := UnknownCommand;
    }
    assert code == ReasonCode(response);

    if code == Some(0x20) {
      success := true;
    } else if code == Some(0x21) {
      reason := "Brew cancelled";
    } else if code == Some(0x2412) {
      reason := "No capsule inserted";
    } else if code == Some(0x2408) {
      reason := "Tray open";
    } else if code == Some(0x3603) {
      reason := "Command error";
    } else {
      reason := UnknownError;
    }
    r := ResponseStatus(success, reason);
  }

  /** A reply to some other command is rejected before anything else is read. */
  lemma WrongFrameRejected(response: Buffer, sent: Buffer)
    requires !FrameMatches(response, sent)
    ensures Expected(response, sent) == ResponseStatus(false, WrongPacket)
  {
  }

  /** For a matching frame: success iff the status bits say ok or the code is 0x20. */
  lemma SuccessIff(response: Buffer, sent: Buffer)
    requires FrameMatches(response, sent)
    ensures Expected(response, sent).success <==> StatusBits(response) == 0x80 || ReasonCode(response) == Some(0x20)
    ensures ReasonCode(response) != Some(0x20) && StatusBits(response) in {0xC0, 0x40, 0x00} ==> !Expected(response, sent).success
  {
  }

  /** The code is byte 3, or bytes 3..4 big-endian, or 0, according to byte 2. */
  lemma CodeExtraction(response: Buffer)
    requires |response| >= 5
    ensures response[2] == 1 ==> ReasonCode(response) == Some(response[3] as int)
    ensures response[2] == 2 ==> ReasonCode(response) == Some(response[3] as int * 256 + response[4] as int)
    ensures response[2] != 1 && response[2] != 2 ==> ReasonCode(response) == Some(0)
  {
  }

  /** 'Unknown command' is always overwritten; with no length byte 1 or 2 the reason is 'Unknown error'. */
  lemma NeverUnknownCommand(response: Buffer, sent: Buffer)
    ensures Expected(response, sent).reason != UnknownCommand
    ensures FrameMatches(response, sent) && At(response, 2) != Some(1) && At(response, 2) != Some(2)
            ==> Expected(response, sent).reason == UnknownError
  {
  }

  /** Code 0x20 is success whatever the status bits, and leaves the reason empty. */
  lemma OkCode(response: Buffer, sent: Buffer)
    requires FrameMatches(response, sent) && ReasonCode(response) == Some(0x20)
    ensures Expected(response, sent) == ResponseStatus(true, "")
  {
  }

  /** The four known error codes name a reason but leave success as the status bits gave it. */
  lemma KnownErrorCodes(response: Buffer, sent: Buffer)
    requires FrameMatches(response, sent)
    requires ReasonCode(response) in {Some(0x21), Some(0x2412), Some(0x2408), Some(0x3603)}
    ensures Expected(response, sent).success == (StatusBits(response) == 0x80)
    ensures ReasonCode(response) == Some(0x21) ==> Expected(response, sent).reason == "Brew cancelled"
    ensures ReasonCode(response) == Some(0x2412) ==> Expected(response, sent).reason == "No capsule inserted"
    ensures ReasonCode(response) == Some(0x2408) ==> Expected(response, sent).reason == "Tray open"
    ensures ReasonCode(response) == Some(0x3603) ==> Expected(response, sent).reason == "Command error"
  {
  }

  /** Concrete frames against the cancel command's header `03 06`. */
  lemma Examples()
    // 0x80 & 0x3F is 0, not 3: this reply belongs to another command.
    ensures Expected([0x80, 0x06, 0x02, 0x24, 0x12], [0x03, 0x06]) == ResponseStatus(false, WrongPacket)
    // Ok bits with the no-capsule code: the code names the reason but success stays.
    ensures Expected([0x83, 0x06, 0x02, 0x24, 0x12], [0x03, 0x06]) == ResponseStatus(true, "No capsule inserted")
    ensures Expected([0xC3, 0x06, 0x01, 0x20], [0x03, 0x06]) == ResponseStatus(true, "")
    ensures Expected([0xC3, 0x06, 0x01, 0x21], [0x03, 0x06]) == ResponseStatus(false, "Brew cancelled")
    ensures Expected([0x83, 0x06, 0x00], [0x03, 0x06]) == ResponseStatus(true, UnknownError)
  {
  }
}
