/**
 * The two-byte machine status frame: byte 0 carries machine-level flags,
 * byte 1 brew-level flags; decoding builds a status message, an error
 * message and an overall brew status.
 */
module MachineStatuses {
  import opened Wrappers
  import opened Bytes
  import opened Strings

  /** `BrewStatus`; its numeric values are what `toString` prints. */
  datatype BrewStatus = Unknown | Ready | Busy | Error {
    function Value(): (v: nat)
      ensures v <= 3
    {
      match this
      case Unknown => 0
      case Ready => 1
      case Busy => 2
      case Error => 3
    }
  }

  datatype MachineStatus = MachineStatus(status: BrewStatus, statusMessage: string, errorMessage: string)

  // The texts the decoder appends.
  const JammedText: string := "Capsule mechanism jammed"
  const EmptyAndJammedText: string := "water empty + jammed"
  const SensorFullText: string := "Tray open/sensor full"
  const SleepingText: string := "Device is sleeping"
  const BrewingText: string := "Brewing..."
  const PumpingText: string := "Pumping..."
  const LowWaterText: string := "Low water"
  const NoWaterText: string := "no water "
  const WaterEmptyText: string := "water empty"
  const TrayOpenText: string := "Tray open"
  const OkText: string := "Ok"

  /** The texts joined in order. */
  function Concat(pieces: seq<string>): string {
    if pieces == [] then "" else Concat(pieces[..|pieces| - 1]) + pieces[|pieces| - 1]
  }

  /** `s` with `t` appended when `c` holds: one guarded `+=` of the decoder. */
  function Append(s: string, c: bool, t: string): string
  {
    if c then s + t else s
  }

  /** The list of texts with `t` added when `c` holds. */
  function Add(ps: seq<string>, c: bool, t: string): seq<string> {
    if c then ps + [t] else ps
  }

  lemma AddAppend(ps: seq<string>, c: bool, t: string)
    ensures Concat(Add(ps, c, t)) == Append(Concat(ps), c, t)
  {
    if c {
      assert (ps + [t])[..|ps|] == ps;
    }
  }

  /** The second water text, chosen by bits 0x11 of byte 0; empty when neither is set. */
  function WaterText(b0: Byte): (w: string)
    ensures w != "" <==> b0 & 0x11 != 0
  {
    var w := b0 & 0x11;
    if w == 0x01 then WaterEmptyText
    else if w == 0x10 then JammedText
    else if w == 0x11 then EmptyAndJammedText
    else ""
  }

  /** The error string built from the five error conditions, in the order the decoder appends them. */
  function ErrorText(noWater: bool, water: string, trayOpen: bool, sensorFull: bool, lowWater: bool): string {
    var e := Append("", noWater, NoWaterText);
    var e := Append(e, water != "", water);
    var e := Append(e, trayOpen, TrayOpenText);
    var e := Append(e, sensorFull, SensorFullText);
    Append(e, lowWater, LowWaterText)
  }

  /** The same error conditions as a list of the texts they raise. */
  function ErrorPieces(noWater: bool, water: string, trayOpen: bool, sensorFull: bool, lowWater: bool): seq<string> {
    var e := Add([], noWater, NoWaterText);
    var e := Add(e, water != "", water);
    var e := Add(e, trayOpen, TrayOpenText);
    var e := Add(e, sensorFull, SensorFullText);
    Add(e, lowWater, LowWaterText)
  }

  /** The status string built from the four status conditions, in the order the decoder appends them. */
  function MessageText(brewing: bool, pumping: bool, sleeping: bool, ok: bool): string {
    var m := Append("", brewing, BrewingText);
    var m := Append(m, pumping, PumpingText);
    var m := Append(m, sleeping, SleepingText);
    Append(m, ok, OkText)
  }

  function MessagePieces(brewing: bool, pumping: bool, sleeping: bool, ok: bool): seq<string> {
    var m := Add([], brewing, BrewingText);
    var m := Add(m, pumping, PumpingText);
    var m := Add(m, sleeping, SleepingText);
    Add(m, ok, OkText)
  }

  /** The error string is the error texts joined, in order. */
  lemma {:induction false} ErrorTextIsPieces(noWater: bool, water: string, trayOpen: bool, sensorFull: bool, lowWater: bool)
    ensures ErrorText(noWater, water, trayOpen, sensorFull, lowWater)
      == Concat(ErrorPieces(noWater, water, trayOpen, sensorFull, lowWater))
  {
    var e0 := Add([], noWater, NoWaterText);
    AddAppend([], noWater, NoWaterText);
    var e1 := Add(e0, water != "", water);
    AddAppend(e0, water != "", water);
    var e2 := Add(e1, trayOpen, TrayOpenText);
    AddAppend(e1, trayOpen, TrayOpenText);
    var e3 := Add(e2, sensorFull, SensorFullText);
    AddAppend(e2, sensorFull, SensorFullText);
    AddAppend(e3, lowWater, LowWaterText);
  }

  /** The status string is the status texts joined, in order. */
  lemma {:induction false} MessageTextIsPieces(brewing: bool, pumping: bool, sleeping: bool, ok: bool)
    ensures MessageText(brewing, pumping, sleeping, ok) == Concat(MessagePieces(brewing, pumping, sleeping, ok))
  {
    var m0 := Add([], brewing, BrewingText);
    AddAppend([], brewing, BrewingText);
    var m1 := Add(m0, pumping, PumpingText);
    AddAppend(m0, pumping, PumpingText);
    var m2 := Add(m1, sleeping, SleepingText);
    AddAppend(m1, sleeping, SleepingText);
    AddAppend(m2, ok, OkText);
  }

  /** The error texts a frame raises. */
  function FrameErrors(b0: Byte, b1: Byte): seq<string> {
    ErrorPieces(b0 & 0x01 != 0, WaterText(b0), b0 & 0x04 != 0, b1 & 0x40 != 0, b1 & 0x09 == 0x01)
  }

  /** The status texts a frame raises. */
  function FrameMessages(b1: Byte): seq<string> {
    MessagePieces(b1 & 0x84 == 0x84, b1 & 0x84 == 0x04, b1 & 0x09 == 0x09, b1 & 0x02 != 0)
  }

  function FrameErrorText(b0: Byte, b1: Byte): string {
    ErrorText(b0 & 0x01 != 0, WaterText(b0), b0 & 0x04 != 0, b1 & 0x40 != 0, b1 & 0x09 == 0x01)
  }

  function FrameMessageText(b1: Byte): string {
    MessageText(b1 & 0x84 == 0x84, b1 & 0x84 == 0x04, b1 & 0x09 == 0x09, b1 & 0x02 != 0)
  }

  /** The decoded status stated declaratively: the reference `Decode` is proved against. */
  function Expected(buffer: Buffer): MachineStatus {
    FrameStatus(Operand(At(buffer, 0)), Operand(At(buffer, 1)))
  }

  /** The status of a frame whose two bytes are `b0` and `b1`. */
  function FrameStatus(b0: Byte, b1: Byte): MachineStatus {
    var error := FrameErrorText(b0, b1);
    var status := if |error| > 0 then Error else if b1 & 0x04 != 0 then Busy else Ready;
    MachineStatus(status, FrameMessageText(b1), error)
  }

  /**
   * `new MachineStatus(buffer)`: starts Ready, appends to the local `error`
   * and `message` strings flag by flag, sets Busy while the pump runs, and
   * ends in Error when any error text was appended. A missing byte reads as
   * 0 under the bitwise operators. The two strings never depend on each
   * other, so the appends to each are compiled in their own method, in the
   * order the constructor makes them.
   */
  method Decode(buffer: Buffer) returns (r: MachineStatus)
    ensures r == Expected(buffer)
  {
    var b0, b1 := Operand(At(buffer, 0)), Operand(At(buffer, 1));
    var error := BuildError(b0, b1);
    var message, status := BuildMessage(b1);
    if |error| > 0 {
      status := Error;
    }
    r := MachineStatus(status, message, error);
  }

  /** The appends to `error`. */
  method BuildError(b0: Byte, b1: Byte) returns (error: string)
    ensures error == FrameErrorText(b0, b1)
  {
    error := "";
    if b0 & 0x01 != 0 {
      error := error + NoWaterText;
    }
    var water := b0 & 0x11;
    if water == 0x01 {
      error := error + WaterEmptyText;
    } else if water == 0x10 {
      error := error + JammedText;
    } else if water == 0x11 {
      error := error + EmptyAndJammedText;
    }
    if 0x04 & b0 != 0 {
      error := error + TrayOpenText;
    }
    if 0x40 & b1 != 0 {
      error := error + SensorFullText;
    }
    if 0x01 == b1 & 0x09 {
      error := error + LowWaterText;
    }
  }

  /** The appends to `message`, and the status they set before the error check. */
  method BuildMessage(b1: Byte) returns (message: string, status: BrewStatus)
    ensures message == FrameMessageText(b1)
    ensures status == if b1 & 0x04 != 0 then Busy else Ready
  {
    status := Ready;
    message := "";
    if 0x84 == b1 & 0x84 {
      message := message + BrewingText;
      status := Busy;
    }
    if 0x04 == b1 & 0x84 {
      message := message + PumpingText;
      status := Busy;
    }
    if 0x09 == b1 & 0x09 {
      message := message + SleepingText;
    }
    if 0x02 & b1 != 0 {
      message := message + OkText;
    }
  }

  /** The status starts Ready and is only ever set to Busy or Error, never Unknown. */
  lemma StatusNeverUnknown(buffer: Buffer)
    ensures Expected(buffer).status != Unknown
  {
  }

  /** The status is Error exactly when there is an error text. */
  lemma ErrorIffErrorMessage(buffer: Buffer)
    ensures Expected(buffer).status == Error <==> Expected(buffer).errorMessage != ""
  {
  }

  /** Which flags produce an error text. */
  lemma {:induction false} ErrorMessageIff(buffer: Buffer)
    ensures var b0, b1 := Operand(At(buffer, 0)), Operand(At(buffer, 1));
      Expected(buffer).errorMessage != "" <==> b0 & 0x15 != 0 || b1 & 0x40 != 0 || b1 & 0x09 == 0x01
  {
    var b0, b1 := Operand(At(buffer, 0)), Operand(At(buffer, 1));
    assert b0 & 0x15 != 0 <==> b0 & 0x01 != 0 || b0 & 0x11 != 0 || b0 & 0x04 != 0;
  }

  /** Without an error the machine is Busy exactly when the pump bit 0x04 is set, that is when "Brewing..." or "Pumping..." is shown. */
  lemma BusyIff(buffer: Buffer)
    requires Expected(buffer).errorMessage == ""
    ensures Expected(buffer).status == Busy <==> Operand(At(buffer, 1)) & 0x04 != 0
    ensures Expected(buffer).status == Busy <==>
      BrewingText in FrameMessages(Operand(At(buffer, 1))) || PumpingText in FrameMessages(Operand(At(buffer, 1)))
  {
  }

  /** "Brewing..." and "Pumping..." never both appear; nor do "Device is sleeping" and "Low water". */
  lemma ExclusiveTexts(b0: Byte, b1: Byte)
    ensures !(BrewingText in FrameMessages(b1) && PumpingText in FrameMessages(b1))
    ensures !(SleepingText in FrameMessages(b1) && LowWaterText in FrameErrors(b0, b1))
  {
  }

  /** Water empty puts "no water " first and a second water text right after it. */
  lemma WaterTexts(b0: Byte, b1: Byte)
    requires b0 & 0x01 != 0
    ensures |FrameErrors(b0, b1)| >= 2
    ensures FrameErrors(b0, b1)[0] == NoWaterText
    ensures FrameErrors(b0, b1)[1] == if b0 & 0x10 != 0 then EmptyAndJammedText else WaterEmptyText
  {
  }

  /** "Ok" is the last status text exactly when bit 0x02 of byte 1 is set, and that bit never changes the status. */
  lemma OkBit(b0: Byte, b1: Byte)
    ensures OkText in FrameMessages(b1) <==> b1 & 0x02 != 0
    ensures b1 & 0x02 != 0 ==> FrameMessages(b1)[|FrameMessages(b1)| - 1] == OkText
    ensures Expected([b0, b1 | 0x02]).status == Expected([b0, b1 & 0xFD]).status
  {
    assert (b1 | 0x02) & 0x40 == (b1 & 0xFD) & 0x40;
    assert (b1 | 0x02) & 0x09 == (b1 & 0xFD) & 0x09;
    assert (b1 | 0x02) & 0x04 == (b1 & 0xFD) & 0x04;
  }

  /** The two strings are the raised texts joined in order. */
  lemma {:induction false} TextsArePieces(b0: Byte, b1: Byte)
    ensures FrameStatus(b0, b1).errorMessage == Concat(FrameErrors(b0, b1))
    ensures FrameStatus(b0, b1).statusMessage == Concat(FrameMessages(b1))
  {
    ErrorTextIsPieces(b0 & 0x01 != 0, WaterText(b0), b0 & 0x04 != 0, b1 & 0x40 != 0, b1 & 0x09 == 0x01);
    MessageTextIsPieces(b1 & 0x84 == 0x84, b1 & 0x84 == 0x04, b1 & 0x09 == 0x09, b1 & 0x02 != 0);
  }

  lemma ExampleBrewing()
    ensures Expected([0x40, 0x84]) == MachineStatus(Busy, "Brewing...", "")
  {
    var b: Buffer := [0x40, 0x84];
    assert Operand(At(b, 0)) == 0x40 && Operand(At(b, 1)) == 0x84;
    assert WaterText(0x40) == "";
    assert FrameErrorText(0x40, 0x84) == ErrorText(false, "", false, false, false) == "";
    assert FrameMessageText(0x84) == MessageText(true, false, false, false) == BrewingText;
  }

  lemma ExampleOk()
    ensures Expected([0x00, 0x02]) == MachineStatus(Ready, "Ok", "")
  {
    var b: Buffer := [0x00, 0x02];
    assert Operand(At(b, 0)) == 0x00 && Operand(At(b, 1)) == 0x02;
    assert WaterText(0x00) == "";
    assert FrameErrorText(0x00, 0x02) == ErrorText(false, "", false, false, false) == "";
    assert FrameMessageText(0x02) == MessageText(false, false, false, true) == OkText;
  }

  lemma ExampleNoWater()
    ensures Expected([0x01, 0x00]) == MachineStatus(Error, "", "no water water empty")
  {
    var b: Buffer := [0x01, 0x00];
    assert Operand(At(b, 0)) == 0x01 && Operand(At(b, 1)) == 0x00;
    assert WaterText(0x01) == WaterEmptyText;
    assert FrameErrorText(0x01, 0x00) == ErrorText(true, WaterEmptyText, false, false, false) == NoWaterText + WaterEmptyText;
    assert FrameMessageText(0x00) == MessageText(false, false, false, false) == "";
  }

  /** An empty buffer reads as two zero bytes: Ready with no texts. */
  lemma ExampleEmpty()
    ensures Expected([]) == MachineStatus(Ready, "", "")
  {
    assert Operand(At([], 0)) == 0x00 && Operand(At([], 1)) == 0x00;
    assert WaterText(0x00) == "";
    assert FrameErrorText(0x00, 0x00) == ErrorText(false, "", false, false, false) == "";
    assert FrameMessageText(0x00) == MessageText(false, false, false, false) == "";
  }

  /** `toString`: the status number, a colon, the status text and the error text. */
  function ToString(s: MachineStatus): (r: string)
    ensures |r| == 4 + |s.statusMessage| + |s.errorMessage|
    ensures r[..3] == [DigitChar(s.status.Value()), ':', ' ']
    ensures r[3..3 + |s.statusMessage|] == s.statusMessage
    ensures r[3 + |s.statusMessage|] == ' '
    ensures r[|r| - |s.errorMessage|..] == s.errorMessage
  {
    NatToString(s.status.Value()) + ": " + s.statusMessage + " " + s.errorMessage
  }
}
