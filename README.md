# homebridge-brewer, modelled in Dafny

homebridge-brewer is a Homebridge plugin for Nespresso Expert machines. It
talks to each machine over Bluetooth Low Energy. The plugin does four things:

- It authenticates with the machine's pairing token.
- It decodes the machine's status, slider, capsule-count and response frames.
- It encodes brew and cancel commands.
- It exposes the machine to HomeKit as contact sensors, a capsule "battery"
  and one switch per beverage.

This project models that core in Dafny 4.11 and proves properties of the
model. The modules follow the repository's files:

| module | file of the repository | form |
|---|---|---|
| `Bytes`, `Strings`, `Hex`, `Wrappers` | shared helpers: JavaScript buffer reads, `String(n)`, `padStart`, `split`, `replace`, `parseInt(_, 16)`, `Buffer.toString('hex')` | functions and lemmas |
| `TemperatureTypes`, `CoffeeTypes` | `src/models/temperatureType.ts`, `src/models/cofeeTypes.ts` | functions and lemmas |
| `SliderStatuses`, `CapsuleCounts` | `src/models/sliderStatus.ts`, `src/models/capsuleCount.ts` | functions and lemmas |
| `Responses`, `MachineStatuses` | `src/models/responseStatus.ts`, `src/models/machineStatus.ts` | a method per constructor that builds its fields step by step, proved against a specification function |
| `AccessoryUtils` | `src/models/accessory.ts` | function and lemmas |
| `MachineControllers` | `src/controllers/machineController.ts` | the class `MachineController`, with the session's fields, and the hex-to-buffer loop as a method |
| `ServiceControllers` | `src/controllers/serviceController.ts` | the class `ServiceController` over an accessory's service map |
| `PlatformAccessories` | `src/platformAccessory.ts` | pure event handlers, plus the class `Characteristics` holding the values the handlers write |
| `Platforms` | `src/platform.ts` | the class `Platform`, with the cached accessories and the reconciliation loop of `addDevices` |

Highlights of what is proved:

- Frame decoding:
  - A response is rejected as a wrong packet exactly when its frame does not
    match the command that was sent.
  - The reason "Unknown command" can never reach a caller.
  - A machine status is Error exactly when its error text is non-empty.
  - `CapsuleCount` never reports the counter as disabled (see Findings).
- Brew command: the hex string `command(type, temperature)` decodes, through
  the `generateBuffer` loop, to the 10-byte frame
  `03 05 07 04 00 00 00 00 0t 0c`.
- Pairing token: dashes in the token do not matter. The hex spelling of any
  key decodes back to that key. An odd number of hex digits is the
  `RangeError` path.
- Reachability:
  - After a disconnection the machine counts as reachable for exactly five
    minutes.
  - The watchdog asks to reconnect exactly when the machine is unreachable
    and no scan is running.
- HomeKit services:
  - The switch of each beverage is present exactly when the beverage is
    enabled.
  - During `addDevices` no accessory is registered and unregistered at the
    same time.
  - An empty device name, or one without '_' (whose accessory's
    construction throws), stops `addDevices` before any accessory is
    unregistered.
- Two more defects found in the code (see Findings): building an accessory
  calls members that no file defines, and the capsule subscription never
  enables its notifications.

Some members are called but defined in none of the repository's files, so
the model takes them as parameters that the caller supplies:

- the status predicates `readyToBrew`, `isBrewing`, `noWater`, `trayError` and
  `needsDescealing`. They are called at src/controllers/machineController.ts:81
  and :87 and src/platformAccessory.ts:138-156. The class `MachineStatus`
  (src/models/machineStatus.ts:8-69) defines none of them.
- `CoffeeTypeUtils.all`, `CoffeeTypeUtils.isEnabled` and the two-argument
  `CoffeeTypeUtils.toUDID`. They are called at
  src/controllers/serviceController.ts:74, :85-86 and :113 and
  src/platformAccessory.ts:35 and :104. The class `CoffeeTypeUtils`
  (src/models/cofeeTypes.ts:16-53) defines only `command`, a one-argument
  `toUDID` and `humanReadable`.
- `startWatching` on the machine controller (src/platformAccessory.ts:27),
  which `MachineController` does not define. The model takes it to return.

Homebridge's `uuid.generate` belongs to the Homebridge library, which is not
part of this model. It is a parameter too. As the files stand, the calls of
the undefined members throw; Findings records what that does to `addDevices`.

The clock is the `now` parameter. The operating-system test of
`needsPairingFix` is the `pairingFix` parameter.

Four behaviours of the code are easy to misread, and the model follows the
code in each:

- The brew command is 10 bytes. The 16-character prefix is 8 bytes, and the
  two zero-padded numbers give one byte each.
- A response must echo the command it answers. The response
  `[0x80, 0x06, 0x02, 0x24, 0x12]` to the command `[0x03, 0x06]` is rejected
  as a wrong packet, because `0x80 & 0x3F` is 0, not 3 (`Responses.Examples`).
- A reason code of 0x20 makes the response a success whatever its status
  bits say.
- Only reading the capsule count of a short frame throws (`readInt16BE`),
  which here is `None`. The status, slider and response decoders read a
  missing byte as `undefined`, which compares and masks as the code does
  (`Bytes.At`, `Bytes.Operand`).

## Model

| member | source | states |
|---|---|---|
| Bytes.At | src/models/responseStatus.ts:9 | reading index `i` of a buffer yields a byte exactly when `i` is in range, and that byte is the element at `i` |
| Bytes.Operand | src/models/machineStatus.ts:19 | a missing byte used in a bitwise operation acts as 0; a present byte is itself |
| Bytes.ShiftOrValue | src/models/responseStatus.ts:37 | `(hi << 8) \| lo` of two bytes is `hi * 256 + lo` |
| Bytes.OfNat | src/controllers/machineController.ts:256 | the octet built for a value below 256 has exactly that value |
| Bytes.ValueInjective | src/models/responseStatus.ts:9 | two bytes with the same numeric value are equal |
| Strings.DigitChar | src/models/cofeeTypes.ts:18 | the character of a decimal digit below 10 is a digit |
| Strings.DigitValue | src/models/cofeeTypes.ts:18 | reading a digit character gives a digit below 10 that prints back as that character |
| Strings.NatToString | src/models/cofeeTypes.ts:18 | `String(n)` of a natural number is a non-empty digit string with no leading zero, one character exactly when `n < 10` |
| Strings.NatToStringValue | src/models/cofeeTypes.ts:18 | the decimal value of `String(n)` is `n` |
| Strings.NatToStringInjective | src/models/cofeeTypes.ts:18 | different numbers print differently |
| Strings.IntToString | src/models/capsuleCount.ts:16 | the decimal spelling of an integer starts with '-' exactly when it is negative, and is all digits otherwise |
| Strings.IntToStringInjective | src/models/capsuleCount.ts:16 | different integers print differently |
| Strings.Repeat | src/models/cofeeTypes.ts:18 | `n` copies of a character |
| Strings.PadStart | src/models/cofeeTypes.ts:18 | `padStart(width, c)` has length `max(|s|, width)`, ends with `s` and is `c` before it |
| Strings.CountZero | src/controllers/machineController.ts:240 | a character occurs zero times exactly when it is absent |
| Strings.Split | src/controllers/serviceController.ts:47 | `split` always yields at least one part |
| Strings.JoinSplit | src/controllers/serviceController.ts:47 | joining the parts of `split(sep)` with `sep` gives back the string |
| Strings.SplitCount | src/controllers/serviceController.ts:47-48 | `split(sep)` has one part more than there are separators, and no part holds the separator |
| Strings.SplitHasTwoParts | src/controllers/serviceController.ts:47-48 | a name splits into at least two parts exactly when it contains the separator |
| Strings.RemoveAll | src/controllers/machineController.ts:240 | `replace(/-/g, '')` leaves no dash, shortens the text by the number of dashes and keeps every other character |
| Strings.RemoveAllAppend | src/controllers/machineController.ts:240 | removing a character from two texts one after the other gives the two results one after the other, so the kept characters stay in order |
| Strings.RemoveAllDrops | src/controllers/machineController.ts:240 | one occurrence of the removed character, wherever it stands, makes no difference |
| Strings.RemoveAllAbsent | src/controllers/machineController.ts:240 | removing a character that does not occur changes nothing |
| Hex.HexDigitValue | src/controllers/machineController.ts:256 | the value of a hexadecimal digit, either case, is below 16 |
| Hex.TrimStartSuffix | src/controllers/machineController.ts:256 | `parseInt` drops exactly the leading white space, and what is left does not start with white space |
| Hex.LeadingHexDigits | src/controllers/machineController.ts:256 | the digits `parseInt` reads are the longest prefix of hexadecimal digits |
| Hex.ParsePair | src/controllers/machineController.ts:256 | `parseInt` of two characters, case by case, lies strictly between -16 and 256 when it is a number |
| Hex.Digit | src/controllers/machineController.ts:256 | one hexadecimal digit parses to a value below 16 |
| Hex.ParsePairAgrees | src/controllers/machineController.ts:256 | the case-by-case reading equals ECMAScript `parseInt(_, 16)` on every two-character string |
| Hex.ParseAfterSpace | src/controllers/machineController.ts:256 | the same, for a pair that starts with white space |
| Hex.ParseSigned | src/controllers/machineController.ts:256 | the same, for a pair that starts with a sign |
| Hex.ParseUnsigned | src/controllers/machineController.ts:256 | the same, for every other pair, `0x` included |
| Hex.ParseSingle | src/controllers/machineController.ts:256 | `parseInt` of one non-space character: NaN for a lone sign, else its digit value |
| Hex.ParseIntHex | src/controllers/machineController.ts:256 | `parseInt(_, 16)` is a number only when the text holds a hexadecimal digit; on two characters it is `ParsePair` (ParsePairAgrees) |
| Hex.ToUint8 | src/controllers/machineController.ts:256 | storing a number in a `Uint8Array` keeps it modulo 256, and NaN becomes 0 |
| Hex.ToUint8Small | src/controllers/machineController.ts:256 | a number in 0..255 is stored in a `Uint8Array` unchanged |
| Hex.HexDigitChar | src/controllers/machineController.ts:243 | the lower-case digit for a value below 16 reads back as that value |
| Hex.HexByte | src/controllers/machineController.ts:243 | `toString('hex')` writes an octet as two hexadecimal digits |
| Hex.HexEncode | src/controllers/machineController.ts:243 | the hex spelling of a buffer is twice as long as the buffer |
| Hex.HexEncodeAt | src/controllers/machineController.ts:243 | characters `2k` and `2k+1` of the hex spelling spell byte `k` |
| Hex.HexEncodeAppend | src/controllers/machineController.ts:243 | the hex spelling of two buffers one after the other is their two spellings one after the other |
| Hex.ParseTwoHexDigits | src/controllers/machineController.ts:256 | two hexadecimal digits parse to `16 * x + y` |
| Hex.ParseHexByte | src/controllers/machineController.ts:243-256 | parsing back the hex spelling of an octet gives that octet |
| Hex.ParseDigitPair | src/controllers/machineController.ts:256 | the two digits of any number below 256 parse back to it |
| AccessoryUtils.ToUdid | src/models/accessory.ts:4-7 | `uuid.slice(0, suffix.length) + suffix`: of the right length, ends with the suffix, starts with the uuid's prefix, and is empty for an empty suffix |
| AccessoryUtils.ToUdidInjective | src/models/accessory.ts:4-7 | with a uuid at least as long as both suffixes, different suffixes give different service ids |
| AccessoryUtils.ToUdidExample | src/models/accessory.ts:6 | the service id keeps as many uuid characters as the suffix has, and the whole uuid when it is shorter |
| TemperatureTypes.TemperatureType.Value | src/models/temperatureType.ts:1-5 | the enum values are 0..2, and Medium is the one that is 0 |
| TemperatureTypes.ValueInjective | src/models/temperatureType.ts:1-5 | the enum values are distinct |
| TemperatureTypes.OfString | src/models/temperatureType.ts:8-17 | "Low" and "High" give their temperatures, and any other text gives Medium |
| TemperatureTypes.ToString | src/models/temperatureType.ts:19-28 | the name is one of "Low", "Medium", "High" |
| TemperatureTypes.OfStringToString | src/models/temperatureType.ts:8-28 | parsing a temperature's name gives back the temperature |
| TemperatureTypes.ToStringOfString | src/models/temperatureType.ts:8-28 | a text survives parse-then-print exactly when it is one of the three names |
| CoffeeTypes.CoffeeType.Value | src/models/cofeeTypes.ts:2-8 | the enum values lie in 0..5 and skip 3 |
| CoffeeTypes.ValueInjective | src/models/cofeeTypes.ts:2-8 | the enum values are distinct |
| CoffeeTypes.ZeroPad | src/models/cofeeTypes.ts:18 | a value below 10 pads to '0' followed by its digit |
| CoffeeTypes.Command | src/models/cofeeTypes.ts:17-23 | the command is 20 characters: the fixed prefix, then the zero-padded temperature, then the zero-padded type |
| CoffeeTypes.CommandInjective | src/models/cofeeTypes.ts:17-23 | different type/temperature pairs give different commands |
| CoffeeTypes.CommandIsHex | src/models/cofeeTypes.ts:17-23 | every command is an even-length string of hexadecimal digits |
| CoffeeTypes.CommandExample | src/models/cofeeTypes.ts:17-23 | Espresso at High is "03050704000000000201"; Americano at Medium is "03050704000000000005" |
| CoffeeTypes.ToUdid | src/models/cofeeTypes.ts:25-38 | every type has a non-empty service suffix |
| CoffeeTypes.HumanReadable | src/models/cofeeTypes.ts:40-53 | every type has a non-empty display name |
| CoffeeTypes.NamesAgreeAndDiffer | src/models/cofeeTypes.ts:25-53 | each type's suffix is its display name, and different types have different names |
| SliderStatuses.Decode | src/models/sliderStatus.ts:4-6 | the slider is closed exactly when the frame's first byte is 0x02, and open for an empty frame |
| SliderStatuses.OnlyFirstByte | src/models/sliderStatus.ts:5 | bytes after the first do not matter |
| SliderStatuses.OpenValues | src/models/sliderStatus.ts:5 | 0x00, 0x01, 0x03, 0xFF and the empty frame read open; 0x02 reads closed |
| SliderStatuses.ToString | src/models/sliderStatus.ts:8-10 | "Slider:closed" exactly when closed, "Slider:open" exactly when open |
| CapsuleCounts.Int16BE | src/models/capsuleCount.ts:9 | `readInt16BE` lies in -32768..32767, agrees with the unsigned reading modulo 65536, and is negative exactly when the high bit is set |
| CapsuleCounts.Uint16BE | src/models/capsuleCount.ts:7 | the unsigned big-endian reading is below 65536 |
| CapsuleCounts.HighBit | src/models/capsuleCount.ts:9 | the unsigned reading is at least 0x8000 exactly when the first byte is at least 0x80 |
| CapsuleCounts.Int16BEInjective | src/models/capsuleCount.ts:9 | different byte pairs read as different signed counts |
| CapsuleCounts.Uint16BEInjective | src/models/capsuleCount.ts:7 | different byte pairs read as different unsigned values |
| CapsuleCounts.PairInjective | src/models/capsuleCount.ts:9 | a two-digit base-256 number determines its digits |
| CapsuleCounts.DecodeAsWritten | src/models/capsuleCount.ts:5-13 | the constructor as written: it throws (`None`) on a frame shorter than two bytes, and otherwise the count is `readInt16BE(0)` |
| CapsuleCounts.AlwaysEnabled | src/models/capsuleCount.ts:6-7 | as written, the counter is enabled for every frame, because one byte never equals 0xFFFF |
| CapsuleCounts.DisabledPatternMisread | src/models/capsuleCount.ts:6-12 | the disabled frame `FF FF` reads as enabled with -1 capsules as written, and as disabled with 0 as intended |
| CapsuleCounts.Decode | src/models/capsuleCount.ts:5-13 | the intended decoder: it throws (`None`) on short frames; the counter is disabled exactly when the 16-bit value is 0xFFFF; the count is the signed reading when enabled and 0 otherwise |
| CapsuleCounts.DecodersAgree | src/models/capsuleCount.ts:5-13 | both decoders agree on every frame except `FF FF` |
| CapsuleCounts.EnabledRange | src/models/capsuleCount.ts:9 | an enabled count lies in -32768..32767 and is never -1 |
| CapsuleCounts.TrailingBytesIgnored | src/models/capsuleCount.ts:5-13 | bytes after the first two do not matter, for either decoder |
| CapsuleCounts.Examples | src/models/capsuleCount.ts:5-13 | `00 05` is 5, `01 00 07` is 256, `80 00` is -32768, and a one-byte frame throws |
| CapsuleCounts.ToString | src/models/capsuleCount.ts:15-17 | the text is "Capsule counter:", then enabled/disabled, then " capsules left:" and the count |
| CapsuleCounts.ToStringInjective | src/models/capsuleCount.ts:15-17 | different counters print differently |
| Responses.Decode | src/models/responseStatus.ts:5-65 | the constructor's step-by-step updates of `success` and `reason` give the specified response status |
| Responses.WrongFrameRejected | src/models/responseStatus.ts:9-12 | a response whose frame does not match the command sent is a failure with "Received wrong response packet" |
| Responses.SuccessIff | src/models/responseStatus.ts:17-48 | for a matching frame: success exactly when the status bits are 0x80 or the reason code is 0x20; status bits 0xC0, 0x40 or 0x00 without code 0x20 are a failure |
| Responses.CodeExtraction | src/models/responseStatus.ts:32-41 | a 1-byte code is byte 3; a 2-byte code is bytes 3 and 4, big-endian; any other length leaves the code 0 |
| Responses.NeverUnknownCommand | src/models/responseStatus.ts:39-63 | "Unknown command" is always overwritten; an unknown length reports "Unknown error" |
| Responses.OkCode | src/models/responseStatus.ts:44-48 | code 0x20 is success with an empty reason |
| Responses.KnownErrorCodes | src/models/responseStatus.ts:17-60 | codes 0x21, 0x2412, 0x2408 and 0x3603 give their reason texts, and success still follows the status bits |
| Responses.Examples | src/models/responseStatus.ts:5-65 | concrete frames: a masked-out command byte is a wrong packet, 0x83 with code 0x2412 is a success with "No capsule inserted", and so on |
| MachineStatuses.BrewStatus.Value | src/models/machineStatus.ts:1-6 | the enum values lie in 0..3 |
| MachineStatuses.AddAppend | src/models/machineStatus.ts:21-57 | appending a text under a condition commutes with concatenating the pieces |
| MachineStatuses.WaterText | src/models/machineStatus.ts:24-34 | the switch on `b0 & 0x11` appends a text exactly when one of the two bits is set |
| MachineStatuses.ErrorTextIsPieces | src/models/machineStatus.ts:19-54 | the error string is the concatenation of the error pieces, in order |
| MachineStatuses.MessageTextIsPieces | src/models/machineStatus.ts:38-57 | the status message is the concatenation of the message pieces, in order |
| MachineStatuses.Decode | src/models/machineStatus.ts:13-64 | the constructor's step-by-step appends and status updates give the specified status |
| MachineStatuses.BuildError | src/models/machineStatus.ts:19-54 | the error appends, in source order, produce the error text of the frame |
| MachineStatuses.BuildMessage | src/models/machineStatus.ts:38-57 | the message appends produce the frame's message, and the status is Busy exactly when the pump bit 0x04 of byte 1 is set |
| MachineStatuses.StatusNeverUnknown | src/models/machineStatus.ts:14-63 | a decoded status is never Unknown |
| MachineStatuses.ErrorIffErrorMessage | src/models/machineStatus.ts:59-63 | the status is Error exactly when the error message is non-empty |
| MachineStatuses.ErrorMessageIff | src/models/machineStatus.ts:19-54 | there is an error message exactly when `b0 & 0x15`, `b1 & 0x40`, or low water (`b1 & 0x09 == 0x01`) is set |
| MachineStatuses.BusyIff | src/models/machineStatus.ts:38-45 | without an error: Busy exactly when the pump bit is set, that is when "Brewing..." or "Pumping..." is shown |
| MachineStatuses.ExclusiveTexts | src/models/machineStatus.ts:38-54 | "Brewing..." and "Pumping..." never appear together, nor do "Device is sleeping" and "Low water" |
| MachineStatuses.WaterTexts | src/models/machineStatus.ts:19-34 | with bit 0x01 the error starts with "no water " followed by "water empty" or "water empty + jammed" |
| MachineStatuses.OkBit | src/models/machineStatus.ts:55-57 | "Ok" is shown exactly when bit 0x02 of byte 1 is set, is then the last piece, and does not affect the status |
| MachineStatuses.TextsArePieces | src/models/machineStatus.ts:13-64 | the decoded texts are the concatenations of the frame's pieces |
| MachineStatuses.ExampleBrewing | src/models/machineStatus.ts:13-64 | `40 84` is Busy, "Brewing...", with no error |
| MachineStatuses.ExampleOk | src/models/machineStatus.ts:13-64 | `00 02` is Ready, "Ok" |
| MachineStatuses.ExampleNoWater | src/models/machineStatus.ts:13-64 | `01 00` is Error, "no water water empty" |
| MachineStatuses.ExampleEmpty | src/models/machineStatus.ts:13-64 | an empty frame is Ready with no texts |
| MachineStatuses.ToString | src/models/machineStatus.ts:66-68 | the text is the status number, ": ", the message, a space and the error |
| MachineControllers.PairByteIsParseInt | src/controllers/machineController.ts:256 | the byte stored for a pair of characters is `parseInt(pair, 16)` stored in a `Uint8Array` |
| MachineControllers.DecodeHex | src/controllers/machineController.ts:247-259 | an odd-length string is a `RangeError`; otherwise the buffer is half as long |
| MachineControllers.DecodeHexIsParseInt | src/controllers/machineController.ts:255-257 | byte `k` of the buffer is `parseInt(hex.substring(2k, 2k+2), 16)` stored in a `Uint8Array` |
| MachineControllers.GenerateBuffer | src/controllers/machineController.ts:247-259 | the loop over pairs of characters computes `DecodeHex` |
| MachineControllers.PairByteHexByte | src/controllers/machineController.ts:243-256 | the two hex digits of an octet decode to that octet |
| MachineControllers.DecodeHexPairs | src/controllers/machineController.ts:247-259 | a string whose pairs spell the bytes of a buffer decodes to that buffer |
| MachineControllers.DecodeHexEncode | src/controllers/machineController.ts:243-259 | decoding the hex spelling of any buffer gives the buffer back |
| MachineControllers.TemperatureByte | src/models/cofeeTypes.ts:20 | the temperature byte of the command is the enum value |
| MachineControllers.CoffeeByte | src/models/cofeeTypes.ts:21 | the coffee byte of the command is the enum value |
| MachineControllers.BrewCommand | src/controllers/machineController.ts:354-356 | the brew frame is 10 bytes |
| MachineControllers.SmallPair | src/models/cofeeTypes.ts:18 | a zero-padded digit decodes to its value |
| MachineControllers.DecodeHexAppend | src/controllers/machineController.ts:247-259 | decoding distributes over concatenating even-length strings |
| MachineControllers.DecodeHexTwo | src/controllers/machineController.ts:255-257 | a two-character string decodes to the one byte its pair gives |
| MachineControllers.CommandPrefixDecodes | src/models/cofeeTypes.ts:19 | the command prefix decodes to `03 05 07 04 00 00 00 00` |
| MachineControllers.ZeroDigitPair | src/models/cofeeTypes.ts:18 | a zero-padded digit string decodes to the one-byte buffer of that digit |
| MachineControllers.BrewCommandDecodes | src/controllers/machineController.ts:354-356 | `generateBuffer(command(type, temperature))` is the prefix bytes, then the temperature byte, then the coffee byte |
| MachineControllers.SendBrewCommand | src/controllers/machineController.ts:351-357 | the frame sent is `generateBuffer(command(type, temperature))`, the 10-byte brew frame, and the reply is decoded against it |
| MachineControllers.GenerateKey | src/controllers/machineController.ts:239-245 | no token gives an empty key; with a token, a `RangeError` exactly when the dash-free token has odd length, and otherwise a key half that length |
| MachineControllers.GenerateKeyIgnoresDashes | src/controllers/machineController.ts:240 | removing the dashes first gives the same key |
| MachineControllers.GenerateKeyDashAnywhere | src/controllers/machineController.ts:240-242 | a dash anywhere in the token leaves the key unchanged |
| MachineControllers.GenerateKeyOfHex | src/controllers/machineController.ts:239-259 | a token that spells a key in lower-case hex is authenticated with exactly that key |
| MachineControllers.GenerateKeyOfDashedHex | src/controllers/machineController.ts:239-259 | a dashed token whose two groups spell two buffers in hex gives the key that is the two buffers one after the other |
| MachineControllers.HexEncodeDashFree | src/controllers/machineController.ts:240 | a hex spelling holds no dash |
| MachineControllers.IsBrewing | src/controllers/machineController.ts:80-82 | the `\|\| true` makes "is brewing" mean exactly "is the last successful brew", whatever the status says |
| MachineControllers.Reachable | src/controllers/machineController.ts:64-74 | a connected session is reachable, and a reachable one is connected or was disconnected less than 300000 ms before; ReachableIff gives the converse |
| MachineControllers.AfterDisconnect | src/controllers/machineController.ts:156-166 | `disconnect` leaves the session not connected and without a last brew, every other field kept |
| MachineControllers.AfterDisconnectEvent | src/controllers/machineController.ts:120-123 | the 'disconnect' handler leaves a disconnected peripheral, the time recorded and no last brew, every other field kept, and the machine reachable at that time |
| MachineControllers.AfterConnect | src/controllers/machineController.ts:112-138 | a connect that gets through leaves the session connected and not scanning, keeps a running session as it is, and keeps the last status and contact time |
| MachineControllers.BrewResult | src/controllers/machineController.ts:84-97 | a frame is sent exactly when the gate is open, and its reply is decoded against the brew frame; a last brew is recorded exactly when that reply is a success, and it is the coffee asked for; the status is dropped when a frame was sent and kept otherwise; nothing else changes |
| MachineControllers.CancelResult | src/controllers/machineController.ts:99-105 | the reply is decoded against the cancel frame, the status is forgotten and nothing else changes |
| MachineControllers.ReachableIff | src/controllers/machineController.ts:64-74 | connected means reachable; never disconnected means unreachable; otherwise reachable exactly when less than 300000 ms have passed |
| MachineControllers.ReachabilityExpires | src/controllers/machineController.ts:64-74 | after the disconnect event at `t`, whatever the session was, the machine is still reachable at `t + 299999` and no longer at `t + 300000` |
| MachineControllers.DisconnectProperties | src/controllers/machineController.ts:156-166 | `disconnect` drops the peripheral and the last brew, keeps every other field, is idempotent and leaves the session not connected |
| MachineControllers.DisconnectEventProperties | src/controllers/machineController.ts:120-123 | after the disconnect event the peripheral is not connected, the time is recorded, the last brew is forgotten and nothing else changes; the machine is reachable exactly until five minutes have passed |
| MachineControllers.ConnectThenDrop | src/controllers/machineController.ts:112-123 | a session that connects and then loses the link at `t` is connected in between, and afterwards reachable at `u` exactly when `u < t + 300000` |
| MachineControllers.BrewGateClosed | src/controllers/machineController.ts:87-96 | without a ready status nothing is sent, the result is undefined, and no coffee reads as brewing |
| MachineControllers.BrewGateOpen | src/controllers/machineController.ts:87-93 | with a ready status the reply is decoded against the brew frame sent, the status is forgotten, the coffee reads as brewing exactly when the reply is a success, and nothing else changes |
| MachineControllers.BrewWrongReply | src/controllers/machineController.ts:87-93 | a reply to some other frame never records a brew |
| MachineControllers.ConnectPlanShape | src/controllers/machineController.ts:112-138 | a running session only rediscovers its characteristics; an odd token stops the connect; otherwise disconnect comes first and the final read last, authentication comes before the four subscriptions, and the early read happens exactly with the pairing fix |
| MachineControllers.ConnectPlan | src/controllers/machineController.ts:112-154 | the intended plan: `connect` rejects exactly when a new session's token does not decode; a running session only rediscovers; a new one authenticates with the key, makes all four subscriptions, reads early exactly with the pairing fix, and ends with a read |
| MachineControllers.ConnectAsWritten | src/controllers/machineController.ts:112-154 | as written, `connect` rejects exactly when a new session's token does not decode, and otherwise resolves exactly for a running session |
| MachineControllers.CapsuleSubscriptionStalls | src/controllers/machineController.ts:306-321 | as written, a new session stops at the capsule subscription: the response is never subscribed and `connect` never resolves |
| MachineControllers.ConnectPlanCompletes | src/controllers/machineController.ts:149-154 | with the capsule notifications enabled, `connect` takes the steps the as-written one starts, then subscribes to the response and reads the states; for a running session the two agree |
| MachineControllers.MachineController.constructor | src/controllers/machineController.ts:36-49 | a new controller holds the token and the initial session |
| MachineControllers.MachineController.IsConnected | src/controllers/machineController.ts:60-62 | connected exactly when the peripheral is connected or connecting |
| MachineControllers.MachineController.IsReachable | src/controllers/machineController.ts:64-74 | the session's reachability at the given time |
| MachineControllers.MachineController.IsScanning | src/controllers/machineController.ts:76-78 | the scanning flag |
| MachineControllers.MachineController.Disconnect | src/controllers/machineController.ts:156-166 | the peripheral and the last brew are cleared |
| MachineControllers.MachineController.OnDisconnected | src/controllers/machineController.ts:120-123 | the peripheral is marked disconnected, the disconnect time is recorded and the last brew cleared |
| MachineControllers.MachineController.OnStatusData | src/controllers/machineController.ts:271-275 | the decoded status becomes the last status, and nothing else changes |
| MachineControllers.MachineController.Connect | src/controllers/machineController.ts:112-138 | the steps taken are the connect plan for the current session and the token's key, and the session becomes connected |
| MachineControllers.MachineController.Brew | src/controllers/machineController.ts:84-97 | the new session and the result are the specified brew outcome, with the frame built by `generateBuffer` |
| MachineControllers.MachineController.Cancel | src/controllers/machineController.ts:99-105 | the cancel frame `03 06 01 02` is sent, the status is forgotten and the reply is decoded against that frame |
| PlatformAccessories.Watch | src/platformAccessory.ts:90-101 | the watchdog reconnects exactly when the machine is unreachable and not scanning, and reports connected exactly when it is |
| PlatformAccessories.WatchAfterDisconnect | src/platformAccessory.ts:90-101 | after a disconnection the watchdog waits for five minutes, then reconnects unless a scan is running |
| PlatformAccessories.BoolToContactState | src/platformAccessory.ts:195-199 | true is "contact not detected" (1), false is "contact detected" (0) |
| PlatformAccessories.NormalizedMaxCapsuleCount | src/platformAccessory.ts:182-193 | the maximum is 0 for NaN or non-positive values, 1000 above 1000, and the value otherwise |
| PlatformAccessories.NormalizedIdempotent | src/platformAccessory.ts:182-193 | normalising twice is normalising once |
| PlatformAccessories.BatteryUpdate | src/platformAccessory.ts:164-179 | the level is in 0..100; a maximum of 0 is full and normal; otherwise the battery is low exactly when the percentage is below 10, and a percentage in range is the level |
| PlatformAccessories.BatteryConsistent | src/platformAccessory.ts:172-179 | a level of 10 or more is never low, and a low battery has a level below 10 |
| PlatformAccessories.ControlOutcome | src/platformAccessory.ts:36-46 | `controlMachine` fails, with NOT_ALLOWED_IN_CURRENT_STATE, exactly when there is no answer or a brew was refused |
| PlatformAccessories.CancelNeverFails | src/platformAccessory.ts:36-46 | a cancel that got an answer never fails |
| PlatformAccessories.BrewOutcomeIff | src/platformAccessory.ts:34-46 | a brew succeeds exactly when the machine's answer is a success |
| PlatformAccessories.GetOn | src/platformAccessory.ts:72-80 | `getOn` fails with SERVICE_COMMUNICATION_FAILURE exactly when the machine is unreachable, and is otherwise whether the coffee is the last brew |
| PlatformAccessories.GetOnConnected | src/platformAccessory.ts:72-80 | while connected the switch reads exactly the last successful brew |
| PlatformAccessories.Characteristics.constructor | src/controllers/serviceController.ts:74-93 | a new accessory holds one switch per coffee service that `initServices` left in place, with the given on-values |
| PlatformAccessories.Characteristics.UpdateSlider | src/platformAccessory.ts:130-134 | the slider sensor reads "detected" exactly when the slider is closed, and nothing else changes |
| PlatformAccessories.Characteristics.UpdateStatus | src/platformAccessory.ts:136-158 | the brewing, no-water, tray and descaling sensors follow their status predicates, and nothing else changes |
| PlatformAccessories.Characteristics.UpdateCapsules | src/platformAccessory.ts:160-180 | the capsule sensor reads "not detected" exactly when no capsules are left, the battery follows `BatteryUpdate`, and nothing else changes |
| PlatformAccessories.Characteristics.ControlMachine | src/platformAccessory.ts:31-47 | the result is `ControlOutcome`, a failure turns the coffee's switch off when there is one, and nothing else changes |
| ServiceControllers.ParseDeviceName | src/controllers/serviceController.ts:46-60 | a name without '_' is RESOURCE_DOES_NOT_EXIST; otherwise model and serial are the first two parts and the display name defaults to "Coffee" |
| ServiceControllers.ParseDeviceNameParts | src/controllers/serviceController.ts:47-54 | for `model_serial…` the model is read back, and so is the serial when nothing but further '_' parts follows |
| ServiceControllers.SplitPrefix | src/controllers/serviceController.ts:47 | splitting `w_rest` gives `w` followed by the parts of `rest` |
| ServiceControllers.SplitFirst | src/controllers/serviceController.ts:47 | the first part of a name is the text before its first '_' |
| ServiceControllers.GetOrAdd | src/controllers/serviceController.ts:79-82 | `getService(uuid) \|\| addService(...)`: an existing service is kept, a missing one is added, and no other service changes |
| ServiceControllers.GetOrAddIdempotent | src/controllers/serviceController.ts:79-82 | adding the same uuid again changes nothing |
| ServiceControllers.CoffeeStep | src/controllers/serviceController.ts:84-110 | an enabled type's switch is added if missing, a disabled type's is removed, and other services are unchanged |
| ServiceControllers.CoffeeStepsPresence | src/controllers/serviceController.ts:74-110 | with distinct suffixes, each listed type's switch is present exactly when enabled, and unlisted uuids are untouched |
| ServiceControllers.ServiceController.constructor | src/controllers/serviceController.ts:30-42 | a new controller holds the accessory's uuid and services |
| ServiceControllers.ServiceController.InitContactService | src/controllers/serviceController.ts:79-82 | the contact sensor is fetched or added |
| ServiceControllers.ServiceController.AddCoffeeService | src/controllers/serviceController.ts:99-102 | the coffee switch is fetched or added under its display name |
| ServiceControllers.ServiceController.RemoveCoffeeService | src/controllers/serviceController.ts:104-110 | the service is removed, which changes nothing when it is absent |
| ServiceControllers.ServiceController.InitCoffeeType | src/controllers/serviceController.ts:84-93 | one coffee type's step |
| ServiceControllers.ServiceController.InitServices | src/controllers/serviceController.ts:46-77 | a bad name throws and leaves the services unchanged; otherwise the six sensors and the battery are fetched or added, and then every type's switch is added or removed |
| ServiceControllers.ServiceController.InitFixedServices | src/controllers/serviceController.ts:62-72 | the six contact sensors and the battery are fetched or added |
| ServiceControllers.ServiceController.InitCoffeeTypes | src/controllers/serviceController.ts:74-76 | the steps for all types, in order |
| ServiceControllers.FixedServicesKeys | src/controllers/serviceController.ts:62-72 | afterwards the seven fixed uuids are present, and every service that was there is unchanged |
| ServiceControllers.FixedServicesIdempotent | src/controllers/serviceController.ts:62-72 | initialising the fixed services twice is initialising them once |
| Platforms.DevicesMapLast | src/platform.ts:41 | a configured name maps to the token of its last configuration, and an unconfigured name is absent |
| Platforms.DevicesMap | src/platform.ts:41 | every configured name is a key, and the last configuration's name maps to its token; DevicesMapLast gives the full statement |
| Platforms.FirstMatch | src/platform.ts:50 | `find` returns the first accessory with the uuid, or none when no accessory has it |
| Platforms.Place | src/platform.ts:49-62 | placing a device keeps the list's length and uuids, and its event is a restore or a registration under the uuid of its name, a restore exactly when a cached accessory has that uuid |
| Platforms.Process | src/platform.ts:44-63 | the first loop keeps the list's length and uuids and never unregisters |
| Platforms.BuildsIff | src/controllers/serviceController.ts:46-52 | the accessory's construction returns exactly when `initServices` can read the device name |
| Platforms.Builds | src/controllers/serviceController.ts:46-52 | only a non-empty name builds; BuildsIff ties it to `initServices` reading the name |
| Platforms.Removals | src/platform.ts:66-72 | the second loop only unregisters |
| Platforms.Reconcile | src/platform.ts:39-73 | `addDevices` keeps the cache's length and uuids, emits at least the first loop's events, and unregisters nothing once that loop has returned early |
| Platforms.CollectRemovals | src/platform.ts:66-72 | the second loop's events are `Removals` of the cache |
| Platforms.StoppedStays | src/platform.ts:45-48 | after the early return, later devices change nothing |
| Platforms.ProcessShape | src/platform.ts:44-63 | the loop runs to the end exactly when every configured name contains '_', and then gives one event per device |
| Platforms.ProcessEventAt | src/platform.ts:49-62 | when every name contains '_', device `i` is restored or registered under the uuid of its name, restored exactly when a cached accessory has that uuid |
| Platforms.StopAtEmptyName | src/platform.ts:45-48 | the first empty name, after names that all contain '_', ends `addDevices` after the devices before it, and nothing is unregistered |
| Platforms.StopAtUnreadableName | src/platform.ts:49-62 | a non-empty name without '_', after names that all contain '_', ends `addDevices` at that device: its entry is placed, the bridge is not told, and nothing is unregistered |
| Platforms.ProcessAsWritten | src/platformAccessory.ts:18-29 | as the files stand, the loop stops at its first device |
| Platforms.ReconcileAsWritten | src/platform.ts:39-73 | as the files stand, `addDevices` with any configured device emits exactly one event, an invalid-name error or a failed build, and never registers or restores |
| Platforms.UndefinedCallsStopAddDevices | src/controllers/serviceController.ts:74 | with names that all contain '_', the files as they stand register and restore nothing, while with the called members defined every device is restored or registered |
| Platforms.RemovalsIff | src/platform.ts:66-72 | with distinct uuids, a cached accessory is unregistered exactly when its name maps to a falsy token |
| Platforms.RemovalsAvoid | src/platform.ts:66-72 | only listed uuids are unregistered |
| Platforms.RegisteredNotUnregistered | src/platform.ts:44-72 | when every name contains '_', an accessory registered by this run is not also unregistered by it |
| Platforms.Platform.constructor | src/platform.ts:11 | a new platform has no cached accessories |
| Platforms.Platform.ConfigureAccessory | src/platform.ts:34-37 | a restored accessory is appended to the cache |
| Platforms.Platform.AddDevices | src/platform.ts:39-73 | the loops compute `Reconcile`: the accessories afterwards and the events in order, the early return and the construction's throw included, with the cache's length unchanged |

## Left out

- Bluetooth I/O is not modelled: scanning, connecting, service and characteristic discovery, writes, notifications, `assertBluetooth` and `subscribeBluetoothState`. The characteristic UUID constants of `src/models/machineUDIDs.ts` are therefore not part of this model.
- Timers and asynchrony are not modelled: the one-second wait after connecting, the watchdog interval, the 10-second reconnect in the disconnect handler, and the fire-and-forget `reconnect()` after a brew or cancel.
- MachineControllers.MachineController.Connect: returns the steps it would take, in order, and sets the resulting state. Scan, connection and notify-enable failures are not modelled; the key's `RangeError` stops the plan. The class follows the plan with the capsule notifications enabled; the code as written waits at that subscription (see Findings).
- MachineControllers.MachineController.Brew: models `brew` after `connect()` has resolved, with the machine's reply as an input. A write error, which rejects the promise, is not modelled. So is the `reconnect()` that follows.
- MachineControllers.MachineController.Cancel: the same, for `cancel`.
- The `TypeError` of `generateBuffer` for a non-string is not modelled; the token is an optional string.
- Platforms.Builds: of the construction of `ExpertPlatformAccessory`, only whether it returns is modelled: `initServices` throws for a name without '_'. The services, controller and watchdog it sets up are not. Its calls of members that no file defines (`CoffeeTypeUtils.all`, `startWatching`) are in Findings. Everywhere else the model takes those members as supplied.
- ServiceControllers.ServiceController.constructor: stores the accessory's uuid and services only. The `initServices()` call that ends the constructor (src/controllers/serviceController.ts:43) is the separate method InitServices, and its throw inside `addDevices` is Platforms.Builds.
- MachineControllers.MachineController.OnDisconnected: the BLE library, not the handler, marks the peripheral disconnected before it emits the event; the model makes that change in the same step.
- MachineControllers.DecodeHex, MachineControllers.GenerateKey: a Dafny `string` is a sequence of Unicode scalar values, while JavaScript's `length`, `substring` and `replace` count UTF-16 code units. A character outside the Basic Multilingual Plane, such as an emoji, is one character here and two code units there, so the parity test and the pairs of `generateBuffer` differ for such tokens; the model holds for tokens within the Basic Multilingual Plane.
- PlatformAccessories.BatteryUpdate: the floating-point percentage `Math.floor((left / Math.max(max, left)) * 100)` is an input, not computed.
- Logging and the `EventEmitter` emits are left out. The 'status' handler's effect on the controller is OnStatusData; its effect on the accessory is UpdateStatus.
- PlatformAccessories.Characteristics.constructor: the initial sensor values (contact detected) and battery reading (100, not low) are placeholders. `initServices` leaves the characteristics at whatever Homebridge holds until the first 'status', 'slider' or 'capsule' notification writes them.
- PlatformAccessories.Characteristics: the sensors are fields that always exist, so the optional chaining (`service?.`) for a missing service is not modelled. For the coffee switches it is: a switch that is absent is left alone.
- ServiceControllers.ParseDeviceName: the accessory-information characteristics are returned as a `DeviceInfo` value rather than written to the information service.
- The battery service's `ChargingState` setting is left out.
- Platforms: accessories are values, not shared objects. Setting `context.device` on a restored accessory updates its entry in the list.
- Platforms.DevicesMap: JavaScript object semantics, such as prototype keys like `toString` and the coercion of names to keys, are not modelled; the map is keyed by the name string.
- Platforms: a cached accessory without a `context.device`, which would throw in the removal loop, is not modelled.
- Platforms.Platform.AddDevices: a missing `machines` entry in the configuration is the empty list.
- JavaScript `number` is modelled as `int` for codes and counts and as `real` for the configured maximum capsule count; NaN is explicit only for that maximum.

## Findings

| source | as written | input that shows it | evidently intended | confidence | as-written member | corrected member |
|---|---|---|---|---|---|---|
| src/models/capsuleCount.ts:6-7 | `buffer[0]` is a single byte (0..255), so `count !== 0xffff` always holds and the counter is never reported as disabled | frame `FF FF`: as written, enabled with `readInt16BE(0) = -1` capsules left | the 16-bit value 0xFFFF means the counter is disabled, with 0 capsules left | not executed | CapsuleCounts.DecodeAsWritten, CapsuleCounts.DisabledPatternMisread | CapsuleCounts.Decode, CapsuleCounts.DecodersAgree |
| src/controllers/serviceController.ts:74 | building an accessory calls members that no file defines. The first is `CoffeeTypeUtils.all()` at the end of `initServices` (reached from src/platformAccessory.ts:24); src/models/cofeeTypes.ts:16-53 does not define it. The next would be `this._controller.startWatching()` (src/platformAccessory.ts:27), also undefined. So every construction throws: a `TypeError`, or for a name without '_' the earlier `HapStatusError` of src/controllers/serviceController.ts:51. And `addDevices` ends at its first named device | one configured device named `Expert_DB1` and no cached accessory: as written nothing is registered, and the error is logged at src/platform.ts:25 | the called members defined, so the accessory is built, its watchdog started and the device registered | not executed | Platforms.ProcessAsWritten, Platforms.UndefinedCallsStopAddDevices | Platforms.Process, Platforms.ProcessEventAt |
| src/controllers/machineController.ts:306-321 | `subscribeCapsuleCount` waits for a 'notify' event but never calls `capsuleCharacteristic.notify(true, …)`, unlike the status, slider and response subscriptions, so its promise never settles | any `connect()` that starts a new session with an even-length token: it stops at the capsule subscription, the response is never subscribed, and `brew` and `cancel` never send | the capsule notifications enabled like the other three, and `connect` resolving after the final read | not executed | MachineControllers.ConnectAsWritten, MachineControllers.CapsuleSubscriptionStalls | MachineControllers.ConnectPlan, MachineControllers.ConnectPlanCompletes |
