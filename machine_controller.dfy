/**
 * The machine controller: turning hex text into the bytes written to the
 * machine, and the session bookkeeping around the Bluetooth connection.
 * The Bluetooth traffic itself is not modelled; replies arrive as inputs.
 */
module MachineControllers {
  import opened Wrappers
  import opened Bytes
  import opened Strings
  import opened Hex
  import opened CoffeeTypes
  import opened TemperatureTypes
  import MachineStatuses
  import Responses

  /** A reply older than five minutes no longer counts as contact. */
  const UnreachableTimeoutMs: int := 1000 * 60 * 5

  /** The bytes of the cancel command. */
  const CancelCommand: Buffer := [0x03, 0x06, 0x01, 0x02]

  /** `generateBuffer` throws a `RangeError` on text of odd length. */
  datatype HexError = RangeError

  /**
   * One character pair as `parseInt(pair, 16)` stored into a `Uint8Array`
   * cell: NaN stores 0, any other number is taken modulo 256.
   */
  function PairByte(a: char, b: char): Byte {
    ToUint8(ParsePair(a, b))
  }

  /** The pair reading is `parseInt` of the two-character string the source slices out. */
  lemma PairByteIsParseInt(pair: string)
    requires |pair| == 2
    ensures PairByte(pair[0], pair[1]) == ToUint8(ParseIntHex(pair))
  {
    assert pair == [pair[0], pair[1]];
    ParsePairAgrees(pair[0], pair[1]);
  }

  /** What `generateBuffer(hex)` returns or throws: byte `i` comes from characters `2i` and `2i+1`. */
  function DecodeHex(hex: string): (r: Result<Buffer, HexError>)
    ensures r.Failure? <==> |hex| % 2 != 0
    ensures r.Success? ==> |r.value| == |hex| / 2
  {
    if |hex| % 2 != 0 then Failure(RangeError)
    else Success(seq(|hex| / 2, i requires 0 <= i < |hex| / 2 => PairByte(hex[2 * i], hex[2 * i + 1])))
  }

  /** Every decoded byte is `parseInt` of its slice of the text, stored as an octet. */
  lemma DecodeHexIsParseInt(hex: string, k: nat)
    requires |hex| % 2 == 0 && k < |hex| / 2
    ensures DecodeHex(hex).value[k] == ToUint8(ParseIntHex(hex[2 * k..2 * k + 2]))
  {
    PairByteIsParseInt(hex[2 * k..2 * k + 2]);
  }

  /**
   * `generateBuffer`: rejects odd-length text, then fills a zeroed
   * `Uint8Array` of half the length, one character pair per cell.
   */
  method GenerateBuffer(hex: string) returns (r: Result<Buffer, HexError>)
    ensures r == DecodeHex(hex)
  {
    if |hex| % 2 != 0 {
      return Failure(RangeError);
    }
    var view := new Byte[|hex| / 2];
    var i := 0;
    while i < |hex|
      invariant 0 <= i <= |hex| && i % 2 == 0
      invariant forall k :: 0 <= k < i / 2 ==> view[k] == PairByte(hex[2 * k], hex[2 * k + 1])
    {
      view[i / 2] := PairByte(hex[i], hex[i + 1]);
      i := i + 2;
    }
    assert view[..] == DecodeHex(hex).value;
    return Success(view[..]);
  }

  /** The two digits `Buffer.toString('hex')` writes for an octet read back as that octet. */
  lemma PairByteHexByte(b: Byte)
    ensures PairByte(HexByte(b)[0], HexByte(b)[1]) == b
  {
    ParseHexByte(b);
    PairByteIsParseInt(HexByte(b));
  }

  /** Text whose pairs are the two-digit spellings of `bs` decodes to `bs`. */
  lemma DecodeHexPairs(hex: string, bs: Buffer)
    requires |hex| == 2 * |bs|
    requires forall k :: 0 <= k < |bs| ==> hex[2 * k..2 * k + 2] == HexByte(bs[k])
    ensures DecodeHex(hex) == Success(bs)
  {
    var r := DecodeHex(hex).value;
    forall k | 0 <= k < |bs|
      ensures r[k] == bs[k]
    {
      assert hex[2 * k..2 * k + 2][0] == hex[2 * k] && hex[2 * k..2 * k + 2][1] == hex[2 * k + 1];
      PairByteHexByte(bs[k]);
    }
    assert r == bs;
  }

  /** Decoding undoes `Buffer.toString('hex')`. */
  lemma DecodeHexEncode(bs: Buffer)
    ensures DecodeHex(HexEncode(bs)) == Success(bs)
  {
    forall k | 0 <= k < |bs|
      ensures HexEncode(bs)[2 * k..2 * k + 2] == HexByte(bs[k])
    {
      HexEncodeAt(bs, k);
    }
    DecodeHexPairs(HexEncode(bs), bs);
  }

  function TemperatureByte(t: TemperatureType): (b: Byte)
    ensures b as int == t.Value()
  {
    match t
    case Medium => 0
    case Low => 1
    case High => 2
  }

  function CoffeeByte(c: CoffeeType): (b: Byte)
    ensures b as int == c.Value()
  {
    match c
    case Ristretto => 0
    case Espresso => 1
    case Lungo => 2
    case Water => 4
    case Americano => 5
  }

  /** The ten bytes of a brew command. */
  function BrewCommand(coffee: CoffeeType, temperature: TemperatureType): (bs: Buffer)
    ensures |bs| == 10
  {
    [0x03, 0x05, 0x07, 0x04, 0x00, 0x00, 0x00, 0x00, TemperatureByte(temperature), CoffeeByte(coffee)]
  }

  /** A '0' followed by a decimal digit reads as that digit. */
  lemma SmallPair(d: nat)
    requires d < 10
    ensures PairByte('0', DigitChar(d)) as int == d
  {
    assert HexDigitValue(DigitChar(d)) == Some(d);
    assert ParsePair('0', DigitChar(d)) == Some(d);
    ToUint8Small(d);
  }

  /** Decoding text made of two even-length parts decodes each part. */
  lemma DecodeHexAppend(x: string, y: string)
    requires |x| % 2 == 0 && |y| % 2 == 0
    ensures DecodeHex(x + y) == Success(DecodeHex(x).value + DecodeHex(y).value)
  {
    var xy := x + y;
    var r, p, q := DecodeHex(xy).value, DecodeHex(x).value, DecodeHex(y).value;
    forall k | 0 <= k < |r|
      ensures r[k] == (p + q)[k]
    {
      if k < |p| {
        assert xy[2 * k] == x[2 * k] && xy[2 * k + 1] == x[2 * k + 1];
      } else {
        var j := k - |p|;
        assert xy[2 * k] == y[2 * j] && xy[2 * k + 1] == y[2 * j + 1];
      }
    }
    assert r == p + q;
  }

  /** Two characters decode to the single byte of their pair. */
  lemma DecodeHexTwo(a: char, b: char)
    ensures DecodeHex([a, b]) == Success([PairByte(a, b)])
  {
    var s := [a, b];
    assert s[0] == a && s[1] == b;
    assert |DecodeHex(s).value| == 1;
    assert DecodeHex(s).value[0] == PairByte(a, b);
    assert DecodeHex(s).value == [PairByte(a, b)];
  }

  /** The fixed part of the brew command decodes to its eight bytes. */
  lemma CommandPrefixDecodes()
    ensures DecodeHex(CommandPrefix) == Success([0x03, 0x05, 0x07, 0x04, 0x00, 0x00, 0x00, 0x00])
  {
    var p3, p5, p7, p4, p0 := ['0', '3'], ['0', '5'], ['0', '7'], ['0', '4'], ['0', '0'];
    assert CommandPrefix == p3 + p5 + p7 + p4 + p0 + p0 + p0 + p0;
    ZeroDigitPair(3);
    ZeroDigitPair(5);
    ZeroDigitPair(7);
    ZeroDigitPair(4);
    ZeroDigitPair(0);
    assert DigitChar(3) == '3' && DigitChar(5) == '5' && DigitChar(7) == '7' && DigitChar(4) == '4' && DigitChar(0) == '0';
    DecodeHexAppend(p3, p5);
    DecodeHexAppend(p3 + p5, p7);
    DecodeHexAppend(p3 + p5 + p7, p4);
    DecodeHexAppend(p3 + p5 + p7 + p4, p0);
    DecodeHexAppend(p3 + p5 + p7 + p4 + p0, p0);
    DecodeHexAppend(p3 + p5 + p7 + p4 + p0 + p0, p0);
    DecodeHexAppend(p3 + p5 + p7 + p4 + p0 + p0 + p0, p0);
    assert [3 as Byte] + [5 as Byte] + [7 as Byte] + [4 as Byte] + [0 as Byte] + [0 as Byte] + [0 as Byte] + [0 as Byte]
        == [0x03, 0x05, 0x07, 0x04, 0x00, 0x00, 0x00, 0x00];
  }

  /** A '0' followed by a decimal digit decodes to the one byte of that value. */
  lemma ZeroDigitPair(d: nat)
    requires d < 10
    ensures DecodeHex(['0', DigitChar(d)]) == Success([Bytes.OfNat(d)])
  {
    SmallPair(d);
    DecodeHexTwo('0', DigitChar(d));
    Bytes.ValueInjective(PairByte('0', DigitChar(d)), Bytes.OfNat(d));
  }

  /** The hex brew command decodes to ten bytes: the fixed prefix, the temperature, the coffee type. */
  lemma BrewCommandDecodes(coffee: CoffeeType, temperature: TemperatureType)
    ensures DecodeHex(Command(coffee, temperature)) == Success(BrewCommand(coffee, temperature))
  {
    var t, c := TemperatureByte(temperature), CoffeeByte(coffee);
    var tt, cc := ZeroPad(temperature.Value()), ZeroPad(coffee.Value());
    CommandPrefixDecodes();
    ZeroDigitPair(t as int);
    ZeroDigitPair(c as int);
    Bytes.ValueInjective(Bytes.OfNat(t as int), t);
    Bytes.ValueInjective(Bytes.OfNat(c as int), c);
    DecodeHexAppend(CommandPrefix, tt);
    DecodeHexAppend(CommandPrefix + tt, cc);
    assert Command(coffee, temperature) == CommandPrefix + tt + cc;
    assert BrewCommand(coffee, temperature) == [0x03, 0x05, 0x07, 0x04, 0x00, 0x00, 0x00, 0x00] + [t] + [c];
  }

  /**
   * `generateKey`: the configured token with every '-' removed, decoded as
   * hex; a missing token decodes the empty text.
   */
  function GenerateKey(token: Option<string>): (r: Result<Buffer, HexError>)
    ensures token.None? ==> r == Success([])
    ensures token.Some? ==> (r.Failure? <==> (|token.value| - Count(token.value, '-')) % 2 != 0)
    ensures token.Some? && r.Success? ==> 2 * |r.value| == |token.value| - Count(token.value, '-')
  {
    var hex := if token.Some? then RemoveAll(token.value, '-') else "";
    DecodeHex(hex)
  }

  /** Dashes carry no information: removing them first changes nothing. */
  lemma GenerateKeyIgnoresDashes(t: string)
    ensures GenerateKey(Some(RemoveAll(t, '-'))) == GenerateKey(Some(t))
  {
    RemoveAllAbsent(RemoveAll(t, '-'), '-');
  }

  /** A dash anywhere in a token is ignored: the key is that of the token without it. */
  lemma GenerateKeyDashAnywhere(a: string, b: string)
    ensures GenerateKey(Some(a + "-" + b)) == GenerateKey(Some(a + b))
  {
    RemoveAllDrops(a, b, '-');
    assert a + "-" + b == a + ['-'] + b;
  }

  /** A token spelled as the lower-case hex of some bytes yields those bytes. */
  lemma GenerateKeyOfHex(bs: Buffer)
    ensures GenerateKey(Some(HexEncode(bs))) == Success(bs)
  {
    HexEncodeDashFree(bs);
    RemoveAllAbsent(HexEncode(bs), '-');
    DecodeHexEncode(bs);
  }

  /** A dashed token whose groups spell two buffers in hex yields the two buffers one after the other. */
  lemma GenerateKeyOfDashedHex(x: Buffer, y: Buffer)
    ensures GenerateKey(Some(HexEncode(x) + "-" + HexEncode(y))) == Success(x + y)
  {
    GenerateKeyDashAnywhere(HexEncode(x), HexEncode(y));
    HexEncodeAppend(x, y);
    GenerateKeyOfHex(x + y);
  }

  lemma {:induction false} HexEncodeDashFree(bs: Buffer)
    ensures '-' !in HexEncode(bs)
  {
    if bs != [] {
      HexEncodeDashFree(bs[1..]);
      assert HexEncode(bs) == HexByte(bs[0]) + HexEncode(bs[1..]);
    }
  }

  /** The state of the Bluetooth peripheral, as the BLE library reports it. */
  datatype PeripheralState = PeripheralError | Connecting | Connected | Disconnecting | Disconnected

  /**
   * The controller's fields as one value: the peripheral (absent when none
   * is held), the last coffee brewed, the last machine status received,
   * whether a scan is running, and the time in milliseconds of the last
   * disconnection.
   */
  datatype Session = Session(
    peripheral: Option<PeripheralState>,
    lastBrew: Option<CoffeeType>,
    lastStatus: Option<MachineStatuses.MachineStatus>,
    scanning: bool,
    lastContact: Option<int>)

  const Initial: Session := Session(None, None, None, false, None)

  /** `isConnected`: a peripheral is held and is connected or connecting. */
  predicate ConnectedSession(s: Session) {
    s.peripheral == Some(PeripheralState.Connected) || s.peripheral == Some(Connecting)
  }

  /** `isReachable` at time `now`: connected, or disconnected less than five minutes ago. */
  predicate Reachable(s: Session, now: int)
    ensures ConnectedSession(s) ==> Reachable(s, now)
    ensures Reachable(s, now) ==> ConnectedSession(s) || (s.lastContact.Some? && now < s.lastContact.value + UnreachableTimeoutMs)
  {
    if ConnectedSession(s) then true
    else if s.lastContact.None? then false
    else now - s.lastContact.value < UnreachableTimeoutMs
  }

  /**
   * `isBrewing(type)` as written: `type === _lastBrew && (_lastStatus?.isBrewing() || true)`,
   * with the status predicate `isBrewing` supplied by the caller.
   */
  function IsBrewing(s: Session, coffee: CoffeeType, isBrewing: MachineStatuses.MachineStatus -> bool): (r: bool)
    ensures r <==> s.lastBrew == Some(coffee)
  {
    s.lastBrew == Some(coffee) && ((s.lastStatus.Some? && isBrewing(s.lastStatus.value)) || true)
  }

  /** What `disconnect` leaves: no peripheral and no last brew. */
  function AfterDisconnect(s: Session): (r: Session)
    ensures !ConnectedSession(r) && r.lastBrew.None?
    ensures r.(peripheral := s.peripheral, lastBrew := s.lastBrew) == s
  {
    s.(peripheral := None, lastBrew := None)
  }

  /**
   * What the peripheral's 'disconnect' event leaves at time `now`: the BLE
   * library has marked the peripheral disconnected before it emits the
   * event, and the handler records the time and forgets the last brew.
   */
  function AfterDisconnectEvent(s: Session, now: int): (r: Session)
    ensures !ConnectedSession(r) && r.peripheral.Some? && r.lastBrew.None? && r.lastContact == Some(now)
    ensures Reachable(r, now)
    ensures r.(peripheral := s.peripheral, lastContact := s.lastContact, lastBrew := s.lastBrew) == s
  {
    s.(peripheral := Some(Disconnected), lastContact := Some(now), lastBrew := None)
  }

  /** The state effects of a `connect` that gets through: a session already running is kept. */
  function AfterConnect(s: Session): (r: Session)
    ensures r == s || !r.scanning
    ensures ConnectedSession(r)
    ensures ConnectedSession(s) ==> r == s
    ensures r.lastStatus == s.lastStatus && r.lastContact == s.lastContact
  {
    if ConnectedSession(s) then s else s.(peripheral := Some(PeripheralState.Connected), lastBrew := None, scanning := false)
  }

  /** The brew gate: a status has been received since the last command and it says ready. */
  predicate BrewGate(s: Session, readyToBrew: MachineStatuses.MachineStatus -> bool) {
    s.lastStatus.Some? && readyToBrew(s.lastStatus.value)
  }

  /**
   * `brew` once its connection is up: when the gate is open, the brew
   * command goes out, the status is forgotten and the reply decides the
   * last brew; otherwise nothing is sent and the last brew is forgotten.
   */
  function BrewResult(s: Session, coffee: CoffeeType, temperature: TemperatureType,
                      readyToBrew: MachineStatuses.MachineStatus -> bool, reply: Buffer): (r: (Session, Option<Responses.ResponseStatus>))
    ensures r.1.Some? <==> BrewGate(s, readyToBrew)
    ensures r.1.Some? ==> r.1.value == Responses.Expected(reply, BrewCommand(coffee, temperature)) && r.0.lastStatus.None?
    ensures r.1.None? ==> r.0.lastStatus == s.lastStatus
    ensures r.0.lastBrew.Some? <==> r.1.Some? && r.1.value.success
    ensures r.0.lastBrew.Some? ==> r.0.lastBrew == Some(coffee)
    ensures r.0.(lastStatus := s.lastStatus, lastBrew := s.lastBrew) == s
  {
    if BrewGate(s, readyToBrew) then
      var response := Responses.Expected(reply, BrewCommand(coffee, temperature));
      (s.(lastStatus := None, lastBrew := if response.success then Some(coffee) else None), Some(response))
    else
      (s.(lastBrew := None), None)
  }

  /** `cancel` once its connection is up: the cancel command goes out and the status is forgotten. */
  function CancelResult(s: Session, reply: Buffer): (r: (Session, Responses.ResponseStatus))
    ensures r.1 == Responses.Expected(reply, CancelCommand)
    ensures r.0.lastStatus.None? && r.0.(lastStatus := s.lastStatus) == s
  {
    (s.(lastStatus := None), Responses.Expected(reply, CancelCommand))
  }

  /** The steps `connect` takes against the peripheral, in order. */
  datatype ConnectStep =
    | DisconnectFirst
    | Scan
    | DiscoverCharacteristics
    | RegisterDisconnectHandler
    | WaitForConnection
    | UpdateStates
    | Authenticate(key: Buffer)
    | SubscribeStatus
    | SubscribeSlider
    | SubscribeCapsules
    | SubscribeResponse

  /**
   * The plan of `connect`: a running session only rediscovers its
   * characteristics; otherwise the peripheral is found again, read once
   * early when the platform needs the pairing fix, authenticated with the
   * key, subscribed and read. A key that does not decode ends the plan
   * before authentication (`None`): `connect` rejects there. This is the
   * intended `connect`, with the capsule notifications enabled like the
   * other three; ConnectAsWritten is the code as it stands.
   */
  function ConnectPlan(connected: bool, pairingFix: bool, key: Result<Buffer, HexError>): (r: Option<seq<ConnectStep>>)
    ensures r.None? <==> !connected && key.Failure?
    ensures r.Some? ==> DiscoverCharacteristics in r.value && r.value[|r.value| - 1] in {DiscoverCharacteristics, UpdateStates}
    ensures connected ==> r == Some([DiscoverCharacteristics])
    ensures !connected && key.Success? ==>
      && Authenticate(key.value) in r.value && SubscribeResponse in r.value && SubscribeCapsules in r.value
      && |r.value| > 6 && (UpdateStates in r.value[..6] <==> pairingFix)
  {
    if connected then Some([DiscoverCharacteristics])
    else if key.Failure? then None
    else
      var early := if pairingFix then [UpdateStates] else [];
      Some([DisconnectFirst, Scan, DiscoverCharacteristics, RegisterDisconnectHandler, WaitForConnection] + early
           + [Authenticate(key.value), SubscribeStatus, SubscribeSlider, SubscribeCapsules, SubscribeResponse, UpdateStates])
  }

  /**
   * `connect` as the repository has it: `subscribeCapsuleCount` registers its
   * 'notify' listener but, unlike the other three subscriptions, never calls
   * `notify(true)`, so its promise never settles and a new session waits at
   * that step. The result is the steps started and whether `connect`
   * resolves; `None` is the key's rejection, as in `ConnectPlan`.
   */
  function ConnectAsWritten(connected: bool, pairingFix: bool, key: Result<Buffer, HexError>): (r: Option<(seq<ConnectStep>, bool)>)
    ensures r.None? <==> !connected && key.Failure?
    ensures r.Some? ==> (r.value.1 <==> connected)
  {
    if connected then Some(([DiscoverCharacteristics], true))
    else if key.Failure? then None
    else
      var early := if pairingFix then [UpdateStates] else [];
      Some(([DisconnectFirst, Scan, DiscoverCharacteristics, RegisterDisconnectHandler, WaitForConnection] + early
            + [Authenticate(key.value), SubscribeStatus, SubscribeSlider, SubscribeCapsules], false))
  }

  /** As written, a new session stops at the capsule subscription: the response is never subscribed and `connect` never resolves. */
  lemma CapsuleSubscriptionStalls(pairingFix: bool, key: Result<Buffer, HexError>)
    requires key.Success?
    ensures var r := ConnectAsWritten(false, pairingFix, key);
      && r.Some? && !r.value.1
      && r.value.0[|r.value.0| - 1] == SubscribeCapsules
      && SubscribeResponse !in r.value.0
  {
    var early := if pairingFix then [UpdateStates] else [];
    var steps := [DisconnectFirst, Scan, DiscoverCharacteristics, RegisterDisconnectHandler, WaitForConnection] + early
                 + [Authenticate(key.value), SubscribeStatus, SubscribeSlider, SubscribeCapsules];
    assert forall i :: 0 <= i < |steps| ==> steps[i] != SubscribeResponse;
  }

  /**
   * The intended `connect`, with the capsule notifications enabled like the
   * other three, takes the steps the as-written one starts and then
   * subscribes to the response and reads the states; the two differ only
   * for a new session.
   */
  lemma ConnectPlanCompletes(connected: bool, pairingFix: bool, key: Result<Buffer, HexError>)
    ensures ConnectPlan(connected, pairingFix, key).None? <==> ConnectAsWritten(connected, pairingFix, key).None?
    ensures connected ==> ConnectAsWritten(connected, pairingFix, key) == Some((ConnectPlan(connected, pairingFix, key).value, true))
    ensures !connected && key.Success? ==>
      && !ConnectAsWritten(connected, pairingFix, key).value.1
      && ConnectPlan(connected, pairingFix, key).value
         == ConnectAsWritten(connected, pairingFix, key).value.0 + [SubscribeResponse, UpdateStates]
  {
  }

  /** Reachability: connected wins; without a disconnection time it is false; otherwise strictly under five minutes. */
  lemma ReachableIff(s: Session, now: int)
    ensures ConnectedSession(s) ==> Reachable(s, now)
    ensures !ConnectedSession(s) && s.lastContact.None? ==> !Reachable(s, now)
    ensures !ConnectedSession(s) && s.lastContact.Some? ==> (Reachable(s, now) <==> now - s.lastContact.value < 300000)
  {
  }

  /** Exactly five minutes after the disconnection the machine no longer counts as reachable. */
  lemma ReachabilityExpires(s: Session, now: int)
    ensures Reachable(AfterDisconnectEvent(s, now), now + 299999)
    ensures !Reachable(AfterDisconnectEvent(s, now), now + 300000)
  {
  }

  /** `disconnect` clears exactly the peripheral and the last brew, and a second call changes nothing. */
  lemma DisconnectProperties(s: Session)
    ensures AfterDisconnect(s).peripheral.None? && AfterDisconnect(s).lastBrew.None?
    ensures AfterDisconnect(s).lastStatus == s.lastStatus && AfterDisconnect(s).scanning == s.scanning
    ensures AfterDisconnect(s).lastContact == s.lastContact
    ensures AfterDisconnect(AfterDisconnect(s)) == AfterDisconnect(s)
    ensures !ConnectedSession(AfterDisconnect(s))
  {
  }

  /**
   * After a disconnection the session is not connected, nothing counts as
   * brewing, and the machine is reachable exactly until five minutes have passed.
   */
  lemma DisconnectEventProperties(s: Session, now: int, coffee: CoffeeType, isBrewing: MachineStatuses.MachineStatus -> bool)
    ensures !ConnectedSession(AfterDisconnectEvent(s, now))
    ensures !IsBrewing(AfterDisconnectEvent(s, now), coffee, isBrewing)
    ensures AfterDisconnectEvent(s, now).lastContact == Some(now)
    ensures AfterDisconnectEvent(s, now).(peripheral := s.peripheral, lastContact := s.lastContact, lastBrew := s.lastBrew) == s
    ensures forall t :: Reachable(AfterDisconnectEvent(s, now), t) <==> t < now + 300000
  {
  }

  /**
   * A session that connects and then loses the link at `t` is reachable at
   * `u` exactly when `u` is less than five minutes after `t`.
   */
  lemma ConnectThenDrop(s: Session, t: int, u: int)
    ensures ConnectedSession(AfterConnect(s))
    ensures Reachable(AfterDisconnectEvent(AfterConnect(s), t), u) <==> u < t + 300000
  {
  }

  /** With the gate closed nothing is sent, nothing is returned and nothing counts as brewing. */
  lemma BrewGateClosed(s: Session, coffee: CoffeeType, temperature: TemperatureType,
                       readyToBrew: MachineStatuses.MachineStatus -> bool, reply: Buffer, isBrewing: MachineStatuses.MachineStatus -> bool)
    requires !BrewGate(s, readyToBrew)
    ensures BrewResult(s, coffee, temperature, readyToBrew, reply).1.None?
    ensures BrewResult(s, coffee, temperature, readyToBrew, reply).0 == s.(lastBrew := None)
    ensures forall c :: !IsBrewing(BrewResult(s, coffee, temperature, readyToBrew, reply).0, c, isBrewing)
  {
  }

  /** With the gate open the brew command is answered, the status is cleared and the coffee counts as brewing iff the reply says success. */
  lemma BrewGateOpen(s: Session, coffee: CoffeeType, temperature: TemperatureType,
                     readyToBrew: MachineStatuses.MachineStatus -> bool, reply: Buffer, isBrewing: MachineStatuses.MachineStatus -> bool)
    requires BrewGate(s, readyToBrew)
    ensures var (t, r) := BrewResult(s, coffee, temperature, readyToBrew, reply);
      && r == Some(Responses.Expected(reply, BrewCommand(coffee, temperature)))
      && t.lastStatus.None?
      && (IsBrewing(t, coffee, isBrewing) <==> r.value.success)
      && t.(lastStatus := s.lastStatus, lastBrew := s.lastBrew) == s
  {
  }

  /** A reply to some other frame is never a successful brew. */
  lemma BrewWrongReply(s: Session, coffee: CoffeeType, temperature: TemperatureType,
                       readyToBrew: MachineStatuses.MachineStatus -> bool, reply: Buffer)
    requires !Responses.FrameMatches(reply, BrewCommand(coffee, temperature))
    ensures BrewResult(s, coffee, temperature, readyToBrew, reply).0.lastBrew.None?
  {
  }

  /** The plan of `connect`: its shape in each case. */
  lemma ConnectPlanShape(connected: bool, pairingFix: bool, key: Result<Buffer, HexError>)
    ensures connected ==> ConnectPlan(connected, pairingFix, key) == Some([DiscoverCharacteristics])
    ensures !connected ==> (ConnectPlan(connected, pairingFix, key).None? <==> key.Failure?)
    ensures var p := ConnectPlan(connected, pairingFix, key);
      !connected && p.Some? ==>
        && |p.value| == (if pairingFix then 12 else 11)
        && p.value[0] == DisconnectFirst
        && p.value[|p.value| - 1] == UpdateStates
        && p.value[|p.value| - 6] == Authenticate(key.value)
        && (pairingFix <==> p.value[5] == UpdateStates)
  {
  }

  /**
   * `sendBrewCommand` with the machine's reply: the hex command is turned
   * into the frame by `generateBuffer`, and the reply is decoded against the
   * frame that was sent.
   */
  method SendBrewCommand(coffee: CoffeeType, temperature: TemperatureType, reply: Buffer)
    returns (response: Responses.ResponseStatus)
    ensures response == Responses.Expected(reply, BrewCommand(coffee, temperature))
  {
    var buffer := GenerateBuffer(Command(coffee, temperature));
    BrewCommandDecodes(coffee, temperature);
    var command := buffer.value;
    response := Responses.Decode(reply, command);
  }

  /**
   * The controller's fields. The peripheral is reduced to its connection
   * state; times are milliseconds supplied by the caller.
   */
  class MachineController {
    const token: Option<string>
    var peripheral: Option<PeripheralState>
    var lastBrew: Option<CoffeeType>
    var lastStatus: Option<MachineStatuses.MachineStatus>
    var scanning: bool
    var lastContact: Option<int>

    constructor(token: Option<string>)
      ensures this.token == token && State() == Initial
    {
      this.token := token;
      peripheral := None;
      lastBrew := None;
      lastStatus := None;
      scanning := false;
      lastContact := None;
    }

    function State(): Session
      reads this
    {
      Session(peripheral, lastBrew, lastStatus, scanning, lastContact)
    }

    function IsConnected(): (r: bool)
      reads this
      ensures r <==> ConnectedSession(State())
    {
      peripheral == Some(PeripheralState.Connected) || peripheral == Some(Connecting)
    }

    function IsReachable(now: int): (r: bool)
      reads this
      ensures r <==> Reachable(State(), now)
    {
      if IsConnected() then true
      else if lastContact.None? then false
      else now - lastContact.value < UnreachableTimeoutMs
    }

    function IsScanning(): (r: bool)
      reads this
      ensures r == State().scanning
    {
      scanning
    }

    method Disconnect()
      modifies this
      ensures State() == AfterDisconnect(old(State()))
    {
      peripheral := None;
      lastBrew := None;
    }

    /** The peripheral's 'disconnect' handler; the delayed reconnect it schedules is not modelled. */
    method OnDisconnected(now: int)
      modifies this
      ensures State() == AfterDisconnectEvent(old(State()), now)
    {
      peripheral := Some(Disconnected);
      lastContact := Some(now);
      lastBrew := None;
    }

    /** A status frame arriving on the status characteristic. */
    method OnStatusData(data: Buffer)
      modifies this
      ensures State() == old(State()).(lastStatus := Some(MachineStatuses.Expected(data)))
    {
      var status := MachineStatuses.Decode(data);
      lastStatus := Some(status);
    }

    /**
     * `connect`, with the Bluetooth traffic replaced by the list of steps it
     * takes. `pairingFix` is what `needsPairingFix` reports for the host
     * platform. `None` is the rejection a token of odd length causes.
     */
    method Connect(pairingFix: bool) returns (plan: Option<seq<ConnectStep>>)
      modifies this
      ensures plan == ConnectPlan(old(ConnectedSession(State())), pairingFix, GenerateKey(token))
      ensures State() == AfterConnect(old(State()))
    {
      if IsConnected() {
        return Some([DiscoverCharacteristics]);
      }
      Disconnect();
      var steps := [DisconnectFirst];
      scanning := true;
      steps := steps + [Scan];
      scanning := false;
      peripheral := Some(PeripheralState.Connected);
      steps := steps + [DiscoverCharacteristics, RegisterDisconnectHandler, WaitForConnection];
      if pairingFix {
        steps := steps + [UpdateStates];
      }
      var key := GenerateKey(token);
      if key.Failure? {
        return None;
      }
      steps := steps + [Authenticate(key.value), SubscribeStatus, SubscribeSlider, SubscribeCapsules, SubscribeResponse];
      steps := steps + [UpdateStates];
      assert steps == [DisconnectFirst, Scan, DiscoverCharacteristics, RegisterDisconnectHandler, WaitForConnection]
        + (if pairingFix then [UpdateStates] else [])
        + [Authenticate(key.value), SubscribeStatus, SubscribeSlider, SubscribeCapsules, SubscribeResponse, UpdateStates];
      plan := Some(steps);
    }

    /**
     * `brew` from the point where its connection is up; `reply` is the frame
     * the response characteristic delivers. The reconnect it then starts
     * without waiting is not part of this call.
     */
    method Brew(coffee: CoffeeType, temperature: TemperatureType,
                readyToBrew: MachineStatuses.MachineStatus -> bool, reply: Buffer)
      returns (r: Option<Responses.ResponseStatus>)
      modifies this
      ensures State() == BrewResult(old(State()), coffee, temperature, readyToBrew, reply).0
      ensures r == BrewResult(old(State()), coffee, temperature, readyToBrew, reply).1
    {
      if lastStatus.Some? && readyToBrew(lastStatus.value) {
        lastStatus := None;
        var response := SendBrewCommand(coffee, temperature, reply);
        lastBrew := if response.success then Some(coffee) else None;
        return Some(response);
      }
      lastBrew := None;
      return None;
    }

    /** `cancel` from the point where its connection is up. */
    method Cancel(reply: Buffer) returns (r: Responses.ResponseStatus)
      modifies this
      ensures (State(), r) == CancelResult(old(State()), reply)
    {
      lastStatus := None;
      r := Responses.Decode(reply, CancelCommand);
    }
  }
}
