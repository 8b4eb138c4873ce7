/**
 * The accessory layer: the connection watchdog, the read and write
 * handlers of the coffee switches, and the mapping from machine reports to
 * the contact sensors and the capsule "battery". Characteristic values are
 * the fields of a small class; the home-automation bridge is not modelled.
 */
module PlatformAccessories {
  import opened Wrappers
  import opened CoffeeTypes
  import opened MachineControllers
  import MachineStatuses
  import Responses
  import CapsuleCounts
  import SliderStatuses

  /** What one tick of the watchdog finds, in the order it checks. */
  datatype WatchOutcome = StillConnected | DisconnectedButReachable | StillScanning | Reconnect

  /** `watch`: connected, else reachable, else scanning, else reconnect. */
  function Watch(s: Session, now: int): (w: WatchOutcome)
    ensures w == Reconnect <==> !Reachable(s, now) && !s.scanning
    ensures w == StillConnected <==> ConnectedSession(s)
  {
    if ConnectedSession(s) then StillConnected
    else if Reachable(s, now) then DisconnectedButReachable
    else if s.scanning then StillScanning
    else Reconnect
  }

  /**
   * After the machine drops the connection at `t` and nothing reconnects,
   * the watchdog waits five minutes and then asks for one reconnect, unless a
   * scan is under way.
   */
  lemma WatchAfterDisconnect(s: Session, t: int, now: int)
    ensures now < t + UnreachableTimeoutMs ==> Watch(AfterDisconnectEvent(s, t), now) == DisconnectedButReachable
    ensures now >= t + UnreachableTimeoutMs ==>
      Watch(AfterDisconnectEvent(s, t), now) == (if s.scanning then StillScanning else Reconnect)
  {
  }

  /** The two values of a contact sensor. */
  datatype ContactState = ContactDetected | ContactNotDetected {
    function Value(): int {
      match this
      case ContactDetected => 0
      case ContactNotDetected => 1
    }
  }

  /** `boolToContactState`: true is 'not detected', false is 'detected'. */
  function BoolToContactState(value: bool): (c: ContactState)
    ensures c == ContactNotDetected <==> value
    ensures c.Value() == if value then 1 else 0
  {
    if value then ContactNotDetected else ContactDetected
  }

  /**
   * A configured number as JavaScript sees it: `NaN` (which `isNaN` also
   * reports for a missing value) or a number.
   */
  datatype Number = NaN | Num(value: real)

  /** `normalizedMaxCapsuleCount`: NaN and non-positive counts are 0, counts above 1000 are 1000. */
  function NormalizedMaxCapsuleCount(configured: Number): (r: real)
    ensures 0.0 <= r <= 1000.0
    ensures configured.NaN? || configured.value <= 0.0 ==> r == 0.0
    ensures configured.Num? && configured.value > 1000.0 ==> r == 1000.0
    ensures configured.Num? && 0.0 < configured.value <= 1000.0 ==> r == configured.value
  {
    if configured.NaN? || configured.value <= 0.0 then 0.0
    else if configured.value > 1000.0 then 1000.0
    else configured.value
  }

  /** Normalising twice is normalising once. */
  lemma NormalizedIdempotent(configured: Number)
    ensures NormalizedMaxCapsuleCount(Num(NormalizedMaxCapsuleCount(configured))) == NormalizedMaxCapsuleCount(configured)
  {
  }

  /** What `updateCapsuleService` writes to the battery service. */
  datatype BatteryReading = BatteryReading(level: int, low: bool)

  /**
   * The battery update for a normalised maximum `maxCount`. The percentage
   * of capsules left is computed in floating point by the source, so it is
   * an input here: it is clamped into 0..100 and is low below 10. A maximum
   * of 0 always reads full and normal.
   */
  function BatteryUpdate(maxCount: real, percentage: int): (b: BatteryReading)
    ensures 0 <= b.level <= 100
    ensures maxCount == 0.0 ==> b == BatteryReading(100, false)
    ensures maxCount != 0.0 ==> (b.low <==> percentage < 10)
    ensures maxCount != 0.0 && 0 <= percentage <= 100 ==> b.level == percentage
  {
    if maxCount == 0.0 then BatteryReading(100, false)
    else BatteryReading(if percentage <= 0 then 0 else if percentage >= 100 then 100 else percentage, percentage < 10)
  }

  /** A high level is never reported low, and a percentage below 10 always is (with a maximum set). */
  lemma BatteryConsistent(maxCount: real, percentage: int)
    requires maxCount != 0.0
    ensures BatteryUpdate(maxCount, percentage).level >= 10 ==> !BatteryUpdate(maxCount, percentage).low
    ensures BatteryUpdate(maxCount, percentage).low ==> BatteryUpdate(maxCount, percentage).level < 10
  {
  }

  /** The errors `controlMachine` and `getOn` throw at the bridge. */
  datatype HapError = NotAllowedInCurrentState | ServiceCommunicationFailure

  /**
   * `controlMachine` given the controller's answer (brew when `value`,
   * cancel otherwise): no answer, or a failed brew, turns the switch off and
   * is an error.
   */
  function ControlOutcome(value: bool, response: Option<Responses.ResponseStatus>): (r: Result<(), HapError>)
    ensures r.Failure? <==> response.None? || (value && !response.value.success)
    ensures r.Failure? ==> r.error == NotAllowedInCurrentState
  {
    if response.None? then Failure(NotAllowedInCurrentState)
    else if value && !response.value.success then Failure(NotAllowedInCurrentState)
    else Success(())
  }

  /** A cancel that got any answer never fails, whatever the answer says. */
  lemma CancelNeverFails(response: Responses.ResponseStatus)
    ensures ControlOutcome(false, Some(response)).Success?
  {
  }

  /** A brew succeeds at the bridge exactly when the machine's reply says success. */
  lemma BrewOutcomeIff(response: Option<Responses.ResponseStatus>)
    ensures ControlOutcome(true, response).Success? <==> response.Some? && response.value.success
  {
  }

  /**
   * `getOn`: refused as a communication failure when the machine is not
   * reachable; otherwise whether the controller reports the coffee as brewing.
   */
  function GetOn(s: Session, now: int, coffee: CoffeeType, isBrewing: MachineStatuses.MachineStatus -> bool): (r: Result<bool, HapError>)
    ensures r.Failure? <==> !Reachable(s, now)
    ensures r.Failure? ==> r.error == ServiceCommunicationFailure
    ensures r.Success? ==> (r.value <==> s.lastBrew == Some(coffee))
  {
    if !Reachable(s, now) then Failure(ServiceCommunicationFailure)
    else Success(IsBrewing(s, coffee, isBrewing))
  }

  /** While connected the switch reads exactly the last successful brew. */
  lemma GetOnConnected(s: Session, now: int, coffee: CoffeeType, isBrewing: MachineStatuses.MachineStatus -> bool)
    requires ConnectedSession(s)
    ensures GetOn(s, now, coffee, isBrewing) == Success(s.lastBrew == Some(coffee))
  {
  }

  /** The characteristic values the accessory writes. */
  class Characteristics {
    var sliderContact: ContactState
    var brewingContact: ContactState
    var noWaterContact: ContactState
    var trayErrorContact: ContactState
    var descalingContact: ContactState
    var capsuleContact: ContactState
    var battery: BatteryReading
    /** The `On` value of each coffee switch the accessory has. */
    var switches: map<CoffeeType, bool>

    /**
     * The characteristics of an accessory once `initServices` has run:
     * `switches` holds the coffee services it left in place. The sensor and
     * battery values are placeholders until the first notification.
     */
    constructor(switches: map<CoffeeType, bool>)
      ensures this.switches == switches
    {
      this.switches := switches;
      sliderContact := ContactDetected;
      brewingContact := ContactDetected;
      noWaterContact := ContactDetected;
      trayErrorContact := ContactDetected;
      descalingContact := ContactDetected;
      capsuleContact := ContactDetected;
      battery := BatteryReading(100, false);
    }

    /** `updateSliderService`: the slider sensor reports 'not detected' when the slider is open. */
    method UpdateSlider(status: SliderStatuses.SliderStatus)
      modifies this
      ensures sliderContact == BoolToContactState(!status.closed)
      ensures sliderContact == ContactDetected <==> status.closed
      ensures brewingContact == old(brewingContact) && noWaterContact == old(noWaterContact)
      ensures trayErrorContact == old(trayErrorContact) && descalingContact == old(descalingContact)
      ensures capsuleContact == old(capsuleContact) && battery == old(battery) && switches == old(switches)
    {
      sliderContact := BoolToContactState(!status.closed);
    }

    /**
     * The 'status' handler: the brewing, no-water, tray and descaling
     * sensors follow the status predicates, supplied by the caller.
     */
    method UpdateStatus(status: MachineStatuses.MachineStatus,
                        isBrewing: MachineStatuses.MachineStatus -> bool,
                        noWater: MachineStatuses.MachineStatus -> bool,
                        trayError: MachineStatuses.MachineStatus -> bool,
                        needsDescaling: MachineStatuses.MachineStatus -> bool)
      modifies this
      ensures noWaterContact == BoolToContactState(noWater(status))
      ensures trayErrorContact == BoolToContactState(trayError(status))
      ensures brewingContact == BoolToContactState(isBrewing(status))
      ensures descalingContact == BoolToContactState(needsDescaling(status))
      ensures sliderContact == old(sliderContact) && capsuleContact == old(capsuleContact)
      ensures battery == old(battery) && switches == old(switches)
    {
      noWaterContact := BoolToContactState(noWater(status));
      trayErrorContact := BoolToContactState(trayError(status));
      brewingContact := BoolToContactState(isBrewing(status));
      descalingContact := BoolToContactState(needsDescaling(status));
    }

    /**
     * `updateCapsuleService`: the 'no capsules' sensor reports 'not detected'
     * exactly when no capsule is left; the battery follows `BatteryUpdate`,
     * with the early return for an unset maximum.
     */
    method UpdateCapsules(count: CapsuleCounts.CapsuleCount, configuredMax: Number, percentage: int)
      modifies this
      ensures capsuleContact == BoolToContactState(count.capsulesLeft == 0)
      ensures capsuleContact == ContactNotDetected <==> count.capsulesLeft == 0
      ensures battery == BatteryUpdate(NormalizedMaxCapsuleCount(configuredMax), percentage)
      ensures sliderContact == old(sliderContact) && brewingContact == old(brewingContact)
      ensures noWaterContact == old(noWaterContact) && trayErrorContact == old(trayErrorContact)
      ensures descalingContact == old(descalingContact) && switches == old(switches)
    {
      capsuleContact := BoolToContactState(count.capsulesLeft == 0);
      var maxCount := NormalizedMaxCapsuleCount(configuredMax);
      if maxCount == 0.0 {
        battery := battery.(level := 100);
        battery := battery.(low := false);
        return;
      }
      var level := if percentage <= 0 then 0 else if percentage >= 100 then 100 else percentage;
      battery := battery.(level := level);
      battery := battery.(low := percentage < 10);
    }

    /**
     * `controlMachine` once the controller has answered: on failure the
     * coffee's switch, when the accessory has one, is turned off.
     */
    method ControlMachine(value: bool, coffee: CoffeeType, response: Option<Responses.ResponseStatus>)
      returns (r: Result<(), HapError>)
      modifies this
      ensures r == ControlOutcome(value, response)
      ensures r.Failure? && coffee in old(switches) ==> switches == old(switches)[coffee := false]
      ensures r.Success? || coffee !in old(switches) ==> switches == old(switches)
      ensures sliderContact == old(sliderContact) && brewingContact == old(brewingContact)
      ensures noWaterContact == old(noWaterContact) && trayErrorContact == old(trayErrorContact)
      ensures descalingContact == old(descalingContact) && capsuleContact == old(capsuleContact)
      ensures battery == old(battery)
    {
      if response.None? {
        if coffee in switches {
          switches := switches[coffee := false];
        }
        return Failure(NotAllowedInCurrentState);
      }
      if value && !response.value.success {
        if coffee in switches {
          switches := switches[coffee := false];
        }
        return Failure(NotAllowedInCurrentState);
      }
      return Success(());
    }
  }
}
