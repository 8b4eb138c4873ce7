/**
 * The platform: accessories restored from the bridge's cache, and the
 * reconciliation of the configured machines against them at launch. The
 * bridge's register, restore and unregister calls are the events the
 * reconciliation emits. Of the accessory objects it builds, only whether
 * their construction returns is modelled.
 */
module Platforms {
  import opened Wrappers
  import PlatformAccessories
  import ServiceControllers

  /** One configured machine. */
  datatype DeviceConfig = DeviceConfig(
    displayName: Option<string>,
    name: string,
    token: Option<string>,
    temperature: string,
    disabledBeverages: seq<string>,
    maxCapsuleCount: PlatformAccessories.Number)

  /** A cached accessory: its uuid and the device record in its context. */
  datatype CachedAccessory = CachedAccessory(uuid: string, device: DeviceConfig)

  /** What `addDevices` asks of the bridge, in order. */
  datatype PlatformEvent =
    | Restored(uuid: string, device: DeviceConfig)
    | Registered(uuid: string, device: DeviceConfig)
    | InvalidName
    | BuildFailed(uuid: string)
    | Unregistered(uuid: string)

  /** `devicesMap`: each configured name to its token; a later entry for a name replaces an earlier one. */
  function DevicesMap(configs: seq<DeviceConfig>): (m: map<string, Option<string>>)
    ensures forall i :: 0 <= i < |configs| ==> configs[i].name in m
    ensures configs != [] ==> m[configs[|configs| - 1].name] == configs[|configs| - 1].token
  {
    if configs == [] then map[]
    else
      var last := configs[|configs| - 1];
      DevicesMap(configs[..|configs| - 1])[last.name := last.token]
  }

  /** A name maps to the token of the last configured device with that name, and unconfigured names are absent. */
  lemma {:induction false} DevicesMapLast(configs: seq<DeviceConfig>, name: string)
    ensures (forall i :: 0 <= i < |configs| ==> configs[i].name != name) <==> name !in DevicesMap(configs)
    ensures forall k :: 0 <= k < |configs| && configs[k].name == name && (forall j :: k < j < |configs| ==> configs[j].name != name) ==>
              name in DevicesMap(configs) && DevicesMap(configs)[name] == configs[k].token
  {
    if configs != [] {
      var n := |configs| - 1;
      DevicesMapLast(configs[..n], name);
      assert forall i :: 0 <= i < n ==> configs[..n][i] == configs[i];
    }
  }

  /** Whether JavaScript reads the looked-up token as true: present and non-empty. */
  predicate Truthy(token: Option<string>) {
    token.Some? && token.value != ""
  }

  function Lookup(m: map<string, Option<string>>, name: string): Option<string> {
    if name in m then m[name] else None
  }

  /** `accessories.find(a => a.UUID === uuid)`: the first accessory with that uuid. */
  function FirstMatch(accessories: seq<CachedAccessory>, uuid: string): (r: Option<nat>)
    ensures r.Some? ==> r.value < |accessories| && accessories[r.value].uuid == uuid
    ensures r.Some? ==> forall j :: 0 <= j < r.value ==> accessories[j].uuid != uuid
    ensures r.None? ==> forall j :: 0 <= j < |accessories| ==> accessories[j].uuid != uuid
  {
    if accessories == [] then None
    else if accessories[0].uuid == uuid then Some(0)
    else
      match FirstMatch(accessories[1..], uuid)
      case None => None
      case Some(j) => Some(j + 1)
  }

  /** Where `addDevices` has got to: the cached accessories, the events so far, and whether it returned early. */
  datatype Progress = Progress(accessories: seq<CachedAccessory>, events: seq<PlatformEvent>, stopped: bool)

  /**
   * The event of a placed device: a restore or a registration, never both,
   * under the uuid of its name, and a restore exactly when a cached
   * accessory has that uuid.
   */
  predicate PlacedEvent(e: PlatformEvent, accessories: seq<CachedAccessory>, device: DeviceConfig, generate: string -> string) {
    && (e.Restored? || e.Registered?)
    && e.uuid == generate(device.name) && e.device == device
    && (e.Restored? <==> exists j :: 0 <= j < |accessories| && accessories[j].uuid == generate(device.name))
  }

  /**
   * One configured device: a cached accessory with its uuid gets the device
   * record and is restored; otherwise a new accessory is registered.
   */
  function Place(accessories: seq<CachedAccessory>, device: DeviceConfig, generate: string -> string): (r: (seq<CachedAccessory>, PlatformEvent))
    ensures |r.0| == |accessories|
    ensures forall i :: 0 <= i < |accessories| ==> r.0[i].uuid == accessories[i].uuid
    ensures PlacedEvent(r.1, accessories, device, generate)
  {
    var uuid := generate(device.name);
    match FirstMatch(accessories, uuid)
    case Some(i) => (accessories[i := accessories[i].(device := device)], Restored(uuid, device))
    case None => (accessories, Registered(uuid, device))
  }

  /**
   * Whether `new ExpertPlatformAccessory` returns for the device: its
   * `ServiceController` runs `initServices`, which throws for a name
   * without '_' (BuildsIff).
   */
  predicate Builds(device: DeviceConfig)
    ensures Builds(device) ==> device.name != ""
  {
    '_' in device.name
  }

  /** The construction returns exactly when `initServices` reads the device name. */
  lemma BuildsIff(device: DeviceConfig)
    ensures Builds(device) <==> ServiceControllers.ParseDeviceName(device.name, device.displayName).Success?
  {
  }

  /**
   * The first loop of `addDevices` over the configured devices: an empty
   * name returns early; otherwise the device is placed, and an accessory
   * whose construction throws ends `addDevices` before the bridge hears of
   * it (the restored entry keeps the device record it was just given).
   */
  function Process(accessories: seq<CachedAccessory>, configs: seq<DeviceConfig>, generate: string -> string): (p: Progress)
    ensures |p.accessories| == |accessories|
    ensures forall i :: 0 <= i < |accessories| ==> p.accessories[i].uuid == accessories[i].uuid
    ensures forall e :: e in p.events ==> !e.Unregistered?
  {
    if configs == [] then Progress(accessories, [], false)
    else
      var p := Process(accessories, configs[..|configs| - 1], generate);
      var device := configs[|configs| - 1];
      if p.stopped then p
      else if device.name == "" then Progress(p.accessories, p.events + [InvalidName], true)
      else
        var (a, e) := Place(p.accessories, device, generate);
        if Builds(device) then Progress(a, p.events + [e], false)
        else Progress(a, p.events + [BuildFailed(generate(device.name))], true)
  }

  /** The second loop: each cached accessory whose device name looks up a falsy token is unregistered. */
  function Removals(accessories: seq<CachedAccessory>, devices: map<string, Option<string>>): (r: seq<PlatformEvent>)
    ensures forall e :: e in r ==> e.Unregistered?
  {
    if accessories == [] then []
    else
      var last := accessories[|accessories| - 1];
      Removals(accessories[..|accessories| - 1], devices)
        + (if Truthy(Lookup(devices, last.device.name)) then [] else [Unregistered(last.uuid)])
  }

  /** `addDevices`: the cached accessories afterwards and the events, in order. */
  function Reconcile(accessories: seq<CachedAccessory>, configs: seq<DeviceConfig>, generate: string -> string): (r: (seq<CachedAccessory>, seq<PlatformEvent>))
    ensures |r.0| == |accessories|
    ensures forall i :: 0 <= i < |accessories| ==> r.0[i].uuid == accessories[i].uuid
    ensures Process(accessories, configs, generate).stopped ==> forall e :: e in r.1 ==> !e.Unregistered?
    ensures |r.1| >= |Process(accessories, configs, generate).events|
  {
    var p := Process(accessories, configs, generate);
    if p.stopped then (p.accessories, p.events)
    else (p.accessories, p.events + Removals(p.accessories, DevicesMap(configs)))
  }

  /** Once the loop has returned early, later devices change nothing. */
  lemma {:induction false} StoppedStays(accessories: seq<CachedAccessory>, configs: seq<DeviceConfig>, generate: string -> string, k: nat)
    requires k <= |configs| && Process(accessories, configs[..k], generate).stopped
    ensures Process(accessories, configs, generate) == Process(accessories, configs[..k], generate)
    decreases |configs| - k
  {
    if k < |configs| {
      var n := |configs| - 1;
      if k < n {
        assert configs[..n][..k] == configs[..k];
        StoppedStays(accessories, configs[..n], generate, k);
      } else {
        assert configs[..n] == configs[..k];
      }
    } else {
      assert configs[..k] == configs;
    }
  }

  /**
   * The loop runs to the end exactly when every configured name contains
   * '_', and then gives one event per configured device.
   */
  lemma {:induction false} ProcessShape(accessories: seq<CachedAccessory>, configs: seq<DeviceConfig>, generate: string -> string)
    ensures !Process(accessories, configs, generate).stopped <==> forall i :: 0 <= i < |configs| ==> '_' in configs[i].name
    ensures !Process(accessories, configs, generate).stopped ==> |Process(accessories, configs, generate).events| == |configs|
  {
    if configs != [] {
      var n := |configs| - 1;
      assert forall i :: 0 <= i < n ==> configs[..n][i] == configs[i];
      ProcessShape(accessories, configs[..n], generate);
      assert '_' !in "";
    }
  }

  /** Two lists with the same uuids at every position hold the same uuids. */
  lemma SameUuids(xs: seq<CachedAccessory>, ys: seq<CachedAccessory>, uuid: string)
    requires |xs| == |ys| && forall i :: 0 <= i < |ys| ==> xs[i].uuid == ys[i].uuid
    ensures (exists j :: 0 <= j < |xs| && xs[j].uuid == uuid) <==> (exists j :: 0 <= j < |ys| && ys[j].uuid == uuid)
  {
    if exists j :: 0 <= j < |xs| && xs[j].uuid == uuid {
      var j :| 0 <= j < |xs| && xs[j].uuid == uuid;
      assert ys[j].uuid == uuid;
    }
  }

  /** When every name contains '_', the last device adds its placement to a loop that ran to the end. */
  lemma ProcessLast(accessories: seq<CachedAccessory>, configs: seq<DeviceConfig>, generate: string -> string)
    requires configs != [] && forall k :: 0 <= k < |configs| ==> '_' in configs[k].name
    ensures var init := Process(accessories, configs[..|configs| - 1], generate);
      var placed := Place(init.accessories, configs[|configs| - 1], generate);
      && !init.stopped && |init.events| == |configs| - 1
      && Process(accessories, configs, generate) == Progress(placed.0, init.events + [placed.1], false)
  {
    var n := |configs| - 1;
    assert forall k :: 0 <= k < n ==> configs[..n][k] == configs[k];
    ProcessShape(accessories, configs[..n], generate);
  }

  /**
   * When every name contains '_', the event of device `i` is a restore or a
   * registration, never both, under the uuid of its name: a restore exactly
   * when a cached accessory has that uuid.
   */
  lemma {:induction false} ProcessEventAt(accessories: seq<CachedAccessory>, configs: seq<DeviceConfig>, generate: string -> string, i: nat)
    requires forall k :: 0 <= k < |configs| ==> '_' in configs[k].name
    requires i < |configs|
    ensures |Process(accessories, configs, generate).events| == |configs|
    ensures PlacedEvent(Process(accessories, configs, generate).events[i], accessories, configs[i], generate)
  {
    var n := |configs| - 1;
    var init := configs[..n];
    ProcessLast(accessories, configs, generate);
    if i < n {
      assert forall k :: 0 <= k < n ==> init[k] == configs[k];
      ProcessEventAt(accessories, init, generate, i);
      var before := Process(accessories, init, generate).events;
      assert Process(accessories, configs, generate).events[i] == before[i];
    } else {
      ProcessEventLast(accessories, configs, generate);
    }
  }

  /** The event of the last device, when every name contains '_'. */
  lemma ProcessEventLast(accessories: seq<CachedAccessory>, configs: seq<DeviceConfig>, generate: string -> string)
    requires configs != [] && forall k :: 0 <= k < |configs| ==> '_' in configs[k].name
    ensures |Process(accessories, configs, generate).events| == |configs|
    ensures PlacedEvent(Process(accessories, configs, generate).events[|configs| - 1], accessories, configs[|configs| - 1], generate)
  {
    var n := |configs| - 1;
    ProcessLast(accessories, configs, generate);
    var p := Process(accessories, configs[..n], generate);
    SameUuids(p.accessories, accessories, generate(configs[n].name));
  }

  /**
   * An empty name at position `k`, after names that all contain '_', ends
   * `addDevices` there: the devices before it are handled, it logs an
   * error, and no accessory is unregistered.
   */
  lemma StopAtEmptyName(accessories: seq<CachedAccessory>, configs: seq<DeviceConfig>, generate: string -> string, k: nat)
    requires k < |configs| && configs[k].name == ""
    requires forall i :: 0 <= i < k ==> '_' in configs[i].name
    ensures var before := Process(accessories, configs[..k], generate);
      Reconcile(accessories, configs, generate) == (before.accessories, before.events + [InvalidName])
    ensures forall e :: e in Reconcile(accessories, configs, generate).1 ==> !e.Unregistered?
  {
    assert configs[..k + 1][..k] == configs[..k];
    assert forall i :: 0 <= i < k ==> configs[..k][i] == configs[i];
    ProcessShape(accessories, configs[..k], generate);
    var before := Process(accessories, configs[..k], generate);
    assert Process(accessories, configs[..k + 1], generate) == Progress(before.accessories, before.events + [InvalidName], true);
    StoppedStays(accessories, configs, generate, k + 1);
  }

  /**
   * A non-empty name without '_' at position `k`, after names that all
   * contain '_', ends `addDevices` there: its accessory is placed, its
   * construction throws before the bridge is told, and no accessory is
   * unregistered.
   */
  lemma StopAtUnreadableName(accessories: seq<CachedAccessory>, configs: seq<DeviceConfig>, generate: string -> string, k: nat)
    requires k < |configs| && configs[k].name != "" && '_' !in configs[k].name
    requires forall i :: 0 <= i < k ==> '_' in configs[i].name
    ensures var before := Process(accessories, configs[..k], generate);
      Reconcile(accessories, configs, generate)
        == (Place(before.accessories, configs[k], generate).0, before.events + [BuildFailed(generate(configs[k].name))])
    ensures forall e :: e in Reconcile(accessories, configs, generate).1 ==> !e.Unregistered?
  {
    assert configs[..k + 1][..k] == configs[..k];
    assert forall i :: 0 <= i < k ==> configs[..k][i] == configs[i];
    ProcessShape(accessories, configs[..k], generate);
    var before := Process(accessories, configs[..k], generate);
    assert !Builds(configs[k]);
    assert Process(accessories, configs[..k + 1], generate)
      == Progress(Place(before.accessories, configs[k], generate).0, before.events + [BuildFailed(generate(configs[k].name))], true);
    StoppedStays(accessories, configs, generate, k + 1);
  }

  /**
   * The first loop as the files have it. Building an accessory calls
   * members that none of the files define: `CoffeeTypeUtils.all` at the
   * end of `initServices`, and then `startWatching` on the controller. So
   * every construction throws, for a name without '_' already when
   * `initServices` reads it, and the first device with a name ends
   * `addDevices`.
   */
  function ProcessAsWritten(accessories: seq<CachedAccessory>, configs: seq<DeviceConfig>, generate: string -> string): (p: Progress)
    ensures p.stopped <==> configs != []
  {
    if configs == [] then Progress(accessories, [], false)
    else if configs[0].name == "" then Progress(accessories, [InvalidName], true)
    else Progress(Place(accessories, configs[0], generate).0, [BuildFailed(generate(configs[0].name))], true)
  }

  /** `addDevices` as the files have it. */
  function ReconcileAsWritten(accessories: seq<CachedAccessory>, configs: seq<DeviceConfig>, generate: string -> string): (r: (seq<CachedAccessory>, seq<PlatformEvent>))
    ensures configs != [] ==> |r.1| == 1 && (r.1[0] == InvalidName || r.1[0].BuildFailed?)
    ensures forall e :: e in r.1 ==> !e.Registered? && !e.Restored?
  {
    var p := ProcessAsWritten(accessories, configs, generate);
    if p.stopped then (p.accessories, p.events)
    else (p.accessories, p.events + Removals(p.accessories, DevicesMap(configs)))
  }

  /**
   * With names that all contain '_', the files as they stand register and
   * restore nothing: the first construction throws. With the members it
   * calls defined, every configured device is restored or registered.
   */
  lemma UndefinedCallsStopAddDevices(accessories: seq<CachedAccessory>, configs: seq<DeviceConfig>, generate: string -> string)
    requires configs != [] && forall k :: 0 <= k < |configs| ==> '_' in configs[k].name
    ensures ReconcileAsWritten(accessories, configs, generate).1 == [BuildFailed(generate(configs[0].name))]
    ensures |Reconcile(accessories, configs, generate).1| >= |configs|
    ensures forall i :: 0 <= i < |configs| ==>
      Reconcile(accessories, configs, generate).1[i].Restored? || Reconcile(accessories, configs, generate).1[i].Registered?
  {
    assert configs[0].name != "";
    ProcessShape(accessories, configs, generate);
    var p := Process(accessories, configs, generate);
    var r := Reconcile(accessories, configs, generate).1;
    assert r == p.events + Removals(p.accessories, DevicesMap(configs));
    forall i | 0 <= i < |configs|
      ensures r[i].Restored? || r[i].Registered?
    {
      ProcessEventAt(accessories, configs, generate, i);
      assert r[i] == p.events[i];
    }
  }

  /**
   * With distinct uuids among the cached accessories, one of them is
   * unregistered exactly when its device name looks up a falsy token.
   */
  lemma {:induction false} RemovalsIff(accessories: seq<CachedAccessory>, devices: map<string, Option<string>>, i: nat)
    requires i < |accessories|
    requires forall j, k :: 0 <= j < k < |accessories| ==> accessories[j].uuid != accessories[k].uuid
    ensures Unregistered(accessories[i].uuid) in Removals(accessories, devices)
        <==> !Truthy(Lookup(devices, accessories[i].device.name))
  {
    var n := |accessories| - 1;
    var init := accessories[..n];
    if i < n {
      RemovalsIff(init, devices, i);
    } else {
      RemovalsAvoid(init, devices, accessories[n].uuid);
    }
  }

  /** Only the uuids of listed accessories are unregistered. */
  lemma {:induction false} RemovalsAvoid(accessories: seq<CachedAccessory>, devices: map<string, Option<string>>, uuid: string)
    requires forall j :: 0 <= j < |accessories| ==> accessories[j].uuid != uuid
    ensures Unregistered(uuid) !in Removals(accessories, devices)
  {
    if accessories != [] {
      RemovalsAvoid(accessories[..|accessories| - 1], devices, uuid);
    }
  }

  /** An accessory registered by this run is never also unregistered by it. */
  lemma RegisteredNotUnregistered(accessories: seq<CachedAccessory>, configs: seq<DeviceConfig>, generate: string -> string, i: nat)
    requires forall k :: 0 <= k < |configs| ==> '_' in configs[k].name
    requires i < |configs| && i < |Process(accessories, configs, generate).events|
    requires Process(accessories, configs, generate).events[i].Registered?
    ensures Unregistered(generate(configs[i].name)) !in Reconcile(accessories, configs, generate).1
  {
    ProcessEventAt(accessories, configs, generate, i);
    var p := Process(accessories, configs, generate);
    var uuid := generate(configs[i].name);
    assert forall j :: 0 <= j < |p.accessories| ==> p.accessories[j].uuid == accessories[j].uuid;
    RemovalsAvoid(p.accessories, DevicesMap(configs), uuid);
  }

  /** The platform plugin's list of cached accessories. */
  class Platform {
    var accessories: seq<CachedAccessory>

    constructor()
      ensures accessories == []
    {
      accessories := [];
    }

    /** `configureAccessory`: a cached accessory is appended to the list. */
    method ConfigureAccessory(accessory: CachedAccessory)
      modifies this
      ensures accessories == old(accessories) + [accessory]
    {
      accessories := accessories + [accessory];
    }

    /**
     * `addDevices` over the configured machines, with `generate` standing
     * for the bridge's uuid generator.
     */
    method AddDevices(configs: seq<DeviceConfig>, generate: string -> string) returns (events: seq<PlatformEvent>)
      modifies this
      ensures (accessories, events) == Reconcile(old(accessories), configs, generate)
      ensures |accessories| == |old(accessories)|
    {
      var devicesMap := DevicesMap(configs);
      events := [];
      for i := 0 to |configs|
        invariant Process(old(accessories), configs[..i], generate) == Progress(accessories, events, false)
      {
        assert configs[..i + 1][..i] == configs[..i];
        var device := configs[i];
        if device.name == "" {
          events := events + [InvalidName];
          StoppedStays(old(accessories), configs, generate, i + 1);
          return;
        }
        var uuid := generate(device.name);
        var found := FirstMatch(accessories, uuid);
        var event := Registered(uuid, device);
        if found.Some? {
          accessories := accessories[found.value := accessories[found.value].(device := device)];
          event := Restored(uuid, device);
        }
        var built := ServiceControllers.ParseDeviceName(device.name, device.displayName);
        BuildsIff(device);
        if built.Failure? {
          events := events + [BuildFailed(uuid)];
          StoppedStays(old(accessories), configs, generate, i + 1);
          return;
        }
        events := events + [event];
      }
      assert configs[..|configs|] == configs;
      var removals := CollectRemovals(accessories, devicesMap);
      events := events + removals;
    }
  }

  /** The second loop of `addDevices`, which reads the accessories and changes nothing. */
  method CollectRemovals(accessories: seq<CachedAccessory>, devicesMap: map<string, Option<string>>) returns (removals: seq<PlatformEvent>)
    ensures removals == Removals(accessories, devicesMap)
  {
    removals := [];
    for j := 0 to |accessories|
      invariant removals == Removals(accessories[..j], devicesMap)
    {
      assert accessories[..j + 1][..j] == accessories[..j];
      if !Truthy(Lookup(devicesMap, accessories[j].device.name)) {
        removals := removals + [Unregistered(accessories[j].uuid)];
      }
    }
    assert accessories[..|accessories|] == accessories;
  }
}
