/**
 * The service controller: reading model and serial number out of the
 * configured device name, and keeping the accessory's services, a map from
 * service uuid to service, in line with the configuration.
 */
module ServiceControllers {
  import opened Wrappers
  import opened Strings
  import opened CoffeeTypes
  import AccessoryUtils

  datatype ServiceKind = ContactSensor | Battery | Switch

  /** A service of the accessory: its kind and displayed name. */
  datatype Service = Service(kind: ServiceKind, name: string)

  /** What the accessory information service is given. */
  datatype DeviceInfo = DeviceInfo(manufacturer: string, model: string, serial: string, displayName: string)

  /** `initServices` throws 'resource does not exist' for a device name it cannot read. */
  datatype NameError = ResourceDoesNotExist

  const DefaultDisplayName: string := "Coffee"

  /**
   * The name split at '_': the first part is the model, the second the
   * serial number; a name without '_' is rejected. The display name
   * defaults to "Coffee".
   */
  function ParseDeviceName(name: string, displayName: Option<string>): (r: Result<DeviceInfo, NameError>)
    ensures r.Failure? <==> '_' !in name
    ensures r.Success? ==> |Split(name, '_')| >= 2 && r.value.model == Split(name, '_')[0] && r.value.serial == Split(name, '_')[1]
    ensures r.Success? ==> '_' !in r.value.model && '_' !in r.value.serial
    ensures r.Success? ==> r.value.displayName == (if displayName.Some? then displayName.value else DefaultDisplayName)
  {
    var parts := Split(name, '_');
    SplitHasTwoParts(name, '_');
    SplitCount(name, '_');
    if |parts| < 2 then Failure(ResourceDoesNotExist)
    else Success(DeviceInfo("Nespresso", parts[0], parts[1], if displayName.Some? then displayName.value else DefaultDisplayName))
  }

  /** Model and serial number are the text around the first '_'; what follows a second '_' is ignored. */
  lemma {:induction false} ParseDeviceNameParts(model: string, serial: string, rest: string, displayName: Option<string>)
    requires '_' !in model && '_' !in serial
    ensures var r := ParseDeviceName(model + "_" + serial + rest, displayName);
      r.Success? && r.value.model == model && (rest == [] || rest[0] == '_' ==> r.value.serial == serial)
  {
    var name := model + "_" + serial + rest;
    SplitPrefix(model, serial + rest);
    assert name == model + "_" + (serial + rest);
    if rest == [] || rest[0] == '_' {
      SplitFirst(serial, rest);
    }
  }

  /** A separator-free prefix followed by '_' is the first part. */
  lemma {:induction false} SplitPrefix(w: string, rest: string)
    requires '_' !in w
    ensures Split(w + "_" + rest, '_') == [w] + Split(rest, '_')
    decreases |w|
  {
    if w == [] {
      assert w + "_" + rest == "_" + rest;
      assert ("_" + rest)[1..] == rest;
    } else {
      assert (w + "_" + rest)[1..] == w[1..] + "_" + rest;
      assert (w + "_" + rest)[0] == w[0];
      SplitPrefix(w[1..], rest);
      assert [w[0]] + w[1..] == w;
    }
  }

  /** A separator-free word followed by nothing or by '_' is the first part. */
  lemma {:induction false} SplitFirst(w: string, rest: string)
    requires '_' !in w && (rest == [] || rest[0] == '_')
    ensures Split(w + rest, '_')[0] == w
    decreases |w|
  {
    if w == [] {
      assert w + rest == rest;
    } else {
      assert (w + rest)[1..] == w[1..] + rest;
      assert (w + rest)[0] == w[0];
      SplitFirst(w[1..], rest);
      if w[1..] == [] && rest == [] {
        assert w == [w[0]];
      } else {
        assert [w[0]] + w[1..] == w;
      }
    }
  }

  /** The shape of a contact or switch service added only when its uuid is absent. */
  function GetOrAdd(services: map<string, Service>, uuid: string, service: Service): (r: map<string, Service>)
    ensures r.Keys == services.Keys + {uuid}
    ensures uuid in services ==> r == services
    ensures uuid !in services ==> r[uuid] == service
    ensures forall k :: k in services ==> r[k] == services[k]
  {
    if uuid in services then services else services[uuid := service]
  }

  /** Adding only when absent is idempotent. */
  lemma GetOrAddIdempotent(services: map<string, Service>, uuid: string, service: Service, other: Service)
    ensures GetOrAdd(GetOrAdd(services, uuid, service), uuid, other) == GetOrAdd(services, uuid, service)
  {
  }

  /** The effect of `initCoffeType` for one coffee type. */
  function CoffeeStep(services: map<string, Service>, coffee: CoffeeType, enabled: bool, uuid: string): (r: map<string, Service>)
    ensures r.Keys == if enabled then services.Keys + {uuid} else services.Keys - {uuid}
    ensures forall k :: k in r && k in services ==> r[k] == services[k]
  {
    if enabled then GetOrAdd(services, uuid, Service(Switch, HumanReadable(coffee)))
    else services - {uuid}
  }

  /** `initCoffeType` over a list of types, first to last. */
  function CoffeeSteps(services: map<string, Service>, types: seq<CoffeeType>,
                       isEnabled: CoffeeType -> bool, coffeeUdid: CoffeeType -> string): map<string, Service>
  {
    if types == [] then services
    else
      var last := types[|types| - 1];
      CoffeeStep(CoffeeSteps(services, types[..|types| - 1], isEnabled, coffeeUdid), last, isEnabled(last), coffeeUdid(last))
  }

  /** Different listed types have different service uuids. */
  predicate DistinctUdids(types: seq<CoffeeType>, coffeeUdid: CoffeeType -> string) {
    forall i, j :: 0 <= i < |types| && 0 <= j < |types| && coffeeUdid(types[i]) == coffeeUdid(types[j]) ==> types[i] == types[j]
  }

  /**
   * After the coffee types are processed, each listed type's switch is
   * present iff the type is enabled, and every other uuid is untouched.
   */
  lemma {:induction false} CoffeeStepsPresence(services: map<string, Service>, types: seq<CoffeeType>,
                                               isEnabled: CoffeeType -> bool, coffeeUdid: CoffeeType -> string)
    requires DistinctUdids(types, coffeeUdid)
    ensures forall i :: 0 <= i < |types| ==> (coffeeUdid(types[i]) in CoffeeSteps(services, types, isEnabled, coffeeUdid) <==> isEnabled(types[i]))
    ensures forall k :: (forall i :: 0 <= i < |types| ==> coffeeUdid(types[i]) != k) ==>
      (k in CoffeeSteps(services, types, isEnabled, coffeeUdid) <==> k in services)
  {
    if types != [] {
      var init := types[..|types| - 1];
      assert DistinctUdids(init, coffeeUdid);
      CoffeeStepsPresence(services, init, isEnabled, coffeeUdid);
      var last := types[|types| - 1];
      forall i | 0 <= i < |types| - 1
        ensures coffeeUdid(init[i]) == coffeeUdid(last) ==> init[i] == last
      {
        assert types[i] == init[i];
      }
    }
  }

  /** The uuid suffixes of the fixed services. */
  const SliderSuffix: string := "slider"
  const BrewingSuffix: string := "brewing"
  const NoWaterSuffix: string := "water"
  const TrayErrorSuffix: string := "tray"
  const DescalingSuffix: string := "descealing"
  const CapsulesSuffix: string := "capsules"
  const BatterySuffix: string := "battery"

  /** The services the accessory of uuid `uuid` has, given the ones it had. */
  class ServiceController {
    const uuid: string
    var services: map<string, Service>

    constructor(uuid: string, services: map<string, Service>)
      ensures this.uuid == uuid && this.services == services
    {
      this.uuid := uuid;
      this.services := services;
    }

    /** `initContactService`: a contact sensor under `id`, unless a service is there already. */
    method InitContactService(name: string, id: string)
      modifies this
      ensures services == GetOrAdd(old(services), id, Service(ContactSensor, name))
    {
      if id !in services {
        services := services[id := Service(ContactSensor, name)];
      }
    }

    /** `addCoffeeService`: a switch named after the coffee, unless a service is there already. */
    method AddCoffeeService(id: string, coffee: CoffeeType)
      modifies this
      ensures services == GetOrAdd(old(services), id, Service(Switch, HumanReadable(coffee)))
    {
      if id !in services {
        services := services[id := Service(Switch, HumanReadable(coffee))];
      }
    }

    /** `removeCoffeeService`: the service under `id` goes, if there is one. */
    method RemoveCoffeeService(id: string)
      modifies this
      ensures services == old(services) - {id}
      ensures id !in old(services) ==> services == old(services)
    {
      if id in services {
        services := services - {id};
      }
    }

    /** `initCoffeType`: the coffee's switch is added when enabled and removed otherwise. */
    method InitCoffeeType(coffee: CoffeeType, enabled: bool, id: string)
      modifies this
      ensures services == CoffeeStep(old(services), coffee, enabled, id)
    {
      if enabled {
        AddCoffeeService(id, coffee);
      } else {
        RemoveCoffeeService(id);
      }
    }

    /**
     * `initServices`: reads the device name, sets up the six contact sensors
     * and the battery, then each coffee type in the order `all` lists them.
     * A name it cannot read stops it before any service is touched.
     */
    method InitServices(name: string, displayName: Option<string>, all: seq<CoffeeType>,
                        isEnabled: CoffeeType -> bool, coffeeUdid: CoffeeType -> string)
      returns (r: Result<DeviceInfo, NameError>)
      modifies this
      ensures r == ParseDeviceName(name, displayName)
      ensures r.Failure? ==> services == old(services)
      ensures r.Success? ==> services == CoffeeSteps(FixedServices(old(services), Ids(uuid)), all, isEnabled, coffeeUdid)
    {
      var parts := Split(name, '_');
      if |parts| < 2 {
        return Failure(ResourceDoesNotExist);
      }
      r := Success(DeviceInfo("Nespresso", parts[0], parts[1], if displayName.Some? then displayName.value else DefaultDisplayName));
      InitFixedServices(Ids(uuid));
      InitCoffeeTypes(all, isEnabled, coffeeUdid);
    }

    /** The part of `initServices` that sets up the six contact sensors and the battery. */
    method InitFixedServices(ids: FixedIds)
      modifies this
      ensures services == FixedServices(old(services), ids)
    {
      InitContactService("Slider", ids.slider);
      InitContactService("Brewing", ids.brewing);
      InitContactService("No Water", ids.noWater);
      InitContactService("Tray Error", ids.trayError);
      InitContactService("Descealing Needed", ids.descaling);
      InitContactService("No Capsules", ids.capsules);
      if ids.battery !in services {
        services := services[ids.battery := Service(Battery, "Cups Left")];
      }
    }

    /** The part of `initServices` that runs `initCoffeType` for each listed type in turn. */
    method InitCoffeeTypes(all: seq<CoffeeType>, isEnabled: CoffeeType -> bool, coffeeUdid: CoffeeType -> string)
      modifies this
      ensures services == CoffeeSteps(old(services), all, isEnabled, coffeeUdid)
    {
      for i := 0 to |all|
        invariant services == CoffeeSteps(old(services), all[..i], isEnabled, coffeeUdid)
      {
        assert all[..i + 1][..i] == all[..i];
        InitCoffeeType(all[i], isEnabled(all[i]), coffeeUdid(all[i]));
      }
      assert all[..|all|] == all;
    }
  }

  /** The uuids of the fixed services of an accessory. */
  datatype FixedIds = FixedIds(slider: string, brewing: string, noWater: string, trayError: string,
                               descaling: string, capsules: string, battery: string)

  function Ids(uuid: string): FixedIds {
    FixedIds(AccessoryUtils.ToUdid(uuid, SliderSuffix), AccessoryUtils.ToUdid(uuid, BrewingSuffix),
             AccessoryUtils.ToUdid(uuid, NoWaterSuffix), AccessoryUtils.ToUdid(uuid, TrayErrorSuffix),
             AccessoryUtils.ToUdid(uuid, DescalingSuffix), AccessoryUtils.ToUdid(uuid, CapsulesSuffix),
             AccessoryUtils.ToUdid(uuid, BatterySuffix))
  }

  /** The services after the six contact sensors and the battery are set up. */
  function FixedServices(services: map<string, Service>, ids: FixedIds): map<string, Service> {
    var m := GetOrAdd(services, ids.slider, Service(ContactSensor, "Slider"));
    var m := GetOrAdd(m, ids.brewing, Service(ContactSensor, "Brewing"));
    var m := GetOrAdd(m, ids.noWater, Service(ContactSensor, "No Water"));
    var m := GetOrAdd(m, ids.trayError, Service(ContactSensor, "Tray Error"));
    var m := GetOrAdd(m, ids.descaling, Service(ContactSensor, "Descealing Needed"));
    var m := GetOrAdd(m, ids.capsules, Service(ContactSensor, "No Capsules"));
    GetOrAdd(m, ids.battery, Service(Battery, "Cups Left"))
  }

  /** Setting up the fixed services adds exactly their uuids and keeps every service already there. */
  lemma FixedServicesKeys(services: map<string, Service>, ids: FixedIds)
    ensures FixedServices(services, ids).Keys == services.Keys
      + {ids.slider, ids.brewing, ids.noWater, ids.trayError, ids.descaling, ids.capsules, ids.battery}
    ensures forall id :: id in services ==> FixedServices(services, ids)[id] == services[id]
  {
  }

  /** A second setup adds nothing. */
  lemma FixedServicesIdempotent(services: map<string, Service>, ids: FixedIds)
    ensures FixedServices(FixedServices(services, ids), ids) == FixedServices(services, ids)
  {
    FixedServicesKeys(services, ids);
    FixedServicesKeys(FixedServices(services, ids), ids);
  }
}
