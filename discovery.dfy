/**
 The Home Assistant discovery document of a lamp (`gen_ha_config`), and the
 collaborators it is built from that this model does not see: the topic
 templates and payload constants of `dali2mqtt/consts.py`, the `slugify`
 library, the package version and the text of an address object.
 */
module Discovery {
  import opened Dali

  /**
   Code outside the model, passed in as values. Each topic builder stands
   for one `str.format` template applied to the base topic and (for the
   per-lamp topics) the lamp's device name.
   */
  datatype Externals = Externals(
    slugify: string -> string,
    addressText: Address -> string,
    version: string,
    stateTopic: (string, string) -> string,
    commandTopic: (string, string) -> string,
    brightnessStateTopic: (string, string) -> string,
    brightnessCommandTopic: (string, string) -> string,
    statusTopic: string -> string,
    discoveryTopic: (string, string) -> string,
    maxLevelTopic: (string, string) -> string,
    minLevelTopic: (string, string) -> string,
    physicalMinimumTopic: (string, string) -> string,
    payloadOff: string,
    available: string,
    notAvailable: string)

  datatype DeviceInfo = DeviceInfo(
    identifiers: string,
    name: string,
    swVersion: string,
    model: string,
    manufacturer: string)

  /** The discovery document, one field per key of the JSON object. */
  datatype HaConfig = HaConfig(
    name: string,
    objectId: string,
    uniqueId: string,
    stateTopic: string,
    commandTopic: string,
    payloadOff: string,
    brightnessStateTopic: string,
    brightnessCommandTopic: string,
    brightnessScale: int,
    onCommandType: string,
    availabilityTopic: string,
    payloadAvailable: string,
    payloadNotAvailable: string,
    device: DeviceInfo)

  const ObjectIdPrefix: string := "dali_light_"

  /**
   The document for a lamp with the given fields under `base`. Both Lamp
   classes build it the same way; it reads no brightness state.
   */
  function BuildConfig(friendlyName: string, deviceName: string, driverName: string,
                       address: Address, maxLevel: int, base: string, ext: Externals): (c: HaConfig)
    ensures c.name == friendlyName
    ensures c.objectId == ObjectIdPrefix + deviceName
    ensures c.brightnessScale == maxLevel
    ensures c.onCommandType == "brightness"
    ensures c.device.model == driverName
    ensures c.stateTopic == ext.stateTopic(base, deviceName)
    ensures c.commandTopic == ext.commandTopic(base, deviceName)
    ensures c.brightnessStateTopic == ext.brightnessStateTopic(base, deviceName)
    ensures c.brightnessCommandTopic == ext.brightnessCommandTopic(base, deviceName)
    ensures c.availabilityTopic == ext.statusTopic(base)
  {
    HaConfig(
      name := friendlyName,
      objectId := ObjectIdPrefix + deviceName,
      uniqueId := driverName + "_" + ext.addressText(address),
      stateTopic := ext.stateTopic(base, deviceName),
      commandTopic := ext.commandTopic(base, deviceName),
      payloadOff := ext.payloadOff,
      brightnessStateTopic := ext.brightnessStateTopic(base, deviceName),
      brightnessCommandTopic := ext.brightnessCommandTopic(base, deviceName),
      brightnessScale := maxLevel,
      onCommandType := "brightness",
      availabilityTopic := ext.statusTopic(base),
      payloadAvailable := ext.available,
      payloadNotAvailable := ext.notAvailable,
      device := DeviceInfo(
        identifiers := "dali2mqtt",
        name := "DALI Lights",
        swVersion := "dali2mqtt " + ext.version,
        model := driverName,
        manufacturer := "dali2mqtt"))
  }

  /** Two lamps get the same object id exactly when their device names agree. */
  lemma ObjectIdsCollideIffNamesDo(d1: string, d2: string)
    ensures ObjectIdPrefix + d1 == ObjectIdPrefix + d2 <==> d1 == d2
  {
    if ObjectIdPrefix + d1 == ObjectIdPrefix + d2 {
      assert d1 == (ObjectIdPrefix + d1)[|ObjectIdPrefix|..];
      assert d2 == (ObjectIdPrefix + d2)[|ObjectIdPrefix|..];
    }
  }

  /**
   The topics of two lamps depend only on the base topic and the device
   name: two lamps whose friendly names slugify alike share every topic
   and their documents differ at most in name, unique id and scale.
   */
  lemma SameDeviceNameSameTopics(n1: string, n2: string, drv: string, a1: Address, a2: Address,
                                 m1: int, m2: int, base: string, ext: Externals)
    requires ext.slugify(n1) == ext.slugify(n2)
    ensures var c1 := BuildConfig(n1, ext.slugify(n1), drv, a1, m1, base, ext);
            var c2 := BuildConfig(n2, ext.slugify(n2), drv, a2, m2, base, ext);
            c1.objectId == c2.objectId && c1.stateTopic == c2.stateTopic &&
            c1.commandTopic == c2.commandTopic &&
            c1.brightnessStateTopic == c2.brightnessStateTopic &&
            c1.brightnessCommandTopic == c2.brightnessCommandTopic &&
            c1.(name := n2, uniqueId := c2.uniqueId, brightnessScale := m2) == c2
  {
  }
}
