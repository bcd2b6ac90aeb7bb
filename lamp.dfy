/**
 The lamp state controller of `dali2mqtt/lamp.py`: a ballast's bounds, the
 cached brightness level, the clamping setter that commits a level to the
 bus, and the predictor that tells whether such a commit would change
 anything.
 */
module LampController {
  import opened Dali
  import Discovery

  /** Fallback when QUERY MIN LEVEL and the physical minimum both fail. */
  const DefaultMinLevel: int := 86

  /** Fallback when QUERY MAX LEVEL fails: the highest DALI arc power level. */
  const DefaultMaxLevel: int := 254

  /**
   The clamp shared by the setter and the predictor: below an integer
   minimum gives the minimum, otherwise above the maximum gives the
   maximum. A non-integer minimum disables the lower check.
   */
  function Clamp(v: int, minLevel: Value, maxLevel: int): (r: int)
    ensures minLevel.Int? && v < minLevel.n ==> r == minLevel.n
    ensures !(minLevel.Int? && v < minLevel.n) && v > maxLevel ==> r == maxLevel
    ensures minLevel.Int? && minLevel.n <= maxLevel ==> minLevel.n <= r <= maxLevel
    ensures (minLevel.Int? ==> minLevel.n <= v) && v <= maxLevel ==> r == v
    ensures minLevel.NonInt? ==> r <= maxLevel
  {
    if minLevel.Int? && v < minLevel.n then minLevel.n
    else if v > maxLevel then maxLevel
    else v
  }

  /** The level the setter stores for `v`: `None` and other non-integers store 0. */
  function Committed(v: Value, minLevel: Value, maxLevel: int): (r: int)
    ensures v.NonInt? || v == Int(0) ==> r == 0
    ensures v.Int? && v.n != 0 && minLevel.Int? && v.n < minLevel.n ==> r == minLevel.n
    ensures v.Int? && v.n != 0 && (minLevel.Int? ==> minLevel.n <= v.n) && v.n > maxLevel ==> r == maxLevel
    ensures v.Int? && (minLevel.Int? ==> minLevel.n <= v.n) && v.n <= maxLevel ==> r == v.n
    ensures v.Int? && minLevel.Int? && minLevel.n <= maxLevel ==>
              r == 0 || minLevel.n <= r <= maxLevel
  {
    match v
    case NonInt(_) => 0
    case Int(n) => if n != 0 then Clamp(n, minLevel, maxLevel) else n
  }

  /**
   `level_change_needed`: whether committing `v` is worth a bus command.
   It answers true exactly when `v` is 0 or the level the setter would
   store differs from the cached one.
   */
  function ChangeNeeded(v: Value, minLevel: Value, maxLevel: int, level: int): (r: bool)
    ensures r <==> v.Int? && (v.n == 0 || Committed(v, minLevel, maxLevel) != level)
  {
    if v.Int? then
      if v.n == 0 then true
      else Clamp(v.n, minLevel, maxLevel) != level
    else false
  }

  /** Committing a non-zero integer leaves nothing for the predictor to do. */
  lemma NoChangeAfterCommit(v: Value, minLevel: Value, maxLevel: int)
    requires v.Int? && v.n != 0
    ensures !ChangeNeeded(v, minLevel, maxLevel, Committed(v, minLevel, maxLevel))
  {
  }

  /** Clamping twice is clamping once, whenever the bounds are ordered integers. */
  lemma ClampIdempotent(v: int, minLevel: int, maxLevel: int)
    requires minLevel <= maxLevel
    ensures Clamp(Clamp(v, Int(minLevel), maxLevel), Int(minLevel), maxLevel)
         == Clamp(v, Int(minLevel), maxLevel)
  {
  }

  /** The minimum level the constructor settles on. */
  function SeedMinLevel(minReading: Value, physicalMinimum: Value): (r: Value)
    ensures minReading.Int? ==> r == minReading
    ensures minReading.NonInt? && Truthy(physicalMinimum) ==> r == physicalMinimum
    ensures minReading.NonInt? && !Truthy(physicalMinimum) ==> r == Int(DefaultMinLevel)
    ensures r.NonInt? ==> minReading.NonInt? && physicalMinimum == NonInt(true)
    ensures r == Int(0) ==> minReading == Int(0)
  {
    if minReading.Int? then minReading
    else if Truthy(physicalMinimum) then physicalMinimum
    else Int(DefaultMinLevel)
  }

  /** The maximum level the constructor settles on. */
  function SeedMaxLevel(maxReading: Value): (r: int)
    ensures maxReading.Int? ==> r == maxReading.n
    ensures maxReading.NonInt? ==> r == DefaultMaxLevel
  {
    if maxReading.Int? then maxReading.n else DefaultMaxLevel
  }

  /** The commands one assignment to `level` sends: one DAPC for an integer, none otherwise. */
  function SetterFrames(address: Address, v: Value, stored: int): (cs: seq<Command>)
    ensures v.Int? ==> cs == [DAPC(address, stored)]
    ensures v.NonInt? ==> cs == []
  {
    if v.Int? then [DAPC(address, stored)] else []
  }

  /**
   A DALI lamp or group. The address, names and bounds are fixed at
   construction; the cached `level` and the `associated` lamps change.
   `associated` is `associated_lamps`, with `None` read as the empty list.
   */
  class Lamp {
    const bus: Bus
    const friendlyName: string
    const shortAddress: Address
    const deviceName: string
    const minPhysicalLevel: Value
    const minLevel: Value
    const maxLevel: int
    var level: int
    var associated: seq<Lamp>

    /** Seeds the bounds from three queries and commits the actual level through the setter. */
    constructor (bus: Bus, friendlyName: string, shortAddress: Address,
                 slugify: string -> string, r: LampReadings)
      modifies bus`sent
      ensures this.bus == bus && this.friendlyName == friendlyName
      ensures this.shortAddress == shortAddress && deviceName == slugify(friendlyName)
      ensures minPhysicalLevel == r.physicalMinimum
      ensures minLevel == SeedMinLevel(r.minLevel, r.physicalMinimum)
      ensures maxLevel == SeedMaxLevel(r.maxLevel)
      ensures level == Committed(r.actualLevel, minLevel, maxLevel)
      ensures bus.sent == old(bus.sent) + SetterFrames(shortAddress, r.actualLevel, level)
      ensures associated == []
    {
      this.bus := bus;
      this.friendlyName := friendlyName;
      this.shortAddress := shortAddress;
      this.deviceName := slugify(friendlyName);
      this.minPhysicalLevel := r.physicalMinimum;
      this.minLevel := SeedMinLevel(r.minLevel, r.physicalMinimum);
      this.maxLevel := SeedMaxLevel(r.maxLevel);
      this.level := 0;
      this.associated := [];
      new;
      SetLevel(r.actualLevel);
    }

    /** The level setter: clamps a non-zero integer, stores it and sends one DAPC. */
    method SetLevel(v: Value)
      modifies this`level, bus`sent
      ensures level == Committed(v, minLevel, maxLevel)
      ensures bus.sent == old(bus.sent) + SetterFrames(shortAddress, v, level)
      ensures v.Int? && minLevel.Int? && minLevel.n <= maxLevel ==>
                level == 0 || minLevel.n <= level <= maxLevel
      ensures v.Int? && v.n != 0 ==> !LevelChangeNeeded(v)
    {
      var value := v;
      if value.Int? && value.n != 0 {
        if minLevel.Int? && value.n < minLevel.n {
          value := minLevel;
        } else if value.n > maxLevel {
          value := Int(maxLevel);
        }
      }
      if value.Int? {
        level := value.n;
        bus.Send(DAPC(shortAddress, level));
      } else {
        level := 0;
      }
      if v.Int? && v.n != 0 {
        NoChangeAfterCommit(v, minLevel, maxLevel);
      }
    }

    /** `level_change_needed`; it changes nothing. */
    predicate LevelChangeNeeded(v: Value): (r: bool)
      reads this
      ensures r <==> v.Int? && (v.n == 0 || Committed(v, minLevel, maxLevel) != level)
    {
      ChangeNeeded(v, minLevel, maxLevel, level)
    }

    /** `actual_level`: stores the reading unclamped, 0 for a non-integer; sends nothing. */
    method ActualLevel(reading: Value)
      modifies this`level
      ensures level == (if reading.Int? then reading.n else 0)
    {
      if reading.Int? {
        level := reading.n;
      } else {
        level := 0;
      }
    }

    /**
     Sends OFF and forgets the level. The resulting lamp state does not
     depend on the state before, so a second call leaves it as it is.
     */
    method Off()
      modifies this`level, bus`sent
      ensures level == 0
      ensures bus.sent == old(bus.sent) + [Command.Off(shortAddress)]
    {
      bus.Send(Command.Off(shortAddress));
      level := 0;
    }

    /** `is_group`: whether the lamp stands for a group address rather than a short address. */
    predicate IsGroup(): (r: bool)
      ensures r <==> shortAddress.Group?
    {
      shortAddress.Group?
    }

    method AddAssociatedLamp(l: Lamp)
      modifies this`associated
      ensures associated == old(associated) + [l]
    {
      associated := associated + [l];
    }

    /** `gen_ha_config`: the discovery document of this lamp (see Discovery.BuildConfig). */
    function GenHaConfig(base: string, ext: Discovery.Externals): (c: Discovery.HaConfig)
      ensures c.name == friendlyName && c.objectId == Discovery.ObjectIdPrefix + deviceName
      ensures c.brightnessScale == maxLevel && c.device.model == bus.driverName
    {
      Discovery.BuildConfig(friendlyName, deviceName, bus.driverName, shortAddress, maxLevel, base, ext)
    }
  }
}
