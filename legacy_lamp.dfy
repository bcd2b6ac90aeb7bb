/**
 The older lamp of `lamp.py`: the bounds are given to the constructor, and
 the level setter refuses an out-of-range non-zero level with `ValueError`
 where the newer one clamps it.
 */
module LegacyLamp {
  import opened Dali
  import Discovery
  import LampController

  /** What one assignment to `level` does: store it, or raise `ValueError`. */
  datatype Outcome = Stored | ValueError

  /** The setter's range test: 0, or a level between the bounds. */
  function Accepts(v: int, minLevel: int, maxLevel: int): (ok: bool)
    ensures ok ==> v == 0 || minLevel <= v <= maxLevel
    ensures !ok ==> v != 0 && (v < minLevel || v > maxLevel)
  {
    !(!(minLevel <= v <= maxLevel) && v != 0)
  }

  /**
   The two setters agree wherever the legacy one accepts: it accepts `v`
   exactly when the clamping setter would store `v` unchanged.
   */
  lemma AcceptedIffClampKeeps(v: int, minLevel: int, maxLevel: int)
    ensures Accepts(v, minLevel, maxLevel)
        <==> LampController.Committed(Int(v), Int(minLevel), maxLevel) == v
  {
    if v != 0 && !(minLevel <= v <= maxLevel) {
      if v < minLevel {
        assert LampController.Committed(Int(v), Int(minLevel), maxLevel) == minLevel;
      } else {
        assert LampController.Committed(Int(v), Int(minLevel), maxLevel) == maxLevel;
      }
    }
  }

  class Lamp {
    const bus: Bus
    const friendlyName: string
    const shortAddress: Address
    const deviceName: string
    const minPhysicalLevel: int
    const minLevel: int
    const maxLevel: int
    var level: int

    /**
     Allocation and the plain field assignments of `__init__`, up to the
     assignment to `level`; `Create` performs that assignment. The level
     here is a placeholder that no caller of `Create` can observe.
     */
    constructor (bus: Bus, friendlyName: string, shortAddress: Address, slugify: string -> string,
                 minPhysicalLevel: int, minLevel: int, maxLevel: int)
      ensures this.bus == bus && this.friendlyName == friendlyName
      ensures this.shortAddress == shortAddress && deviceName == slugify(friendlyName)
      ensures this.minPhysicalLevel == minPhysicalLevel
      ensures this.minLevel == minLevel && this.maxLevel == maxLevel
      ensures level == 0
    {
      this.bus := bus;
      this.friendlyName := friendlyName;
      this.shortAddress := shortAddress;
      this.deviceName := slugify(friendlyName);
      this.minPhysicalLevel := minPhysicalLevel;
      this.minLevel := minLevel;
      this.maxLevel := maxLevel;
      this.level := 0;
    }

    /**
     `Lamp(...)`: construction succeeds only when the initial level passes the
     setter's range test; a failed construction sends nothing.
     */
    static method Create(bus: Bus, friendlyName: string, shortAddress: Address,
                         slugify: string -> string, minPhysicalLevel: int,
                         minLevel: int, level: int, maxLevel: int) returns (r: Option<Lamp>)
      modifies bus`sent
      ensures r.Some? <==> Accepts(level, minLevel, maxLevel)
      ensures r.None? ==> bus.sent == old(bus.sent)
      ensures r.Some? ==> fresh(r.value) && r.value.bus == bus
      ensures r.Some? ==> r.value.shortAddress == shortAddress && r.value.friendlyName == friendlyName
      ensures r.Some? ==> r.value.deviceName == slugify(friendlyName)
      ensures r.Some? ==> r.value.minPhysicalLevel == minPhysicalLevel
      ensures r.Some? ==> r.value.minLevel == minLevel && r.value.maxLevel == maxLevel
      ensures r.Some? ==> r.value.level == level
      ensures r.Some? ==> bus.sent == old(bus.sent) + [DAPC(shortAddress, level)]
    {
      var lamp := new Lamp(bus, friendlyName, shortAddress, slugify, minPhysicalLevel, minLevel, maxLevel);
      var outcome := lamp.SetLevel(level);
      if outcome == ValueError {
        r := None;
      } else {
        r := Some(lamp);
      }
    }

    /**
     The raising level setter: an accepted level is stored exactly and sent
     as one DAPC; a refused one changes neither the level nor the bus.
     */
    method SetLevel(v: int) returns (outcome: Outcome)
      modifies this`level, bus`sent
      ensures outcome == Stored <==> Accepts(v, minLevel, maxLevel)
      ensures outcome == Stored ==> level == v && bus.sent == old(bus.sent) + [DAPC(shortAddress, v)]
      ensures outcome == ValueError ==> level == old(level) && bus.sent == old(bus.sent)
      ensures outcome == Stored ==> level == 0 || minLevel <= level <= maxLevel
    {
      if !(minLevel <= v <= maxLevel) && v != 0 {
        return ValueError;
      }
      level := v;
      bus.Send(DAPC(shortAddress, level));
      outcome := Stored;
    }

    /** `gen_ha_config`: built exactly as for the newer lamp (see Discovery.BuildConfig). */
    function GenHaConfig(base: string, ext: Discovery.Externals): (c: Discovery.HaConfig)
      ensures c.name == friendlyName && c.objectId == Discovery.ObjectIdPrefix + deviceName
      ensures c.brightnessScale == maxLevel && c.device.model == bus.driverName
    {
      Discovery.BuildConfig(friendlyName, deviceName, bus.driverName, shortAddress, maxLevel, base, ext)
    }
  }
}
