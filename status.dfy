/**
 * The status dictionaries the hub returns and the coordinator publishes: `water` and `valve`
 * map keys to readings that may be None, `wireless` holds only present readings.
 */
module Status {
  import opened Wrappers

  type Section = map<string, Option<real>>
  type Wireless = map<string, real>

  datatype Snapshot = Snapshot(water: Section, valve: Section, device: map<string, string>, wireless: Wireless)

  /** `section.get(key)`: a missing key and a None value read alike. */
  function Get(s: Section, key: string): (r: Option<real>)
    ensures r.Some? <==> key in s && s[key].Some?
  {
    if key in s then s[key] else None
  }

  function GetWireless(w: Wireless, key: string): (r: Option<real>)
    ensures r.Some? <==> key in w
  {
    if key in w then Some(w[key]) else None
  }

  /** Python's `v in [4, 1087, None]` for a valve status. */
  predicate DisconnectedOrMissing(v: Option<real>)
  {
    v.None? || v.value == 4.0 || v.value == 1087.0
  }

  /** A reading that is present and at least 1.0. */
  predicate AtLeastOne(v: Option<real>)
  {
    v.Some? && v.value >= 1.0
  }

  /** A remembered battery voltage below 2.5 volts. */
  predicate LowBattery(w: Wireless)
  {
    "battery_voltage" in w && w["battery_voltage"] < 2.5
  }
}
