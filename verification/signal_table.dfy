/**
 The process-wide table from a device's address string to the magnitude of
 its last recorded signal strength, and the firmware's update idiom on it.
 */
module SignalTable {

  import opened Types

  /** The address string the radio driver formats for a device; opaque here. */
  type Key = string

  type Table = map<Key, int32>

  /** Every stored signal magnitude is non-negative. */
  predicate NonNegative(t: Table)
  {
    forall k :: k in t ==> t[k] >= 0
  }

  /** `std::abs` on a 32-bit int; the C++ standard leaves INT32_MIN undefined. */
  function Abs(x: int32): (r: int32)
    requires x != INT32_MIN
    ensures r >= 0
    ensures r == x || r == -x
  {
    if x < 0 then -x else x
  }

  /**
   `std::map::insert`: adds the pair when the key is absent and leaves the
   map as it was when the key is already present.
   */
  function MapInsert(t: Table, key: Key, v: int32): (r: Table)
    ensures key in r
    ensures key !in t ==> r[key] == v
    ensures forall k :: k in t ==> k in r && r[k] == t[k]
    ensures forall k :: k in r && k != key ==> k in t
  {
    if key in t then t else t[key := v]
  }

  /**
   The firmware's update of one matched device, as written: when the key is
   present with a different value, assign in place; otherwise (absent, or
   present with the same value) fall through to `insert`. The result is the
   same as an unconditional overwrite.
   */
  function StoreSignal(t: Table, key: Key, rssi: int32): (r: Table)
    requires rssi != INT32_MIN
    ensures r == t[key := Abs(rssi)]
    ensures r.Keys == t.Keys + {key}
    ensures NonNegative(t) ==> NonNegative(r)
  {
    var v := Abs(rssi);
    if key in t && t[key] != v then t[key := v]
    else MapInsert(t, key, v)
  }

}
