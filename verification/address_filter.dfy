/**
 The MAC segment filter: a device passes when every enabled segment of its
 hardware address equals the corresponding byte of the reference address.
 */
module AddressFilter {

  import opened Types

  /** Number of one-byte segments in a hardware (MAC) address. */
  const NUM_MAC_SEGMENTS: nat := 6

  /** A hardware address: exactly six bytes, most significant segment first. */
  type MacAddress = a: seq<uint8> | |a| == NUM_MAC_SEGMENTS
    witness [0, 0, 0, 0, 0, 0]

  /** One enable flag per address segment. */
  type SegmentMask = e: seq<bool> | |e| == NUM_MAC_SEGMENTS
    witness [false, false, false, false, false, false]

  /** The reference address together with the per-segment enable flags. */
  datatype MacFilter = MacFilter(reference: MacAddress, apply: SegmentMask)

  /** The firmware's configured reference address (an Espressif vendor prefix). */
  const MAC_FILTER: MacAddress := [0xAC, 0xA3, 0x1E, 0x00, 0x00, 0x00]

  /** The firmware's configured enable flags: the first three segments only. */
  const APPLY_FILTER: SegmentMask := [true, true, true, false, false, false]

  const CONFIGURED_FILTER: MacFilter := MacFilter(MAC_FILTER, APPLY_FILTER)

  /** Reference definition: every enabled segment equals the reference byte. */
  predicate Matches(bssid: MacAddress, filter: MacFilter)
  {
    forall i :: 0 <= i < NUM_MAC_SEGMENTS && filter.apply[i] ==> bssid[i] == filter.reference[i]
  }

  /**
   The segment loop of the firmware: start from "passes" and clear the flag
   whenever an enabled segment differs from the reference byte.
   */
  method PassesFilter(bssid: MacAddress, filter: MacFilter) returns (passes: bool)
    ensures passes == Matches(bssid, filter)
  {
    passes := true;
    var i: uint8 := 0;
    while i < NUM_MAC_SEGMENTS
      invariant 0 <= i <= NUM_MAC_SEGMENTS
      invariant passes <==> forall j :: 0 <= j < i && filter.apply[j] ==> bssid[j] == filter.reference[j]
    {
      if filter.apply[i] && bssid[i] != filter.reference[i] {
        passes := false;
      }
      i := i + 1;
    }
  }

  /** Bytes at disabled segments never influence the verdict. */
  lemma DisabledSegmentsIrrelevant(a: MacAddress, b: MacAddress, filter: MacFilter)
    requires forall i :: 0 <= i < NUM_MAC_SEGMENTS && filter.apply[i] ==> a[i] == b[i]
    ensures Matches(a, filter) <==> Matches(b, filter)
  {
  }

  /** Rewriting one disabled segment leaves the verdict unchanged. */
  lemma RewriteDisabledSegment(a: MacAddress, filter: MacFilter, i: nat, v: uint8)
    requires i < NUM_MAC_SEGMENTS && !filter.apply[i]
    ensures Matches(a[i := v], filter) <==> Matches(a, filter)
  {
  }

  /** A mask with every segment disabled accepts every address. */
  lemma AllDisabledAcceptsAll(a: MacAddress, filter: MacFilter)
    requires forall i :: 0 <= i < NUM_MAC_SEGMENTS ==> !filter.apply[i]
    ensures Matches(a, filter)
  {
  }

  /** A mask with every segment enabled accepts exactly the reference address. */
  lemma AllEnabledIsEquality(a: MacAddress, filter: MacFilter)
    requires forall i :: 0 <= i < NUM_MAC_SEGMENTS ==> filter.apply[i]
    ensures Matches(a, filter) <==> a == filter.reference
  {
  }

  /** The configured filter accepts exactly the addresses whose first three bytes are AC:A3:1E. */
  lemma ConfiguredFilterIsVendorPrefix(a: MacAddress)
    ensures Matches(a, CONFIGURED_FILTER) <==> a[..3] == [0xAC, 0xA3, 0x1E]
  {
  }

}
