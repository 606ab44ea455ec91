/**
 Worked cycles with the configured filter (segments AC:A3:1E enabled) and the
 configured display switch `DISP_LEDS`, which is on.
 */
module Scenarios {

  import opened Types
  import opened AddressFilter
  import opened SignalTable
  import opened ScanAggregator
  import opened CountDisplay
  import opened Firmware

  const KEY: Key := "AC:A3:1E:00:00:01"

  function Device(rssi: int32): ScanRecord
  {
    ScanRecord("beacon", rssi, [0xAC, 0xA3, 0x1E, 0x00, 0x00, 0x01], KEY)
  }

  /** One matching device at -42 dBm: the table gains 42 under its key, the count is 1, line 0 lights. */
  lemma OneMatchingDevice()
    ensures ValidScan(CONFIGURED_FILTER, Scan(1, [Device(-42)]))
    ensures Cycle(CONFIGURED_FILTER, DISP_LEDS, INITIAL, Scan(1, [Device(-42)]))
            == State(map[KEY := 42], 1, [true, false, false])
  {
  }

  /** A device differing in the third segment does not match: nothing is stored, nothing lights. */
  lemma ThirdSegmentDiffers()
    ensures ValidScan(CONFIGURED_FILTER, Scan(1, [ScanRecord("other", -42, [0xAC, 0xA3, 0x1F, 0x00, 0x00, 0x01], "AC:A3:1F:00:00:01")]))
    ensures Cycle(CONFIGURED_FILTER, DISP_LEDS, INITIAL, Scan(1, [ScanRecord("other", -42, [0xAC, 0xA3, 0x1F, 0x00, 0x00, 0x01], "AC:A3:1F:00:00:01")]))
            == State(map[], 0, ALL_LOW)
  {
    var rec := ScanRecord("other", -42, [0xAC, 0xA3, 0x1F, 0x00, 0x00, 0x01], "AC:A3:1F:00:00:01");
    var scan := Scan(1, [rec]);
    assert Visited(scan) == [rec];
    assert !Matches(rec.bssid, CONFIGURED_FILTER) by {
      assert CONFIGURED_FILTER.apply[2] && rec.bssid[2] != CONFIGURED_FILTER.reference[2];
    }
    assert Visited(scan)[..0] == [];
  }

  /** An empty scan, or a negative driver error code, counts nothing and turns every line LOW. */
  lemma EmptyScan(s: State, scanResults: int16, records: seq<ScanRecord>)
    requires scanResults <= 0
    ensures ValidScan(CONFIGURED_FILTER, Scan(scanResults, records))
    ensures Cycle(CONFIGURED_FILTER, DISP_LEDS, s, Scan(scanResults, records)) == State(s.table, 0, ALL_LOW)
  {
  }

  /** The same device at -42 and then -50 dBm: the stored magnitude moves from 42 to 50. */
  lemma SignalUpdatesAcrossCycles()
    ensures ValidScans(CONFIGURED_FILTER, [Scan(1, [Device(-42)]), Scan(1, [Device(-50)])])
    ensures var s1 := Run(CONFIGURED_FILTER, DISP_LEDS, INITIAL, [Scan(1, [Device(-42)])]);
            s1.table[KEY] == 42 && s1.numDevices == 1
    ensures var s2 := Run(CONFIGURED_FILTER, DISP_LEDS, INITIAL, [Scan(1, [Device(-42)]), Scan(1, [Device(-50)])]);
            s2.table[KEY] == 50 && s2.numDevices == 1
  {
  }

}
