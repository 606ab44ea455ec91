/**
 The firmware's main loop: each cycle scans, counts the passing devices while
 updating the process-wide signal table, stores the count and shows it on the
 LEDs. A run is a sequence of such cycles starting from the power-on state.
 */
module Firmware {

  import opened Types
  import opened AddressFilter
  import opened SignalTable
  import opened ScanAggregator
  import opened CountDisplay

  /** What one call of the radio driver hands over: its int16 result and the per-index records. */
  datatype Scan = Scan(scanResults: int16, records: seq<ScanRecord>)

  /** The process-wide state: `deviceSignalMap`, `num_devices` and the LED levels. */
  datatype State = State(table: Table, numDevices: uint16, pins: PinLevels)

  /** The driver has a record for every index it reports, and `abs` is defined on every passing one. */
  predicate ValidScan(filter: MacFilter, scan: Scan)
  {
    && scan.scanResults <= |scan.records|
    && AbsDefined(filter, scan.records[..Iterations(scan.scanResults)])
  }

  predicate ValidScans(filter: MacFilter, scans: seq<Scan>)
  {
    forall c :: 0 <= c < |scans| ==> ValidScan(filter, scans[c])
  }

  /** The records a cycle's loop visits. */
  function Visited(scan: Scan): seq<ScanRecord>
    requires scan.scanResults <= |scan.records|
  {
    scan.records[..Iterations(scan.scanResults)]
  }

  /**
   The state after `setup`: an empty table and a zero count. Its pin part,
   every line LOW, assumes the display is enabled; with the display disabled
   `setup` never writes the pins and their levels are not determined.
   */
  const INITIAL: State := State(map[], 0, ALL_LOW)

  /** One call of `loop` (without the trailing delay). */
  function Cycle(filter: MacFilter, dispLeds: bool, s: State, scan: Scan): (s': State)
    requires ValidScan(filter, scan)
    ensures s'.numDevices == |PassingRecords(filter, Visited(scan))|
    ensures s'.table.Keys == s.table.Keys + MatchedKeys(filter, Visited(scan))
    ensures dispLeds ==> forall i :: 0 <= i < NUM_PINS as int ==> (s'.pins[i] <==> i < s'.numDevices)
    ensures !dispLeds ==> s'.pins == s.pins
  {
    var tally := Aggregate(filter, s.table, Visited(scan));
    AggregateCount(filter, s.table, Visited(scan));
    AggregateKeys(filter, s.table, Visited(scan));
    State(tally.table, tally.count, Render(tally.count, s.pins, dispLeds))
  }

  /** `loop` as the firmware writes it: `count_devices` followed by `disp_count`. */
  method Loop(filter: MacFilter, dispLeds: bool, s: State, scan: Scan) returns (s': State)
    requires ValidScan(filter, scan)
    ensures s'.numDevices <= Iterations(scan.scanResults)
    ensures s' == Cycle(filter, dispLeds, s, scan)
  {
    var numDevices, table := CountDevices(filter, s.table, scan.scanResults, scan.records);
    var pins := DispCount(numDevices, s.pins, dispLeds);
    s' := State(table, numDevices, pins);
  }

  /** A sequence of cycles, in order. */
  function Run(filter: MacFilter, dispLeds: bool, s: State, scans: seq<Scan>): (r: State)
    requires ValidScans(filter, scans)
    ensures s.table.Keys <= r.table.Keys
    ensures NonNegative(s.table) ==> NonNegative(r.table)
    decreases |scans|
  {
    if |scans| == 0 then
      s
    else
      var last := scans[|scans| - 1];
      Cycle(filter, dispLeds, Run(filter, dispLeds, s, scans[..|scans| - 1]), last)
  }

  /** Running two sequences of cycles back to back is running their concatenation. */
  lemma {:induction false} RunAppend(filter: MacFilter, dispLeds: bool, s: State, a: seq<Scan>, b: seq<Scan>)
    requires ValidScans(filter, a) && ValidScans(filter, b)
    ensures ValidScans(filter, a + b)
    ensures Run(filter, dispLeds, s, a + b) == Run(filter, dispLeds, Run(filter, dispLeds, s, a), b)
    decreases |b|
  {
    if |b| > 0 {
      var b' := b[..|b| - 1];
      assert (a + b)[..|a + b| - 1] == a + b';
      RunAppend(filter, dispLeds, s, a, b');
    } else {
      assert a + b == a;
    }
  }

  /** The table's key set never shrinks from one cycle to a later one. */
  lemma KeysOnlyGrow(filter: MacFilter, dispLeds: bool, s: State, scans: seq<Scan>, i: nat, j: nat)
    requires ValidScans(filter, scans)
    requires i <= j <= |scans|
    ensures Run(filter, dispLeds, s, scans[..i]).table.Keys <= Run(filter, dispLeds, s, scans[..j]).table.Keys
  {
    assert scans[..j] == scans[..i] + scans[i..j];
    RunAppend(filter, dispLeds, s, scans[..i], scans[i..j]);
  }

  /** Some cycle of the run had a passing record with address string `k`. */
  ghost predicate EverMatched(filter: MacFilter, scans: seq<Scan>, k: Key)
  {
    exists c, j :: 0 <= c < |scans| && 0 <= j < Iterations(scans[c].scanResults) && j < |scans[c].records|
                   && Matches(scans[c].records[j].bssid, filter) && scans[c].records[j].bssidStr == k
  }

  /** The keys a run's passing records carry are those of its earlier cycles plus those of its last one. */
  lemma EverMatchedSnoc(filter: MacFilter, scans: seq<Scan>, k: Key)
    requires ValidScans(filter, scans) && |scans| > 0
    ensures EverMatched(filter, scans, k)
            <==> EverMatched(filter, scans[..|scans| - 1], k) || k in MatchedKeys(filter, Visited(scans[|scans| - 1]))
  {
    var init := scans[..|scans| - 1];
    var last := scans[|scans| - 1];
    var vis := Visited(last);
    if k in MatchedKeys(filter, vis) {
      var j :| 0 <= j < |vis| && Matches(vis[j].bssid, filter) && vis[j].bssidStr == k;
      assert scans[|scans| - 1].records[j] == vis[j];
    }
    if EverMatched(filter, scans, k) {
      var c, j :| 0 <= c < |scans| && 0 <= j < Iterations(scans[c].scanResults) && j < |scans[c].records|
                  && Matches(scans[c].records[j].bssid, filter) && scans[c].records[j].bssidStr == k;
      if c < |init| {
        assert init[c] == scans[c];
      } else {
        assert vis[j] == last.records[j];
      }
    }
    if EverMatched(filter, init, k) {
      var c, j :| 0 <= c < |init| && 0 <= j < Iterations(init[c].scanResults) && j < |init[c].records|
                  && Matches(init[c].records[j].bssid, filter) && init[c].records[j].bssidStr == k;
      assert scans[c] == init[c];
    }
  }

  lemma {:induction false} RunKeys(filter: MacFilter, dispLeds: bool, s: State, scans: seq<Scan>, k: Key)
    requires ValidScans(filter, scans)
    ensures k in Run(filter, dispLeds, s, scans).table <==> k in s.table || EverMatched(filter, scans, k)
    decreases |scans|
  {
    if |scans| > 0 {
      RunKeys(filter, dispLeds, s, scans[..|scans| - 1], k);
      EverMatchedSnoc(filter, scans, k);
    }
  }

  /**
   From power-on, an address string is a key of the table exactly when some
   cycle saw a passing record with that address string, and every stored value
   is non-negative.
   */
  lemma TableFromPowerOn(filter: MacFilter, dispLeds: bool, scans: seq<Scan>, k: Key)
    requires ValidScans(filter, scans)
    ensures k in Run(filter, dispLeds, INITIAL, scans).table <==> EverMatched(filter, scans, k)
    ensures NonNegative(Run(filter, dispLeds, INITIAL, scans).table)
  {
    RunKeys(filter, dispLeds, INITIAL, scans, k);
  }

}
