/**
 One scan's aggregation: every record that passes the MAC filter, in scan
 order, stores the magnitude of its signal under its address string and adds
 one to the match count; every other record is ignored.
 */
module ScanAggregator {

  import opened Types
  import opened AddressFilter
  import opened SignalTable

  /** What the radio driver reports for one scan index. */
  datatype ScanRecord = ScanRecord(ssid: string, rssi: int32, bssid: MacAddress, bssidStr: Key)

  /** The match count and the signal table after some prefix of a scan. */
  datatype Tally = Tally(count: nat, table: Table)

  /** The absolute value is taken only of passing records, so only those must avoid INT32_MIN. */
  predicate AbsDefined(filter: MacFilter, recs: seq<ScanRecord>)
  {
    forall j :: 0 <= j < |recs| && Matches(recs[j].bssid, filter) ==> recs[j].rssi != INT32_MIN
  }

  /** Number of loop iterations for a driver result: none for zero or a negative error code. */
  function Iterations(scanResults: int16): nat
  {
    if scanResults <= 0 then 0 else scanResults
  }

  /**
   One loop iteration over a record: a passing record adds one to the count
   and leaves its signal magnitude under its key, touching no other key; a
   failing record changes nothing.
   */
  function Visit(filter: MacFilter, acc: Tally, rec: ScanRecord): (r: Tally)
    requires Matches(rec.bssid, filter) ==> rec.rssi != INT32_MIN
    ensures r.count == acc.count + (if Matches(rec.bssid, filter) then 1 else 0)
    ensures Matches(rec.bssid, filter) ==> r.table.Keys == acc.table.Keys + {rec.bssidStr}
    ensures Matches(rec.bssid, filter) ==> r.table[rec.bssidStr] == Abs(rec.rssi)
    ensures forall k :: k in acc.table && k != rec.bssidStr ==> k in r.table && r.table[k] == acc.table[k]
    ensures !Matches(rec.bssid, filter) ==> r.table == acc.table
  {
    if Matches(rec.bssid, filter) then
      Tally(acc.count + 1, StoreSignal(acc.table, rec.bssidStr, rec.rssi))
    else
      acc
  }

  /** The records visited in scan order, starting from the table `table` and a zero count. */
  function Aggregate(filter: MacFilter, table: Table, recs: seq<ScanRecord>): (r: Tally)
    requires AbsDefined(filter, recs)
    ensures r.count <= |recs|
    ensures table.Keys <= r.table.Keys
    ensures NonNegative(table) ==> NonNegative(r.table)
    decreases |recs|
  {
    if |recs| == 0 then
      Tally(0, table)
    else
      Visit(filter, Aggregate(filter, table, recs[..|recs| - 1]), recs[|recs| - 1])
  }

  /** Reference definition of the matches: the passing records, in scan order. */
  function PassingRecords(filter: MacFilter, recs: seq<ScanRecord>): (r: seq<ScanRecord>)
    ensures |r| <= |recs|
    ensures forall x :: x in r ==> x in recs && Matches(x.bssid, filter)
    ensures forall x :: x in recs && Matches(x.bssid, filter) ==> x in r
    decreases |recs|
  {
    if |recs| == 0 then
      []
    else
      var init := PassingRecords(filter, recs[..|recs| - 1]);
      var last := recs[|recs| - 1];
      assert recs == recs[..|recs| - 1] + [last];
      if Matches(last.bssid, filter) then init + [last] else init
  }

  /** Reference definition of the keys a scan writes: those of its passing records. */
  ghost function MatchedKeys(filter: MacFilter, recs: seq<ScanRecord>): set<Key>
  {
    set j | 0 <= j < |recs| && Matches(recs[j].bssid, filter) :: recs[j].bssidStr
  }

  lemma MatchedKeysSnoc(filter: MacFilter, recs: seq<ScanRecord>)
    requires |recs| > 0
    ensures var last := recs[|recs| - 1];
            MatchedKeys(filter, recs)
            == MatchedKeys(filter, recs[..|recs| - 1])
               + (if Matches(last.bssid, filter) then {last.bssidStr} else {})
  {
    var init := recs[..|recs| - 1];
    var last := recs[|recs| - 1];
    forall k | k in MatchedKeys(filter, recs)
      ensures k in MatchedKeys(filter, init) || (Matches(last.bssid, filter) && k == last.bssidStr)
    {
      var j :| 0 <= j < |recs| && Matches(recs[j].bssid, filter) && recs[j].bssidStr == k;
      if j < |init| {
        assert init[j] == recs[j];
      }
    }
    forall k | k in MatchedKeys(filter, init)
      ensures k in MatchedKeys(filter, recs)
    {
      var j :| 0 <= j < |init| && Matches(init[j].bssid, filter) && init[j].bssidStr == k;
      assert recs[j] == init[j];
    }
    if Matches(last.bssid, filter) {
      assert recs[|recs| - 1] == last;
    }
  }

  /** The match count is the number of passing records. */
  lemma {:induction false} AggregateCount(filter: MacFilter, table: Table, recs: seq<ScanRecord>)
    requires AbsDefined(filter, recs)
    ensures Aggregate(filter, table, recs).count == |PassingRecords(filter, recs)|
    decreases |recs|
  {
    if |recs| > 0 {
      AggregateCount(filter, table, recs[..|recs| - 1]);
    }
  }

  /** The table ends with exactly the keys it started with plus those of the passing records. */
  lemma {:induction false} AggregateKeys(filter: MacFilter, table: Table, recs: seq<ScanRecord>)
    requires AbsDefined(filter, recs)
    ensures Aggregate(filter, table, recs).table.Keys == table.Keys + MatchedKeys(filter, recs)
    decreases |recs|
  {
    if |recs| > 0 {
      AggregateKeys(filter, table, recs[..|recs| - 1]);
      MatchedKeysSnoc(filter, recs);
    }
  }

  /** A key no passing record carries keeps its presence and its value. */
  lemma {:induction false} AggregateUntouched(filter: MacFilter, table: Table, recs: seq<ScanRecord>, k: Key)
    requires AbsDefined(filter, recs)
    requires forall j :: 0 <= j < |recs| && Matches(recs[j].bssid, filter) ==> recs[j].bssidStr != k
    ensures k in Aggregate(filter, table, recs).table <==> k in table
    ensures k in table ==> Aggregate(filter, table, recs).table[k] == table[k]
    decreases |recs|
  {
    if |recs| > 0 {
      var init := recs[..|recs| - 1];
      assert forall j :: 0 <= j < |init| ==> init[j] == recs[j];
      AggregateUntouched(filter, table, init, k);
    }
  }

  /**
   A passing record whose key no later passing record carries leaves its own
   signal magnitude in the table: the last passing occurrence of a key wins.
   */
  lemma {:induction false} AggregateLastWins(filter: MacFilter, table: Table, recs: seq<ScanRecord>, j: nat)
    requires AbsDefined(filter, recs)
    requires j < |recs| && Matches(recs[j].bssid, filter)
    requires forall l :: j < l < |recs| && Matches(recs[l].bssid, filter) ==> recs[l].bssidStr != recs[j].bssidStr
    ensures recs[j].bssidStr in Aggregate(filter, table, recs).table
    ensures Aggregate(filter, table, recs).table[recs[j].bssidStr] == Abs(recs[j].rssi)
    decreases |recs|
  {
    if j < |recs| - 1 {
      var init := recs[..|recs| - 1];
      assert forall l :: 0 <= l < |init| ==> init[l] == recs[l];
      AggregateLastWins(filter, table, init, j);
    }
  }

  /** Dropping the records that fail the filter changes neither the count nor the table. */
  lemma {:induction false} AggregateIgnoresFailing(filter: MacFilter, table: Table, recs: seq<ScanRecord>)
    requires AbsDefined(filter, recs)
    ensures AbsDefined(filter, PassingRecords(filter, recs))
    ensures Aggregate(filter, table, recs) == Aggregate(filter, table, PassingRecords(filter, recs))
    decreases |recs|
  {
    if |recs| > 0 {
      var init := recs[..|recs| - 1];
      var last := recs[|recs| - 1];
      assert forall l :: 0 <= l < |init| ==> init[l] == recs[l];
      AggregateIgnoresFailing(filter, table, init);
      var p := PassingRecords(filter, init);
      if Matches(last.bssid, filter) {
        assert (p + [last])[..|p + [last]| - 1] == p;
      }
    }
  }

  /**
   `count_devices`: visits the first `scanResults` records (none when the
   driver reports zero or a negative error code) and returns the match count
   as a `uint16` together with the updated table. The firmware's declared
   `filter` parameter is unused; the configured filter is passed here as
   `filter`.
   */
  method CountDevices(filter: MacFilter, table: Table, scanResults: int16, records: seq<ScanRecord>)
    returns (numFiltered: uint16, table': Table)
    requires scanResults <= |records|
    requires AbsDefined(filter, records[..Iterations(scanResults)])
    ensures Tally(numFiltered, table') == Aggregate(filter, table, records[..Iterations(scanResults)])
    ensures numFiltered == |PassingRecords(filter, records[..Iterations(scanResults)])|
    ensures numFiltered <= Iterations(scanResults)
    ensures scanResults <= 0 ==> numFiltered == 0 && table' == table
  {
    numFiltered := 0;
    table' := table;
    ghost var visited := records[..Iterations(scanResults)];
    if scanResults == 0 {
    } else {
      var i: int := 0;
      while i < scanResults
        invariant 0 <= i <= |visited|
        invariant numFiltered <= i
        invariant Tally(numFiltered, table') == Aggregate(filter, table, visited[..i])
      {
        var rec := records[i];
        assert visited[..i + 1][..i] == visited[..i] && visited[..i + 1][i] == rec;
        var passes := PassesFilter(rec.bssid, filter);
        if passes {
          table' := StoreSignal(table', rec.bssidStr, rec.rssi);
          numFiltered := numFiltered + 1;
        }
        i := i + 1;
      }
      assert visited[..i] == visited;
    }
    AggregateCount(filter, table, records[..Iterations(scanResults)]);
  }

}
