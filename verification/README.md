# ESP8266-NetFind core, modelled in Dafny

The firmware scans for wireless access points, keeps the devices whose
hardware (MAC) address matches a per-segment filter, records the magnitude of
each matching device's signal strength in a process-wide map keyed by its
address string, and shows the number of matches on a row of LEDs. This
project models one cycle of that firmware (`count_devices`, `disp_count` and
their composition in `loop`) and runs of many cycles, and proves what the
cycle guarantees.

Layout, one module per component:

- `types.dfy` (`Types`): the C integer widths used (`uint8`, `uint16`, `int16`, `int32`) as subset types of `int`.
- `address_filter.dfy` (`AddressFilter`): six-byte addresses, the filter (reference bytes plus enable flags), the configured `MAC_FILTER`/`APPLY_FILTER`, the reference predicate `Matches` and the firmware's segment loop `PassesFilter`.
- `signal_table.dfy` (`SignalTable`): the `map<String, int32>` of signal magnitudes, `std::abs`, `std::map::insert`, and the firmware's find / compare / assign-or-insert update `StoreSignal`.
- `scan_aggregator.dfy` (`ScanAggregator`): scan records, the fold `Aggregate` over the visited records in scan order, the reference definitions `PassingRecords` and `MatchedKeys`, and `CountDevices`, which mirrors the firmware's `for` loop and is proved equal to the fold.
- `count_display.dfy` (`CountDisplay`): LED levels, the bar `Render` and `DispCount`, which mirrors the firmware's pin loop.
- `firmware.dfy` (`Firmware`): the process state (`deviceSignalMap`, `num_devices`, LED levels), one `loop` cycle as a function (`Cycle`) and as the firmware writes it (`Loop`), and runs of many cycles (`Run`).
- `scenarios.dfy` (`Scenarios`): worked cycles with the configured filter.

Modelling choices:

- The radio driver is replaced by a `Scan` value: the `int16` that `scanNetworks` returns and one record per scan index (SSID, RSSI, BSSID bytes, BSSID string). The BSSID string is opaque and is taken as given. The driver must supply a record for every index it reports.
- A zero or negative driver result runs no iterations. The firmware's `if (scanResults == 0)` branch only chooses a diagnostic message, and the model keeps that branch.
- `count_devices` declares a `filter` parameter but never reads it. The body reads the globals `MAC_FILTER` and `APPLY_FILTER`. The model passes the filter explicitly, and `CONFIGURED_FILTER` holds the globals.
- `num_filtered` is a `uint16`. The model proves that the increment never wraps, because the count is bounded by `scanResults`, which is at most 32767.
- `std::abs(INT32_MIN)` is undefined behaviour in C++. The model therefore requires that every record which passes the filter has an RSSI other than `INT32_MIN`. Records that fail the filter never reach `abs` and carry no such requirement.
- The shipped firmware's `loop` is `Firmware.Cycle(CONFIGURED_FILTER, DISP_LEDS, ...)`. The filter and the `DISP_LEDS` switch are parameters, so the properties hold for every configuration.
- LED levels are a sequence of booleans indexed by position in `LED_PINS`, with `true` meaning HIGH. Writing to the physical pin numbers is left to the pin driver.
- `disp_count` takes a `uint16_t` count (src/main.cpp:149), so `Render` and `DispCount` take a `uint16`.

## Model

| member | source | states |
|---|---|---|
| AddressFilter.PassesFilter | src/main.cpp:116-121 | the segment loop returns true iff every enabled segment of the BSSID equals the reference byte |
| AddressFilter.DisabledSegmentsIrrelevant | src/main.cpp:118-121 | two addresses that agree on the enabled segments get the same verdict |
| AddressFilter.RewriteDisabledSegment | src/main.cpp:118-121 | overwriting a disabled segment's byte never changes the verdict |
| AddressFilter.AllDisabledAcceptsAll | src/main.cpp:116-121 | with every segment disabled, every address passes |
| AddressFilter.AllEnabledIsEquality | src/main.cpp:38-46 | with every segment enabled, the filter accepts exactly the reference address |
| AddressFilter.ConfiguredFilterIsVendorPrefix | src/main.cpp:36-46 | the shipped configuration accepts exactly the addresses starting AC:A3:1E |
| SignalTable.Abs | src/main.cpp:127-130 | the stored magnitude is non-negative and equals the RSSI or its negation |
| SignalTable.MapInsert | src/main.cpp:130 | insert adds an absent key with the value and leaves a present key's value as it was |
| SignalTable.StoreSignal | src/main.cpp:126-130 | the find / compare / assign-else-insert update equals an unconditional overwrite with abs(RSSI); it adds only the device's key and keeps all values non-negative |
| ScanAggregator.Visit | src/main.cpp:116-134 | one iteration: a passing record adds one to the count and leaves abs(RSSI) under its key without touching other keys; a failing record changes nothing |
| ScanAggregator.Aggregate | src/main.cpp:97-136 | folding the visited records never counts more matches than records, never removes a key and keeps values non-negative |
| ScanAggregator.AggregateCount | src/main.cpp:124-134 | the match count equals the number of records that pass the filter |
| ScanAggregator.AggregateKeys | src/main.cpp:123-134 | the table's keys afterwards are the old keys plus the address strings of the passing records |
| ScanAggregator.AggregateUntouched | src/main.cpp:123-134 | a key that no passing record carries keeps its presence and its value |
| ScanAggregator.AggregateLastWins | src/main.cpp:97-134 | each key of a passing record maps to abs(RSSI) of its last passing occurrence in scan order |
| ScanAggregator.AggregateIgnoresFailing | src/main.cpp:116-134 | removing the records that fail the filter changes neither the count nor the table |
| ScanAggregator.CountDevices | src/main.cpp:82-143 | count_devices returns the number of passing records among the first scanResults, as a uint16 that never wraps, with the table the fold produces; zero or negative scanResults returns 0 and leaves the table alone |
| CountDisplay.PinTableMatchesCount | src/main.cpp:11-22 | the pin table has exactly NUM_PINS entries, one per output line |
| CountDisplay.Render | src/main.cpp:149-163 | disp_count as a function: with the display enabled line i is HIGH iff i < count; with it disabled the levels are unchanged |
| CountDisplay.DispCount | src/main.cpp:149-163 | with the display enabled line i is HIGH iff i < count; with it disabled no line changes |
| CountDisplay.BarCountHigh | src/main.cpp:11-19 | on any number of lines, the bar lights min(count, lines) of them |
| CountDisplay.RenderSaturates | src/main.cpp:152-161 | exactly min(count, NUM_PINS) lines are HIGH and they are the first ones |
| CountDisplay.RenderBounds | src/main.cpp:152-161 | count 0 turns every line LOW and any count of at least NUM_PINS turns every line HIGH |
| CountDisplay.RenderIdempotent | src/main.cpp:149-163 | the levels depend only on the count, so rendering twice equals rendering once |
| Firmware.Cycle | src/main.cpp:180-191 | one loop stores the number of passing records, adds exactly their keys to the table and shows the stored count on the LEDs |
| Firmware.Loop | src/main.cpp:183-188 | calling count_devices and then disp_count gives the cycle above, with a count bounded by scanResults |
| Firmware.Run | src/main.cpp:180-191 | across a run of repeated loop calls over the persistent map (declared at src/main.cpp line 68) the table only gains keys and keeps its values non-negative |
| Firmware.RunAppend | src/main.cpp:180-191 | running two runs of cycles back to back equals running their concatenation |
| Firmware.KeysOnlyGrow | src/main.cpp:124-134 | the key set after any cycle is contained in the key set after every later cycle |
| Firmware.RunKeys | src/main.cpp:124-134 | after a run, a key is in the table iff it was there before or some cycle saw a passing record with that address string |
| Firmware.TableFromPowerOn | src/main.cpp:62-68 | from the power-on state, a key is present iff its address passed the filter in some cycle, and all values are non-negative |
| Scenarios.OneMatchingDevice | src/main.cpp:180-191 | one matching device at -42 stores 42, counts 1 and lights only the first LED |
| Scenarios.ThirdSegmentDiffers | src/main.cpp:116-121 | an address that differs in the third enabled segment is not stored, not counted and lights nothing |
| Scenarios.EmptyScan | src/main.cpp:84-97 | an empty scan or a driver error code counts 0, keeps the table and turns every LED off |
| Scenarios.SignalUpdatesAcrossCycles | src/main.cpp:126-130 | the same device seen at -42 and then at -50 has its stored magnitude updated from 42 to 50 |

## Left out

- Serial output is not modelled. This covers the "no devices" message, the per-device listing under `PRINT_FOUND_DEVICES` and the per-cycle summary. These are diagnostics with no effect on state.
- The radio driver calls are not modelled: `scanNetworks`, `SSID`, `RSSI`, `BSSID`, `BSSIDstr` and `scanDelete`. They belong to a foreign library, and their results become the `Scan` input.
- The formatting of a MAC address into its string is done by the driver and is not modelled. The model takes the string key as given.
- Platform setup is not modelled: `setup`'s `Serial.begin`, `WiFi.persistent` and `pinMode`. Only its effect is kept, as the power-on state with every LED LOW and an empty table.
- The `delay(100)` between cycles is not modelled, because the model has no notion of time.
- The OLED and Wire includes are not modelled, because the code never uses them.
- The physical pin numbers in `LED_PINS` are not modelled. The model tracks one level per position, and the pin numbers matter only to `digitalWrite`.
