/**
 The LED count display: output line `i` is driven HIGH exactly when `i` is
 below the count, so the lit lines form a bar that saturates silently when the
 count exceeds the number of lines.
 */
module CountDisplay {

  import opened Types

  /** The output pins, lit in this order. */
  const LED_PINS: seq<uint8> := [32, 33, 25]
  const NUM_PINS: uint8 := 3

  /** Whether the count is shown on the LEDs at all. */
  const DISP_LEDS: bool := true

  /** The level of each output line, by position in `LED_PINS`; `true` is HIGH. */
  type PinLevels = p: seq<bool> | |p| == NUM_PINS as int
    witness [false, false, false]

  /** Every line LOW: what `setup` writes to the pins when the display is enabled. */
  const ALL_LOW: PinLevels := [false, false, false]

  /** One output line per entry of `LED_PINS`, as the pin table's comment asks of `NUM_PINS`. */
  lemma PinTableMatchesCount()
    ensures |LED_PINS| == NUM_PINS as int
  {
  }

  /** Number of lines that are HIGH. */
  function CountHigh(p: seq<bool>): (n: nat)
    ensures n <= |p|
    decreases |p|
  {
    if |p| == 0 then 0 else CountHigh(p[..|p| - 1]) + (if p[|p| - 1] then 1 else 0)
  }

  /** The bar for `count` on `n` lines. */
  function Bar(n: nat, count: int): seq<bool>
  {
    seq(n, i => i < count)
  }

  /** The levels `disp_count` leaves on the lines. */
  function Render(count: uint16, pins: PinLevels, dispLeds: bool): (r: PinLevels)
    ensures dispLeds ==> forall i :: 0 <= i < NUM_PINS as int ==> (r[i] <==> i < count)
    ensures !dispLeds ==> r == pins
  {
    if dispLeds then Bar(NUM_PINS as int, count) else pins
  }

  /** `disp_count`: one write per line, in pin order. */
  method DispCount(count: uint16, pins: PinLevels, dispLeds: bool) returns (pins': PinLevels)
    ensures dispLeds ==> forall i :: 0 <= i < NUM_PINS as int ==> (pins'[i] <==> i < count)
    ensures !dispLeds ==> pins' == pins
    ensures pins' == Render(count, pins, dispLeds)
  {
    pins' := pins;
    if dispLeds {
      var i: uint8 := 0;
      while i < NUM_PINS
        invariant 0 <= i <= NUM_PINS
        invariant forall j :: 0 <= j < i ==> (pins'[j] <==> j < count)
      {
        if i < count {
          pins' := pins'[i := true];
        } else {
          pins' := pins'[i := false];
        }
        i := i + 1;
      }
    }
  }

  /** The number of lit lines is the count, capped at the number of lines. */
  lemma {:induction false} BarCountHigh(n: nat, count: nat)
    ensures CountHigh(Bar(n, count)) == if count < n then count else n
    decreases n
  {
    if n > 0 {
      assert Bar(n, count)[..n - 1] == Bar(n - 1, count);
      BarCountHigh(n - 1, count);
    }
  }

  /** With the display enabled, exactly min(count, NUM_PINS) lines are HIGH, and they come first. */
  lemma RenderSaturates(count: uint16, pins: PinLevels)
    ensures CountHigh(Render(count, pins, true)) == if count < NUM_PINS as int then count else NUM_PINS as int
    ensures forall i, j :: 0 <= i < j < NUM_PINS as int && Render(count, pins, true)[j] ==> Render(count, pins, true)[i]
  {
    BarCountHigh(NUM_PINS as int, count);
  }

  /** A zero count turns every line LOW; a count of at least NUM_PINS turns every line HIGH. */
  lemma RenderBounds(count: uint16, pins: PinLevels)
    ensures count == 0 ==> Render(count, pins, true) == ALL_LOW
    ensures count >= NUM_PINS as int ==> Render(count, pins, true) == [true, true, true]
  {
  }

  /** The rendered levels depend only on the count, so rendering twice equals rendering once. */
  lemma RenderIdempotent(count: uint16, pins: PinLevels, other: PinLevels, dispLeds: bool)
    ensures Render(count, Render(count, pins, dispLeds), dispLeds) == Render(count, pins, dispLeds)
    ensures dispLeds ==> Render(count, pins, dispLeds) == Render(count, other, dispLeds)
  {
  }

}
