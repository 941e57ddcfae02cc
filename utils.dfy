/** The small display and timing helpers: `formatArray` and `calcDuration`. */
module Utils {
  import opened Text

  function Min(a: int, b: int): int
  {
    if a <= b then a else b
  }

  /** `Array.prototype.slice(start)`: a negative start counts from the end
      and is clamped to 0, a large one is clamped to the length. */
  function SliceFrom<T>(s: seq<T>, start: int): (r: seq<T>)
    ensures start >= 0 ==> r == s[Min(start, |s|)..]
    ensures start < 0 ==> r == s[|s| - Min(-start, |s|)..]
  {
    var k := if start < 0 then (if |s| + start < 0 then 0 else |s| + start) else Min(start, |s|);
    s[k..]
  }

  /** The elements `formatArray` shows: `arr.slice(-maxDisplay)` when the
      array is longer than `maxDisplay`, else all of it. */
  function DisplayWindow<T>(arr: seq<T>, maxDisplay: int): (w: seq<T>)
    ensures |w| <= |arr| && w == arr[|arr| - |w|..]
    ensures maxDisplay > 0 ==> |w| == Min(|arr|, maxDisplay)
    ensures maxDisplay == 0 ==> w == arr
    ensures maxDisplay < 0 ==> w == arr[Min(-maxDisplay, |arr|)..]
  {
    if |arr| > maxDisplay then SliceFrom(arr, -maxDisplay) else arr
  }

  /** Windowing twice with a positive size shows the same elements as once. */
  lemma DisplayWindowIdempotent<T>(arr: seq<T>, maxDisplay: int)
    requires maxDisplay > 0
    ensures DisplayWindow(DisplayWindow(arr, maxDisplay), maxDisplay) == DisplayWindow(arr, maxDisplay)
  {
  }

  /** The last `b` elements of the last `a` are the last `b`. */
  lemma SuffixOfSuffix<T>(arr: seq<T>, a: nat, b: nat)
    requires b <= a <= |arr|
    ensures arr[|arr| - a..][a - b..] == arr[|arr| - b..]
  {
  }

  /** A shorter window is a suffix of a longer one. */
  lemma DisplayWindowNested<T>(arr: seq<T>, small: int, large: int)
    requires 0 < small <= large
    ensures DisplayWindow(arr, small) == DisplayWindow(DisplayWindow(arr, large), small)
  {
    var a := Min(|arr|, large);
    var b := Min(|arr|, small);
    var wl := DisplayWindow(arr, large);
    assert wl == arr[|arr| - a..];
    assert DisplayWindow(wl, small) == wl[a - b..];
    SuffixOfSuffix(arr, a, b);
  }

  /** `formatArray(arr, maxDisplay)` on the elements' printed forms. */
  function FormatArray(items: seq<string>, maxDisplay: int := 10): (r: string)
    ensures |r| >= 2 && r[0] == '[' && r[|r| - 1] == ']'
    ensures r[1..|r| - 1] == Join(DisplayWindow(items, maxDisplay), ", ")
  {
    "[" + Join(DisplayWindow(items, maxDisplay), ", ") + "]"
  }

  /** With a positive size, the output lists exactly the last
      `min(n, maxDisplay)` elements in their original order. */
  lemma FormatArrayShowsLast(items: seq<string>, maxDisplay: int)
    requires maxDisplay > 0
    ensures FormatArray(items, maxDisplay) == "[" + Join(items[|items| - Min(|items|, maxDisplay)..], ", ") + "]"
    ensures |items| <= maxDisplay ==> FormatArray(items, maxDisplay) == "[" + Join(items, ", ") + "]"
  {
    var w := DisplayWindow(items, maxDisplay);
    assert w == items[|items| - Min(|items|, maxDisplay)..];
    if |items| <= maxDisplay {
      assert items[0..] == items;
    }
  }

  /** The units `calcDuration` accepts. */
  datatype TimeUnit = Ms | S | M | H | D

  /** Milliseconds per unit. */
  function UnitMillis(unit: TimeUnit): (n: nat)
    ensures n >= 1
  {
    match unit
    case Ms => 1
    case S => 1000
    case M => 1000 * 60
    case H => 1000 * 60 * 60
    case D => 1000 * 60 * 60 * 24
  }

  /** `calcDuration(startTime, endTime, unit)`: 0 for a falsy start, else
      the whole number of units between the two timestamps, rounded down
      (`Math.floor`, also for a negative difference). The default end time,
      the clock, is a parameter here; the unit defaults to seconds. */
  function CalcDuration(startTime: int, endTime: int, unit: TimeUnit := S): (r: int)
    ensures startTime == 0 ==> r == 0
    ensures startTime != 0 ==>
      r * UnitMillis(unit) <= endTime - startTime < (r + 1) * UnitMillis(unit)
  {
    if startTime == 0 then 0
    else
      var diffMs := endTime - startTime;
      match unit
      case Ms => diffMs
      case S => diffMs / 1000
      case M => diffMs / (1000 * 60)
      case H => diffMs / (1000 * 60 * 60)
      case D => diffMs / (1000 * 60 * 60 * 24)
  }

  /** Multiplying by a non-negative factor keeps an inequality. */
  lemma MulMonotone(u: int, v: int, a: int)
    requires u <= v && a >= 0
    ensures u * a <= v * a
  {
    assert v * a - u * a == (v - u) * a;
  }

  /** Floor division by a positive divisor is monotone. */
  lemma FloorMonotone(x: int, y: int, d: int, qx: int, qy: int)
    requires d >= 1 && x <= y
    requires qx * d <= x && y < (qy + 1) * d
    ensures qx <= qy
  {
    if qy + 1 <= qx {
      MulMonotone(qy + 1, qx, d);
      assert false;
    }
  }

  /** For a fixed start, a later end never gives a shorter duration. */
  lemma CalcDurationMonotone(startTime: int, end1: int, end2: int, unit: TimeUnit)
    requires end1 <= end2
    ensures CalcDuration(startTime, end1, unit) <= CalcDuration(startTime, end2, unit)
  {
    if startTime != 0 {
      FloorMonotone(end1 - startTime, end2 - startTime, UnitMillis(unit),
                    CalcDuration(startTime, end1, unit), CalcDuration(startTime, end2, unit));
    }
  }

  /** The quotient is the unique integer whose multiples bracket `x`. */
  lemma FloorUnique(x: int, d: int, q: int)
    requires d >= 1
    requires q * d <= x < (q + 1) * d
    ensures x / d == q
  {
    var r := x / d;
    assert r * d <= x < (r + 1) * d;
    FloorMonotone(x, x, d, q, r);
    FloorMonotone(x, x, d, r, q);
  }

  /** Rounding down twice equals rounding down once by the product. */
  lemma FloorOfFloor(x: int, a: int, b: int)
    requires a >= 1 && b >= 1
    ensures (x / a) / b == x / (a * b)
  {
    var q := x / a;
    var r := q / b;
    assert q * a <= x < (q + 1) * a;
    assert r * b <= q < (r + 1) * b;
    MulMonotone(r * b, q, a);
    MulMonotone(q + 1, (r + 1) * b, a);
    assert r * b * a == r * (a * b);
    assert (r + 1) * b * a == (r + 1) * (a * b);
    FloorUnique(x, a * b, r);
  }

  /** The coarser units are the finer ones rounded down again. */
  lemma CalcDurationUnitsAgree(startTime: int, endTime: int)
    ensures CalcDuration(startTime, endTime, M) == CalcDuration(startTime, endTime, S) / 60
    ensures CalcDuration(startTime, endTime, H) == CalcDuration(startTime, endTime, M) / 60
    ensures CalcDuration(startTime, endTime, D) == CalcDuration(startTime, endTime, H) / 24
  {
    var diff := endTime - startTime;
    FloorOfFloor(diff, 1000, 60);
    FloorOfFloor(diff, 1000 * 60, 60);
    FloorOfFloor(diff, 1000 * 60 * 60, 24);
  }
}
