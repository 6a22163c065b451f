/**
 * Analog reading of a potentiometer through a digital pin: the time a
 * capacitor takes to charge through the potentiometer is measured between
 * the start of a charge cycle and the rising edge it produces. Charge times
 * are collected in a fixed buffer; each full buffer widens the calibration
 * bounds by its median and yields a reading normalised against them.
 */
module CapKnob {
  import opened Wrappers

  // Sorting, counting and the median

  ghost predicate Sorted(s: seq<int>) {
    forall i, j :: 0 <= i < j < |s| ==> s[i] <= s[j]
  }

  function Insert(x: int, s: seq<int>): (r: seq<int>)
    requires Sorted(s)
    ensures Sorted(r) && multiset(r) == multiset(s) + multiset{x}
    ensures |r| == |s| + 1 && (r[0] == x || (s != [] && r[0] == s[0]))
  {
    if s == [] || x <= s[0] then [x] + s
    else
      assert s == [s[0]] + s[1..];
      var rest := Insert(x, s[1..]);
      SortedCons(s[0], rest);
      assert multiset([s[0]] + rest) == multiset{s[0]} + multiset(rest);
      [s[0]] + rest
  }

  lemma SortedCons(y: int, r: seq<int>)
    requires Sorted(r) && |r| > 0 && y <= r[0]
    ensures Sorted([y] + r)
  {
  }

  /** The ascending copy that a numeric sort of a sliced copy produces. */
  function SortedCopy(s: seq<int>): (r: seq<int>)
    ensures Sorted(r) && multiset(r) == multiset(s) && |r| == |s|
  {
    if s == [] then []
    else
      assert s == [s[0]] + s[1..];
      Insert(s[0], SortedCopy(s[1..]))
  }

  /** How many elements of `s` are smaller than `x`. */
  function CountBelow(s: seq<int>, x: int): nat {
    if s == [] then 0 else (if s[0] < x then 1 else 0) + CountBelow(s[1..], x)
  }

  /** How many elements of `s` are larger than `x`. */
  function CountAbove(s: seq<int>, x: int): nat {
    if s == [] then 0 else (if s[0] > x then 1 else 0) + CountAbove(s[1..], x)
  }

  lemma {:induction false} CountAppend(a: seq<int>, b: seq<int>, x: int)
    ensures CountBelow(a + b, x) == CountBelow(a, x) + CountBelow(b, x)
    ensures CountAbove(a + b, x) == CountAbove(a, x) + CountAbove(b, x)
  {
    if a != [] {
      assert (a + b)[1..] == a[1..] + b;
      CountAppend(a[1..], b, x);
    } else {
      assert a + b == b;
    }
  }

  lemma {:induction false} CountInsert(y: int, s: seq<int>, x: int)
    requires Sorted(s)
    ensures CountBelow(Insert(y, s), x) == CountBelow(s, x) + (if y < x then 1 else 0)
    ensures CountAbove(Insert(y, s), x) == CountAbove(s, x) + (if y > x then 1 else 0)
  {
    if s != [] && y > s[0] {
      CountInsert(y, s[1..], x);
    }
  }

  lemma {:induction false} CountSortedCopy(s: seq<int>, x: int)
    ensures CountBelow(SortedCopy(s), x) == CountBelow(s, x)
    ensures CountAbove(SortedCopy(s), x) == CountAbove(s, x)
  {
    if s != [] {
      CountSortedCopy(s[1..], x);
      CountInsert(s[0], SortedCopy(s[1..]), x);
    }
  }

  lemma {:induction false} CountAtMost(s: seq<int>, x: int)
    ensures CountBelow(s, x) <= |s| && CountAbove(s, x) <= |s|
  {
    if s != [] {
      CountAtMost(s[1..], x);
    }
  }

  /** Counts when every element lies on one side of `x`. */
  lemma {:induction false} CountOneSide(s: seq<int>, x: int)
    ensures (forall i :: 0 <= i < |s| ==> s[i] >= x) ==> CountBelow(s, x) == 0
    ensures (forall i :: 0 <= i < |s| ==> s[i] <= x) ==> CountAbove(s, x) == 0
    ensures (forall i :: 0 <= i < |s| ==> s[i] < x) ==> CountBelow(s, x) == |s|
    ensures (forall i :: 0 <= i < |s| ==> s[i] > x) ==> CountAbove(s, x) == |s|
  {
    if s != [] {
      CountOneSide(s[1..], x);
    }
  }

  /** In a sorted sequence, at most `k` elements lie below the one at `k`. */
  lemma SortedCounts(r: seq<int>, k: nat)
    requires Sorted(r) && k < |r|
    ensures CountBelow(r, r[k]) <= k
    ensures CountAbove(r, r[k]) <= |r| - 1 - k
  {
    SortedBelow(r, k);
    SortedAbove(r, k);
  }

  lemma SortedBelow(r: seq<int>, k: nat)
    requires Sorted(r) && k < |r|
    ensures CountBelow(r, r[k]) <= k
  {
    var x, hi := r[k], r[k..];
    assert r == r[..k] + hi;
    CountAppend(r[..k], hi, x);
    CountAtMost(r[..k], x);
    assert forall i :: 0 <= i < |hi| ==> hi[i] >= x by {
      forall i | 0 <= i < |hi| ensures hi[i] >= x {
        assert hi[i] == r[k + i];
      }
    }
    CountOneSide(hi, x);
  }

  lemma SortedAbove(r: seq<int>, k: nat)
    requires Sorted(r) && k < |r|
    ensures CountAbove(r, r[k]) <= |r| - 1 - k
  {
    var x, lo := r[k], r[..k + 1];
    assert r == lo + r[k + 1..];
    CountAppend(lo, r[k + 1..], x);
    CountAtMost(r[k + 1..], x);
    assert forall i :: 0 <= i < |lo| ==> lo[i] <= x by {
      forall i | 0 <= i < |lo| ensures lo[i] <= x {
        assert lo[i] == r[i];
      }
    }
    CountOneSide(lo, x);
  }

  /**
   * `median`: the element at index `floor(n / 2)` of a sorted copy, which
   * is the middle element for odd `n` and the upper of the two middle ones
   * for even `n`. It is an element of the input; at most `n / 2` elements
   * are smaller and at most `(n - 1) / 2` larger.
   */
  function Median(s: seq<int>): (m: int)
    requires |s| > 0
    ensures m in s
    ensures CountBelow(s, m) <= |s| / 2
    ensures CountAbove(s, m) <= (|s| - 1) / 2
  {
    var r := SortedCopy(s);
    SortedCounts(r, |s| / 2);
    CountSortedCopy(s, r[|s| / 2]);
    assert r[|s| / 2] in multiset(s);
    r[|s| / 2]
  }

  /**
   * The two count bounds single out the median: no other number has at
   * most `n / 2` elements below it and at most `(n - 1) / 2` above it.
   */
  lemma MedianUnique(s: seq<int>, x: int)
    requires |s| > 0
    requires CountBelow(s, x) <= |s| / 2 && CountAbove(s, x) <= (|s| - 1) / 2
    ensures x == Median(s)
  {
    var r, k := SortedCopy(s), |s| / 2;
    CountSortedCopy(s, x);
    if x < r[k] {
      AboveFrom(r, k, x);
    } else if x > r[k] {
      BelowThrough(r, k, x);
    }
  }

  /**
   * For an even length the median is the upper of the two middle elements,
   * not their mean: of 4, 1, 3, 2 it is 3.
   */
  lemma MedianOfEvenIsUpperMiddle()
    ensures Median([4, 1, 3, 2]) == 3
  {
    var s := [4, 1, 3, 2];
    assert s[1..] == [1, 3, 2] && s[1..][1..] == [3, 2] && s[1..][1..][1..] == [2];
    MedianUnique(s, 3);
  }

  /** Below position `k` of a sorted sequence, everything above `x < r[k]` counts. */
  lemma AboveFrom(r: seq<int>, k: nat, x: int)
    requires Sorted(r) && k < |r| && x < r[k]
    ensures CountAbove(r, x) >= |r| - k
  {
    var hi := r[k..];
    assert r == r[..k] + hi;
    assert forall i :: 0 <= i < |hi| ==> hi[i] > x by {
      forall i | 0 <= i < |hi| ensures hi[i] > x {
        assert hi[i] == r[k + i] >= r[k];
      }
    }
    CountAppend(r[..k], hi, x);
    CountOneSide(hi, x);
  }

  /** Up to position `k` of a sorted sequence, everything is below `x > r[k]`. */
  lemma BelowThrough(r: seq<int>, k: nat, x: int)
    requires Sorted(r) && k < |r| && x > r[k]
    ensures CountBelow(r, x) >= k + 1
  {
    var lo := r[..k + 1];
    assert r == lo + r[k + 1..];
    assert forall i :: 0 <= i < |lo| ==> lo[i] < x by {
      forall i | 0 <= i < |lo| ensures lo[i] < x {
        assert lo[i] == r[i] <= r[k];
      }
    }
    CountAppend(lo, r[k + 1..], x);
    CountOneSide(lo, x);
  }

  // Averages

  /** The left-to-right sum that `reduce((acc, val) => acc + val, 0)` computes. */
  function Sum(s: seq<int>): int {
    if s == [] then 0 else Sum(s[..|s| - 1]) + s[|s| - 1]
  }

  /** `average`: the sum divided by the length (callers pass non-empty arrays). */
  function Average(s: seq<int>): real
    requires |s| > 0
  {
    Sum(s) as real / |s| as real
  }

  /** A buffer of equal samples averages to that sample. */
  lemma AverageConstant(s: seq<int>)
    requires |s| > 0 && forall i :: 0 <= i < |s| ==> s[i] == s[0]
    ensures Average(s) == s[0] as real
  {
    SumWithin(s, s[0], s[0]);
  }

  lemma {:induction false} SumWithin(s: seq<int>, lo: int, hi: int)
    requires forall i :: 0 <= i < |s| ==> lo <= s[i] <= hi
    ensures lo * |s| <= Sum(s) <= hi * |s|
  {
    if s != [] {
      SumWithin(s[..|s| - 1], lo, hi);
    }
  }

  /** The average of values inside [lo, hi] lies inside [lo, hi]. */
  lemma AverageWithin(s: seq<int>, lo: int, hi: int)
    requires |s| > 0
    requires forall i :: 0 <= i < |s| ==> lo <= s[i] <= hi
    ensures lo as real <= Average(s) <= hi as real
  {
    SumWithin(s, lo, hi);
    DivWithin(Sum(s) as real, |s| as real, lo as real, hi as real);
  }

  lemma DivWithin(t: real, n: real, lo: real, hi: real)
    requires n > 0.0 && lo * n <= t <= hi * n
    ensures lo <= t / n <= hi
  {
    var q := t / n;
    assert q * n == t;
    if q < lo {
      ProductBelow(q, lo, n);
    }
    if q > hi {
      ProductBelow(hi, q, n);
    }
  }

  lemma ProductBelow(x: real, y: real, n: real)
    requires x < y && n > 0.0
    ensures x * n < y * n
  {
    assert (y - x) * n > 0.0;
  }

  /** `filter(x => x >= min && x <= max)`: the values inside the bounds, in order. */
  function InBounds(s: seq<int>, lo: int, hi: int): (r: seq<int>)
    ensures forall i :: 0 <= i < |r| ==> lo <= r[i] <= hi
    ensures forall x :: x in s && lo <= x <= hi ==> x in r
    ensures multiset(r) <= multiset(s)
    ensures forall x :: multiset(r)[x] == if lo <= x <= hi then multiset(s)[x] else 0
  {
    if s == [] then []
    else
      assert s == [s[0]] + s[1..];
      var head := if lo <= s[0] <= hi then [s[0]] else [];
      var rest := InBounds(s[1..], lo, hi);
      assert multiset(head + rest) == multiset(head) + multiset(rest);
      head + rest
  }

  // The edge handler as a state machine

  /** The value both calibration bounds hold until the first full buffer. */
  const Unset: int := -1

  /**
   * Everything the edge handler reads and writes: the tick at which the
   * current charge began (None when no charge is armed), the sample buffer
   * and its fill index, the calibration bounds and the last reading.
   */
  datatype KnobState = KnobState(
    startTick: Option<int>,
    buffer: seq<int>,
    index: nat,
    min: int,
    max: int,
    reading: Option<real>)

  /**
   * Between events the index is inside the buffer, the samples taken in
   * the current round are positive charge times, and the bounds are either
   * both unset or an interval of positive charge times.
   */
  ghost predicate Consistent(s: KnobState) {
    s.index < |s.buffer| &&
    (forall i :: 0 <= i < s.index ==> s.buffer[i] > 0) &&
    ((s.min == Unset && s.max == Unset) || 0 < s.min <= s.max)
  }

  /** The new state, and the value passed to `onReading` if it is called. */
  datatype EdgeResult = EdgeResult(state: KnobState, emitted: Option<real>)

  /**
   * The `notify` handler on a `(level, tick)` event. Only a rising edge of
   * an armed charge does anything; it always disarms, and it records the
   * charge time unless the tick did not advance. A sample that fills the
   * buffer triggers the calibration step.
   */
  function Edge(s: KnobState, level: int, tick: int): (r: EdgeResult)
    requires s.index < |s.buffer|
    ensures |r.state.buffer| == |s.buffer| && r.state.index < |r.state.buffer|
  {
    if level != 1 || s.startTick.None? then EdgeResult(s, None)
    else
      var startTick := s.startTick.value;
      var disarmed := s.(startTick := None);
      if tick <= startTick then EdgeResult(disarmed, None)
      else
        var buffer := s.buffer[s.index := tick - startTick];
        if s.index + 1 < |buffer| then EdgeResult(disarmed.(buffer := buffer, index := s.index + 1), None)
        else Calibrate(disarmed.(buffer := buffer))
  }

  /**
   * A reading as a fraction of the calibrated range: 0 at `min`, 1 at
   * `max`, so inside [0, 1] for a reading inside the bounds.
   */
  function Normalise(reading: real, lo: int, hi: int): (v: real)
    requires lo < hi
    ensures reading == lo as real ==> v == 0.0
    ensures reading == hi as real ==> v == 1.0
    ensures lo as real <= reading <= hi as real ==> 0.0 <= v <= 1.0
  {
    FractionWithin(reading, lo, hi);
    (reading - lo as real) / (hi - lo) as real
  }

  /** A reading inside the bounds is a fraction in [0, 1] of their spread. */
  lemma FractionWithin(reading: real, lo: int, hi: int)
    requires lo < hi
    ensures lo as real <= reading <= hi as real ==>
      0.0 <= (reading - lo as real) / (hi - lo) as real <= 1.0
  {
    if lo as real <= reading <= hi as real {
      DivWithin(reading - lo as real, (hi - lo) as real, 0.0, 1.0);
    }
  }

  /**
   * The step on a full buffer: its median widens the bounds (or sets them,
   * the first time), the samples inside the bounds are averaged into the
   * reading, the normalised reading is reported when the bounds have
   * spread, and the buffer starts over.
   */
  function Calibrate(s: KnobState): (r: EdgeResult)
    requires |s.buffer| > 0
    ensures r.state.buffer == s.buffer && r.state.index == 0 && r.state.startTick == s.startTick
    ensures r.emitted.Some? ==> r.state.min < r.state.max
  {
    var m := Median(s.buffer);
    var lo := if s.min == Unset then m else Min(s.min, m);
    var hi := if s.max == Unset then m else Max(s.max, m);
    var valid := InBounds(s.buffer, lo, hi);
    var reading := if |valid| > 0 then Some(Average(valid)) else s.reading;
    var emitted :=
      if |valid| > 0 && hi > lo then Some(Normalise(reading.value, lo, hi)) else None;
    EdgeResult(s.(index := 0, min := lo, max := hi, reading := reading), emitted)
  }

  /**
   * On a buffer of positive charge times: the median lies inside the new
   * bounds; bounds once set only widen; the in-bounds samples always
   * include the median, so the reading becomes their average, which lies
   * inside the bounds; and a value is reported exactly when the bounds have
   * spread, namely the reading normalised against them, a value in [0, 1].
   */
  lemma CalibrateBounds(s: KnobState)
    requires |s.buffer| > 0 && forall i :: 0 <= i < |s.buffer| ==> s.buffer[i] > 0
    requires (s.min == Unset && s.max == Unset) || 0 < s.min <= s.max
    ensures var r := Calibrate(s);
      var m, after := Median(s.buffer), r.state;
      after.buffer == s.buffer && after.index == 0 && after.startTick == s.startTick &&
      0 < after.min <= m <= after.max &&
      (s.min != Unset ==> after.min <= s.min && s.max <= after.max) &&
      |InBounds(s.buffer, after.min, after.max)| > 0 &&
      after.reading == Some(Average(InBounds(s.buffer, after.min, after.max))) &&
      after.min as real <= after.reading.value <= after.max as real &&
      (r.emitted.Some? <==> after.max > after.min) &&
      (r.emitted.Some? ==>
        r.emitted.value == Normalise(after.reading.value, after.min, after.max) &&
        0.0 <= r.emitted.value <= 1.0)
  {
    var m := Median(s.buffer);
    assert m > 0 by {
      assert s.buffer[IndexOf(s.buffer, m)] > 0;
    }
    var lo := if s.min == Unset then m else Min(s.min, m);
    var hi := if s.max == Unset then m else Max(s.max, m);
    FilterAverage(s.buffer, m, lo, hi);
    var reading := Average(InBounds(s.buffer, lo, hi));
    var emitted := if hi > lo then Some(Normalise(reading, lo, hi)) else None;
    assert Calibrate(s) == EdgeResult(s.(index := 0, min := lo, max := hi, reading := Some(reading)), emitted);
  }

  function IndexOf(s: seq<int>, x: int): (i: nat)
    requires x in s
    ensures i < |s| && s[i] == x
  {
    if s[0] == x then 0 else 1 + IndexOf(s[1..], x)
  }

  /**
   * Bounds around a sample keep at least that sample through the filter,
   * and the average of what survives lies within the bounds.
   */
  lemma FilterAverage(b: seq<int>, m: int, lo: int, hi: int)
    requires m in b && lo <= m <= hi
    ensures |InBounds(b, lo, hi)| > 0
    ensures lo as real <= Average(InBounds(b, lo, hi)) <= hi as real
  {
    var valid := InBounds(b, lo, hi);
    assert m in valid;
    AverageWithin(valid, lo, hi);
  }

  /** The full-buffer step reads neither the charge start nor the index. */
  lemma CalibrateFrame(x: KnobState, y: KnobState)
    requires |x.buffer| > 0
    requires x.buffer == y.buffer && x.min == y.min && x.max == y.max && x.reading == y.reading
    ensures Calibrate(x).emitted == Calibrate(y).emitted
    ensures Calibrate(x).state == Calibrate(y).state.(startTick := x.startTick)
  {
  }

  /** Whether `Edge` on this event completes a buffer. */
  ghost predicate Fills(s: KnobState, level: int, tick: int) {
    level == 1 && s.startTick.Some? && tick > s.startTick.value && s.index + 1 >= |s.buffer|
  }

  /** The full buffer a filling sample hands to the calibration step. */
  function Filled(s: KnobState, tick: int): KnobState
    requires s.startTick.Some? && s.index < |s.buffer|
  {
    s.(startTick := None, buffer := s.buffer[s.index := tick - s.startTick.value])
  }

  lemma EdgeFills(s: KnobState, level: int, tick: int)
    requires Consistent(s) && Fills(s, level, tick)
    ensures Edge(s, level, tick) == Calibrate(Filled(s, tick))
    ensures var f := Filled(s, tick);
      |f.buffer| > 0 && (forall i :: 0 <= i < |f.buffer| ==> f.buffer[i] > 0) &&
      ((f.min == Unset && f.max == Unset) || 0 < f.min <= f.max)
  {
    var start := s.startTick.value;
    var f := Filled(s, tick);
    assert s.index == |s.buffer| - 1;
    assert s.(startTick := None).(buffer := s.buffer[s.index := tick - start]) == f;
    forall i | 0 <= i < |f.buffer| ensures f.buffer[i] > 0 {
      if i != s.index {
        assert i < s.index && f.buffer[i] == s.buffer[i];
      }
    }
  }

  /** The handler keeps the state consistent. */
  lemma EdgeConsistent(s: KnobState, level: int, tick: int)
    requires Consistent(s)
    ensures Consistent(Edge(s, level, tick).state)
  {
    if Fills(s, level, tick) {
      EdgeFills(s, level, tick);
      CalibrateBounds(Filled(s, tick));
    }
  }

  /**
   * Events other than the rising edge of an armed charge change nothing;
   * the rising edge of an armed charge always disarms it, so a second edge
   * before the next charge starts takes no sample: at most one sample per
   * charge.
   */
  lemma EdgeOneSamplePerCharge(s: KnobState, level: int, tick: int, level2: int, tick2: int)
    requires Consistent(s)
    ensures level != 1 || s.startTick.None? ==> Edge(s, level, tick) == EdgeResult(s, None)
    ensures level == 1 && s.startTick.Some? ==>
      var after := Edge(s, level, tick).state;
      after.startTick.None? && Edge(after, level2, tick2) == EdgeResult(after, None)
  {
    EdgeConsistent(s, level, tick);
    if Fills(s, level, tick) {
      EdgeFills(s, level, tick);
      CalibrateBounds(Filled(s, tick));
    }
  }

  /**
   * A rising edge whose tick did not advance past the start of the charge
   * is a glitch: it only disarms, leaving buffer, index and bounds alone.
   */
  lemma EdgeGlitch(s: KnobState, tick: int)
    requires Consistent(s) && s.startTick.Some? && tick <= s.startTick.value
    ensures Edge(s, 1, tick) == EdgeResult(s.(startTick := None), None)
  {
  }

  /**
   * An accepted sample is the charge time, stored at the index; no other
   * slot changes, and the index advances, wrapping to 0 exactly when the
   * buffer fills.
   */
  lemma EdgeRecords(s: KnobState, tick: int)
    requires Consistent(s) && s.startTick.Some? && tick > s.startTick.value
    ensures var after := Edge(s, 1, tick).state;
      |after.buffer| == |s.buffer| &&
      after.buffer[s.index] == tick - s.startTick.value > 0 &&
      (forall i :: 0 <= i < |s.buffer| && i != s.index ==> after.buffer[i] == s.buffer[i]) &&
      (after.index == 0 <==> s.index + 1 == |s.buffer|) &&
      (after.index != 0 ==> after.index == s.index + 1)
  {
    if Fills(s, 1, tick) {
      EdgeFills(s, 1, tick);
      CalibrateBounds(Filled(s, tick));
    }
  }

  /**
   * A filling sample calibrates: the new bounds contain the median of the
   * full buffer and, once set, only widen; the reading becomes the average
   * of the in-bounds samples, of which there always is at least one.
   */
  lemma EdgeCalibrates(s: KnobState, level: int, tick: int)
    requires Consistent(s) && Fills(s, level, tick)
    ensures var after := Edge(s, level, tick).state;
      after.index == 0 &&
      0 < after.min <= Median(after.buffer) <= after.max &&
      (s.min != Unset ==> after.min <= s.min && s.max <= after.max) &&
      |InBounds(after.buffer, after.min, after.max)| > 0 &&
      after.reading == Some(Average(InBounds(after.buffer, after.min, after.max)))
  {
    EdgeFills(s, level, tick);
    CalibrateBounds(Filled(s, tick));
  }

  /**
   * `onReading` is called exactly when a buffer fills with the bounds
   * spread (`max > min`), and then with the reading normalised against the
   * bounds, a value in [0, 1].
   */
  lemma EdgeEmits(s: KnobState, level: int, tick: int)
    requires Consistent(s)
    ensures var r := Edge(s, level, tick);
      (r.emitted.Some? <==> Fills(s, level, tick) && r.state.max > r.state.min) &&
      (r.emitted.Some? ==>
        r.state.reading.Some? &&
        r.emitted.value == Normalise(r.state.reading.value, r.state.min, r.state.max) &&
        0.0 <= r.emitted.value <= 1.0)
  {
    if Fills(s, level, tick) {
      EdgeFills(s, level, tick);
      CalibrateBounds(Filled(s, tick));
    } else {
      assert Edge(s, level, tick).emitted.None?;
    }
  }

  // Runs of events

  /** An event reaching the handler: a charge starting, or a pin notification. */
  datatype Event = ChargeStarted(tick: int) | Notified(level: int, tick: int)

  function Step(s: KnobState, e: Event): EdgeResult
    requires Consistent(s)
  {
    match e
    case ChargeStarted(t) => EdgeResult(s.(startTick := Some(t)), None)
    case Notified(level, t) => Edge(s, level, t)
  }

  /** The state after a run of events, and every value reported on the way. */
  function Run(s: KnobState, events: seq<Event>): (r: EdgeRun)
    requires Consistent(s)
    ensures Consistent(r.state)
    decreases |events|
  {
    if events == [] then EdgeRun(s, [])
    else
      var step := Step(s, events[0]);
      StepConsistent(s, events[0]);
      var rest := Run(step.state, events[1..]);
      EdgeRun(rest.state, (if step.emitted.Some? then [step.emitted.value] else []) + rest.emitted)
  }

  datatype EdgeRun = EdgeRun(state: KnobState, emitted: seq<real>)

  lemma StepConsistent(s: KnobState, e: Event)
    requires Consistent(s)
    ensures Consistent(Step(s, e).state)
  {
    if e.Notified? {
      EdgeConsistent(s, e.level, e.tick);
    }
  }

  /** One event widens the bounds, if at all, and reports only values in [0, 1]. */
  lemma StepWidensAndNormalises(s: KnobState, e: Event)
    requires Consistent(s)
    ensures var r := Step(s, e);
      (s.min != Unset ==> r.state.min != Unset && r.state.min <= s.min && s.max <= r.state.max) &&
      (r.emitted.Some? ==> 0.0 <= r.emitted.value <= 1.0)
  {
    if e.Notified? {
      EdgeEmits(s, e.level, e.tick);
      if Fills(s, e.level, e.tick) {
        EdgeCalibrates(s, e.level, e.tick);
      } else {
        assert Step(s, e).state.min == s.min && Step(s, e).state.max == s.max;
      }
    }
  }

  ghost predicate AllInUnit(vs: seq<real>) {
    forall i :: 0 <= i < |vs| ==> 0.0 <= vs[i] <= 1.0
  }

  /**
   * Over any run of events the bounds only widen once set, and every value
   * reported lies in [0, 1].
   */
  lemma {:induction false} RunWidensAndNormalises(s: KnobState, events: seq<Event>)
    requires Consistent(s)
    ensures var r := Run(s, events);
      (s.min != Unset ==> r.state.min != Unset && r.state.min <= s.min && s.max <= r.state.max) &&
      AllInUnit(r.emitted)
    decreases |events|
  {
    if events != [] {
      var e := events[0];
      StepConsistent(s, e);
      StepWidensAndNormalises(s, e);
      var step := Step(s, e);
      var head := if step.emitted.Some? then [step.emitted.value] else [];
      RunWidensAndNormalises(step.state, events[1..]);
      var rest := Run(step.state, events[1..]);
      assert Run(s, events).emitted == head + rest.emitted;
      UnitAppend(head, rest.emitted);
    }
  }

  lemma UnitAppend(a: seq<real>, b: seq<real>)
    requires AllInUnit(a) && AllInUnit(b)
    ensures AllInUnit(a + b)
  {
    var all := a + b;
    forall i | 0 <= i < |all| ensures 0.0 <= all[i] <= 1.0 {
      if i >= |a| {
        assert all[i] == b[i - |a|];
      }
    }
  }

  // The knob object

  /**
   * A knob sampler. The buffer is allocated once with `numSamples` slots;
   * `startTick` is the charge-start tick the measuring loop records when it
   * releases the capacitor, and `onReading` is modelled by the value
   * `Notify` returns.
   */
  class Knob {
    var min: int
    var max: int
    var reading: Option<real>
    const buffer: array<int>
    var bufferIndex: nat
    var startTick: Option<int>

    function State(): KnobState
      reads this, buffer
    {
      KnobState(startTick, buffer[..], bufferIndex, min, max, reading)
    }

    ghost predicate Valid()
      reads this, buffer
    {
      Consistent(State())
    }

    /**
     * Both bounds unset, no reading, no charge armed, filling from slot 0.
     * A zero-slot JavaScript array grows to one slot on its first write, so
     * zero samples behaves as one.
     */
    constructor (numSamples: nat)
      ensures Valid() && fresh(buffer)
      ensures buffer.Length == if numSamples == 0 then 1 else numSamples
      ensures startTick.None? && bufferIndex == 0 && min == Unset && max == Unset && reading.None?
    {
      min, max := Unset, Unset;
      reading := None;
      buffer := new int[if numSamples == 0 then 1 else numSamples];
      bufferIndex := 0;
      startTick := None;
    }

    /** The capacitor is released to charge at `tick`. */
    method ChargeStarted(tick: int)
      requires Valid()
      modifies this
      ensures Valid()
      ensures State() == Step(old(State()), Event.ChargeStarted(tick)).state
    {
      startTick := Some(tick);
    }

    /** The pin-level notification handler; returns what it reports, if anything. */
    method Notify(level: int, tick: int) returns (emitted: Option<real>)
      requires Valid()
      modifies this, buffer
      ensures Valid()
      ensures EdgeResult(State(), emitted) == Edge(old(State()), level, tick)
    {
      ghost var before := State();
      EdgeConsistent(before, level, tick);
      emitted := None;
      if level == 1 && startTick.Some? {
        var endTick := tick;
        var elapsedTime := endTick - startTick.value;
        if endTick > startTick.value {
          emitted := Record(elapsedTime);
          ghost var f := before.(buffer := before.buffer[before.index := elapsedTime]);
          if before.index + 1 >= |before.buffer| {
            CalibrateFrame(f.(startTick := None), f);
          }
        }
        startTick := None;
      }
    }

    /**
     * Storing one charge time: the sample goes in at the index, which then
     * advances; a sample that fills the buffer runs the calibration step.
     */
    method Record(elapsedTime: int) returns (emitted: Option<real>)
      requires bufferIndex < buffer.Length
      modifies this, buffer
      ensures var s := old(State());
        var f := s.(buffer := s.buffer[s.index := elapsedTime]);
        if s.index + 1 < |s.buffer| then State() == f.(index := s.index + 1) && emitted.None?
        else EdgeResult(State(), emitted) == Calibrate(f)
    {
      buffer[bufferIndex] := elapsedTime;
      bufferIndex := bufferIndex + 1;
      emitted := None;
      if bufferIndex >= buffer.Length {
        emitted := CalibrateFull();
      }
    }

    /** The block the handler runs when a sample fills the buffer. */
    method CalibrateFull() returns (emitted: Option<real>)
      requires buffer.Length > 0
      modifies this
      ensures var r := Calibrate(old(State()));
        State() == r.state && emitted == r.emitted
    {
      ghost var before := State();
      var samples := buffer[..];
      var m := Median(samples);
      var lo := if min == Unset then m else Min(min, m);
      var hi := if max == Unset then m else Max(max, m);
      var validValues := InBounds(samples, lo, hi);
      var newReading := reading;
      emitted := None;
      if |validValues| > 0 {
        newReading := Some(Average(validValues));
        if hi > lo {
          emitted := Some(Normalise(newReading.value, lo, hi));
        }
      }
      assert Calibrate(before) ==
        EdgeResult(before.(index := 0, min := lo, max := hi, reading := newReading), emitted);
      min, max, reading, bufferIndex := lo, hi, newReading, 0;
    }
  }
}
