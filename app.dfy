/**
 * The tone-knob pipeline of the application entry point: a normalised knob
 * reading is clipped, used as the blend proportion between the two configured
 * equaliser presets, and the blended gains are loaded into the equaliser.
 */
module App {
  import opened Wrappers
  import Equalizer
  import CapKnob

  /** JavaScript's `Math.round`: a half rounds towards positive infinity. */
  function Round(x: real): (r: int)
    ensures r as real <= x + 0.5 < r as real + 1.0
  {
    (x + 0.5).Floor
  }

  /**
   * Every x in [-0.5, 0) rounds to 0. JavaScript's `Math.round` gives -0
   * there, whose single-precision bit pattern is 0x80000000, not 0.
   */
  lemma RoundToZeroBelow(x: real)
    requires -0.5 <= x < 0.0
    ensures Round(x) == 0
  {
  }

  /**
   * A blend that `Math.round` turns into -0: gains 0 and -1 at proportion
   * 0.25 (a reading of 0.3 after the clip) blend to -0.25.
   */
  lemma {:induction false} NegativeZeroBlend()
    ensures Clip(0.3) == 0.25
    ensures Mix(0, -1, Clip(0.3)) == -0.25
    ensures Lerp([0], [-1], Clip(0.3)) == [0]
  {
    RoundToZeroBelow(-0.25);
  }

  /** The exact (unrounded) blend of one gain. */
  function Mix(x: int, y: int, prop: real): real {
    x as real * (1.0 - prop) + y as real * prop
  }

  /** The blended vector that `lerpIntArrays` returns. */
  function Lerp(a: seq<int>, b: seq<int>, prop: real): (r: seq<int>)
    requires |a| == |b|
    ensures |r| == |a|
    ensures forall i :: 0 <= i < |a| ==> r[i] as real <= Mix(a[i], b[i], prop) + 0.5 < r[i] as real + 1.0
  {
    seq(|a|, i requires 0 <= i < |a| => Round(Mix(a[i], b[i], prop)))
  }

  /**
   * `lerpIntArrays`: per-index linear interpolation with rounding, written
   * into a freshly allocated array. Mismatched lengths fail the assertion
   * (None). The inputs are only read.
   */
  method LerpIntArrays(a: array<int>, b: array<int>, prop: real) returns (result: Option<seq<int>>)
    ensures result.None? <==> a.Length != b.Length
    ensures result.Some? ==> |result.value| == a.Length
    ensures result.Some? ==> forall i :: 0 <= i < a.Length ==>
      result.value[i] as real <= a[i] as real * (1.0 - prop) + b[i] as real * prop + 0.5 < result.value[i] as real + 1.0
    ensures result.Some? ==> result.value == Lerp(a[..], b[..], prop)
  {
    if a.Length != b.Length {
      return None;
    }
    var out := new int[a.Length];
    for i := 0 to a.Length
      invariant forall k :: 0 <= k < i ==> out[k] == Round(Mix(a[k], b[k], prop))
    {
      out[i] := Round(a[i] as real * (1.0 - prop) + b[i] as real * prop);
    }
    result := Some(out[..]);
  }

  /** With proportion 0 the blend is the first preset, with 1 the second. */
  lemma {:induction false} LerpEndpoints(a: seq<int>, b: seq<int>)
    requires |a| == |b|
    ensures Lerp(a, b, 0.0) == a
    ensures Lerp(a, b, 1.0) == b
  {
    forall i | 0 <= i < |a|
      ensures Lerp(a, b, 0.0)[i] == a[i] && Lerp(a, b, 1.0)[i] == b[i]
    {
      RoundInt(a[i]);
      RoundInt(b[i]);
    }
  }

  lemma RoundInt(n: int)
    ensures Round(n as real) == n
  {
  }

  /**
   * For a proportion in [0, 1] every blended gain lies between the two
   * endpoint gains, and equals them where they agree.
   */
  lemma {:induction false} LerpWithin(a: seq<int>, b: seq<int>, prop: real, i: int)
    requires |a| == |b| && 0 <= i < |a|
    requires 0.0 <= prop <= 1.0
    ensures Min(a[i], b[i]) <= Lerp(a, b, prop)[i] <= Max(a[i], b[i])
    ensures a[i] == b[i] ==> Lerp(a, b, prop)[i] == a[i]
  {
    MixWithin(a[i], b[i], prop);
    RoundWithin(Mix(a[i], b[i], prop), Min(a[i], b[i]), Max(a[i], b[i]));
  }

  /** Rounding keeps a number inside any integer bounds around it. */
  lemma RoundWithin(x: real, lo: int, hi: int)
    requires lo as real <= x <= hi as real
    ensures lo <= Round(x) <= hi
  {
    var r := Round(x);
    assert (r + 1) as real > lo as real;
    assert r as real < (hi + 1) as real;
  }

  /** A convex combination of two numbers lies between them. */
  lemma MixWithin(x: int, y: int, prop: real)
    requires 0.0 <= prop <= 1.0
    ensures Min(x, y) as real <= Mix(x, y, prop) <= Max(x, y) as real
  {
    var m, xr, yr := Mix(x, y, prop), x as real, y as real;
    if x <= y {
      NonNegProduct(yr - xr, prop);
      NonNegProduct(yr - xr, 1.0 - prop);
      assert m - xr == (yr - xr) * prop;
      assert yr - m == (yr - xr) * (1.0 - prop);
    } else {
      NonNegProduct(xr - yr, prop);
      NonNegProduct(xr - yr, 1.0 - prop);
      assert xr - m == (xr - yr) * prop;
      assert m - yr == (xr - yr) * (1.0 - prop);
    }
  }

  lemma NonNegProduct(a: real, b: real)
    requires a >= 0.0 && b >= 0.0
    ensures a * b >= 0.0
  {
  }

  /**
   * The clip in the tone knob's reading callback: the bottom and top tenth
   * of the raw range map to the ends of [0, 1].
   */
  function Clip(reading: real): (c: real)
    ensures 0.0 <= c <= 1.0
    ensures reading <= 0.1 ==> c == 0.0
    ensures reading >= 0.9 ==> c == 1.0
    ensures 0.1 <= reading <= 0.9 ==> c * 0.8 == reading - 0.1
  {
    var scaled := (reading - 0.1) / 0.8;
    var atLeast0 := if scaled >= 0.0 then scaled else 0.0;
    if atLeast0 <= 1.0 then atLeast0 else 1.0
  }

  /** The clip never reverses the order of two readings. */
  lemma ClipMonotone(r1: real, r2: real)
    requires r1 <= r2
    ensures Clip(r1) <= Clip(r2)
  {
    assert (r1 - 0.1) / 0.8 <= (r2 - 0.1) / 0.8;
  }

  /** Integer gains as the numbers `loadPreset` receives. */
  function AsReals(v: seq<int>): seq<real> {
    seq(|v|, i requires 0 <= i < |v| => v[i] as real)
  }

  /**
   * The tone knob's reading callback: clip the reading, blend the two
   * presets by it and load the result into the equaliser.
   */
  method OnToneReading(eq: Equalizer.Equalizer, presetA: array<int>, presetB: array<int>, reading: real)
    returns (ok: bool)
    requires eq.Valid()
    modifies eq`file, eq`loaded
    ensures eq.Valid()
    ensures presetA.Length != presetB.Length ==> !ok && eq.file == old(eq.file)
    ensures presetA.Length == presetB.Length ==>
      var gains := Lerp(presetA[..], presetB[..], Clip(reading));
      ok == (!eq.Enabled() || |gains| == Equalizer.NumBands) &&
      eq.file == (if eq.Enabled() && |gains| == Equalizer.NumBands
                  then Some(Equalizer.Image(AsReals(gains), eq.mono, eq.longWords, eq.floatBits))
                  else old(eq.file))
  {
    var clipped := Clip(reading);
    var blended := LerpIntArrays(presetA, presetB, clipped);
    if blended.None? {
      return false;
    }
    ok := eq.LoadPreset(AsReals(blended.value));
  }

  /**
   * One pin notification on the tone knob: the knob's handler runs, and if
   * it reports a reading, the reading callback loads the blended preset.
   * A callback that fails an assertion (presets of different lengths, or
   * an enabled equaliser given other than ten gains) throws out of the
   * handler before it resets the buffer index and the charge start, and
   * before the next measurement starts. That path is `ok == false`,
   * with the file untouched, and nothing is promised of the knob after it.
   */
  method ToneKnobNotify(knob: CapKnob.Knob, eq: Equalizer.Equalizer,
                        presetA: array<int>, presetB: array<int>, level: int, tick: int)
    returns (ok: bool)
    requires knob.Valid() && eq.Valid()
    requires presetA != knob.buffer && presetB != knob.buffer
    modifies knob, knob.buffer, eq`file, eq`loaded
    ensures eq.Valid()
    ensures var r := CapKnob.Edge(old(knob.State()), level, tick);
      var fails := presetA.Length != presetB.Length || (eq.Enabled() && presetA.Length != Equalizer.NumBands);
      (ok <==> r.emitted.None? || !fails) &&
      (ok ==> knob.Valid() && knob.State() == r.state) &&
      (r.emitted.None? || fails ==> eq.file == old(eq.file)) &&
      (r.emitted.Some? && !fails && eq.Enabled() ==>
        eq.file == Some(Equalizer.Image(AsReals(Lerp(presetA[..], presetB[..], Clip(r.emitted.value))),
                                        eq.mono, eq.longWords, eq.floatBits)))
  {
    var emitted := knob.Notify(level, tick);
    ok := true;
    if emitted.Some? {
      ok := OnToneReading(eq, presetA, presetB, emitted.value);
    }
  }
}
