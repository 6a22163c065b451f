# lofipi-mpv: equaliser, capacitive knob and hysteresis, modelled in Dafny

lofipi-mpv runs on a Raspberry Pi and plays music through mpv. A
potentiometer is read with nothing more than a GPIO pin and a capacitor,
and it sets the tone. This project models the parts of the program that
compute something. It proves properties of those models.

- **Equalizer** (`equalizer.dfy`) builds the control file of the alsaequal
  LADSPA plugin (EQ Caps, plugin id 1773):
  - a header of four "long words" (file length, plugin id, channel count,
    band count);
  - two 32-bit indices (input 10, output 11);
  - ten 18-word band records (band index, left and right gains, 14 zero
    gains, control type 0);
  - the trailing words that the plugin counts in the length but that are
    never written.

  The `Equalizer` class owns the file. It writes a flat preset when it is
  opened. `LoadPreset` replaces the whole contents with the new image.
- **CapKnob** (`capknob.dfy`) turns charge times into readings.
  - Each rising edge after a charge start stores one sample.
  - When the buffer is full:
    - the median widens the running `[min, max]` calibration range;
    - the samples inside that range are averaged;
    - the average is reported in [0, 1] relative to the range, if the range
      has any width.

  The pure transition function `Edge` holds this logic. The `Knob` class
  keeps its buffer in an array and is proved to follow `Edge`.
- **App** (`app.dfy`) holds the tone-knob path of `index.mjs`:
  - the knob reading is clipped (its bottom and top tenths go to 0 and 1);
  - the two configured presets are blended by `lerpIntArrays` with
    JavaScript rounding;
  - the blended gains are loaded into the equaliser.
- **Hysteresis** (`hysteresis.dfy`) is a two-level switch. The first
  reading is compared with a threshold. After that, only a reading below the
  fall bound or above the climb bound changes the level. A change callback
  is modelled as a ghost log of `(reading, level)` pairs.

Two behaviours of the code are worth stating plainly, and the model keeps
both:

- `median` in `src/CapKnob.mjs` returns the element at index `floor(n / 2)`
  of the sorted copy. For an even-length buffer that is the upper of the two
  middle samples, not their mean. `CapKnob.MedianOfEvenIsUpperMiddle` shows
  this on a concrete buffer.
- `Math.round` in `lerpIntArrays` rounds a half towards positive infinity:
  -2.5 becomes -2 and 2.5 becomes 3. This is neither rounding half away from
  zero nor rounding half to even. `App.Round` is `floor(x + 0.5)`.

Modelling choices:

- JavaScript numbers are Dafny `real`s. Gains and readings never reach
  NaN or infinity on the paths that are modelled.
- `Math.round(x)` is `floor(x + 0.5)`, as an integer. JavaScript's result for x in [-0.5, 0) is -0, which the model does not distinguish from 0 (see "## Left out").
- `floatToUint32`, the IEEE-754 single-precision bit pattern, is a
  function-valued parameter `floatBits` of the equaliser. The only property
  assumed of it is `floatBits(0.0) == 0`.
- `process.arch` is the `longWords` flag.
- The outcome of `fs.openSync` is the parameter `openResult`. `None`
  stands for the exception, and a descriptor of 0 counts as disabled, just
  as `!this.fd` treats it.
- The file is a sequence of words (`Word = U32 | U64`), and its byte size is
  the sum of the word widths.
- `assert` in the source fails the call. In the model that is an error
  result: `ok == false` or `None`, with nothing written.

## Model

| member | source | states |
|---|---|---|
| Equalizer.FileLength | src/Equalizer.mjs:67-75 | the control file length is 784/824 bytes (mono/stereo) with 32-bit long words and 800/840 with 64-bit ones |
| Equalizer.TailLength | src/Equalizer.mjs:108 | the 32-bit tail view fills exactly the bytes after the header: 182 written words plus channels × 10 unwritten ones |
| Equalizer.TailWord | src/Equalizer.mjs:122-143 | word k of the tail as the encoder leaves it: 10, 11, then per band its index, the two gain patterns, fourteen patterns of 0.0 and control type 0, then zeros (stated per band by `BandWordAt` and `BandRecord`) |
| Equalizer.Image | src/Equalizer.mjs:102-143 | the whole file: four long-word header words, then the tail as 32-bit words equal to `TailWord`; its length is 4 + `TailLength` |
| Equalizer.Serialize | src/Equalizer.mjs:102-143 | the buffer built by `loadPreset` (header written by a loop, then the tail) equals `Image` of the preset |
| Equalizer.FillTail | src/Equalizer.mjs:123-143 | the nested band/channel loops leave word k of the tail equal to `TailWord(k)`: indices 10 and 11, then per band the index, two gains, fourteen zero gains and control type 0; the rest stays zero |
| Equalizer.ImageOffsets | src/Equalizer.mjs:105-108 | the header words have the long-word width and the tail words 4 bytes; the whole image is `FileLength` bytes, the value its first word records |
| Equalizer.HeaderLayout | src/Equalizer.mjs:113-120 | the header holds file length, plugin id 1773, channel count (1 mono, 2 stereo) and 10 bands, all in long words |
| Equalizer.TailLayout | src/Equalizer.mjs:125-126 | tail words 0 and 1 are the input index 10 and output index 11, and every word past the ten band records is zero |
| Equalizer.BandRecord | src/Equalizer.mjs:128-143 | the 18-word record of band i is `[i, g, g, 0 × 14, 0]` with g the bit pattern of the band's gain, at word offset 6 + 18 i |
| Equalizer.ImageDeterminedByGains | src/Equalizer.mjs:128-143 | two presets whose gains have equal bit patterns produce the same file image |
| Equalizer.Equalizer.constructor | src/Equalizer.mjs:45-65 | the descriptor is the result of opening when a non-empty file name was given, and none otherwise; the equaliser is enabled iff that descriptor is non-zero, and then the file holds the image of ten zero gains; a descriptor of 0 leaves the file opened and empty; without a name, or when opening fails, no file exists |
| Equalizer.Equalizer.LoadPreset | src/Equalizer.mjs:81-147 | disabled: no-op; a preset of other than ten gains fails the assertion and leaves the file alone; otherwise the file (truncated and overwritten from offset 0) holds exactly the new preset's image |
| CapKnob.SortedCopy | src/CapKnob.mjs:7-9 | the sorted copy is ascending and a permutation of the input |
| CapKnob.Median | src/CapKnob.mjs:6-12 | the median is an element of the input with at most n/2 elements below and at most (n-1)/2 above it |
| CapKnob.MedianUnique | src/CapKnob.mjs:6-12 | those two count bounds hold for no other number, so they characterise `median` independently of sorting |
| CapKnob.MedianOfEvenIsUpperMiddle | src/CapKnob.mjs:11 | on an even-length buffer the median is the upper middle element (3 for 4, 1, 3, 2), not the mean of the two middle ones |
| CapKnob.Average | src/CapKnob.mjs:14-16 | `average`: the left-to-right sum over the length (its properties are `AverageConstant` and `AverageWithin`) |
| CapKnob.AverageConstant | src/CapKnob.mjs:14-16 | a buffer of equal samples averages to that sample |
| CapKnob.AverageWithin | src/CapKnob.mjs:14-16 | the average of values within [lo, hi] lies within [lo, hi] |
| CapKnob.InBounds | src/CapKnob.mjs:84 | the filter keeps exactly the samples within the bounds: each in-bounds value occurs as often as in the buffer, each other value not at all (so the average taken afterwards is determined) |
| CapKnob.Normalise | src/CapKnob.mjs:90-92 | the reported value is 0 at `min`, 1 at `max` and within [0, 1] for a reading between them |
| CapKnob.Calibrate | src/CapKnob.mjs:74-96 | the full-buffer step: it keeps the samples and the charge start, resets the index to 0, and reports only when the bounds have spread (`min < max`); its other properties are `CalibrateBounds` |
| CapKnob.CalibrateBounds | src/CapKnob.mjs:74-96 | on a full buffer of positive samples the new range contains the median and only widens once set; at least one sample survives the filter, the reading is their average and lies in the range; a value is reported iff max > min, and it is the normalised reading in [0, 1]; the index resets to 0 |
| CapKnob.Edge | src/CapKnob.mjs:65-102 | the notification handler as a transition: the buffer keeps its length and the index stays inside it; its cases are the lemmas `EdgeOneSamplePerCharge` to `EdgeEmits` |
| CapKnob.EdgeConsistent | src/CapKnob.mjs:65-102 | the handler keeps the state consistent: buffer index in range, stored samples positive, range unset or 0 < min ≤ max |
| CapKnob.EdgeOneSamplePerCharge | src/CapKnob.mjs:66-99 | an edge that is not rising or has no charge start changes nothing; a rising edge after a charge start clears the start, so the next edge is ignored |
| CapKnob.EdgeGlitch | src/CapKnob.mjs:71-99 | a rising edge whose tick is not after the start tick records nothing and only clears the start |
| CapKnob.EdgeRecords | src/CapKnob.mjs:71-74 | a valid edge stores the elapsed time, which is positive, at the buffer index and nowhere else; the index advances, or returns to 0 when the buffer fills |
| CapKnob.EdgeCalibrates | src/CapKnob.mjs:74-95 | the edge that fills the buffer resets the index, makes the range contain the median of the full buffer, widens it once set, and sets the reading to the average of the in-range samples |
| CapKnob.EdgeEmits | src/CapKnob.mjs:86-92 | `onReading` fires exactly when the buffer fills with max > min, with the reading normalised to [0, 1] |
| CapKnob.Run | src/CapKnob.mjs:56-102 | any interleaving of charge starts and notifications keeps the knob state consistent |
| CapKnob.StepWidensAndNormalises | src/CapKnob.mjs:56-102 | a single event never narrows a range that is set and reports only values in [0, 1] |
| CapKnob.RunWidensAndNormalises | src/CapKnob.mjs:56-102 | over any run of events the range only widens once set, and every reported value lies in [0, 1] |
| CapKnob.Knob.constructor | src/CapKnob.mjs:24-35 | the knob starts with min = max = -1, no reading, index 0 and a buffer of `numSamples` slots |
| CapKnob.Knob.ChargeStarted | src/CapKnob.mjs:56-60 | a charge start records its tick as the start tick and changes nothing else |
| CapKnob.Knob.Notify | src/CapKnob.mjs:65-102 | the array-based handler ends in the state, and reports the value, given by the transition function `Edge` |
| CapKnob.Knob.Record | src/CapKnob.mjs:72-96 | storing a charge time writes it at the index and advances the index; when that fills the buffer, the result is the calibration step `Calibrate` on the filled buffer |
| CapKnob.Knob.CalibrateFull | src/CapKnob.mjs:74-96 | the full-buffer step on the array ends in the state, and reports the value, given by `Calibrate` |
| App.Round | index.mjs:48 | `Math.round`: the result r satisfies r ≤ x + 0.5 < r + 1 |
| App.Lerp | index.mjs:41-52 | the blended vector: as long as the inputs, each element r satisfying r ≤ a(1-p) + b p + 0.5 < r + 1, i.e. `Math.round` of the blend |
| App.RoundToZeroBelow | index.mjs:48 | every blend in [-0.5, 0) rounds to 0 in the model; in the source `Math.round` gives -0 there |
| App.NegativeZeroBlend | index.mjs:48-76 | gains 0 and -1 with a reading of 0.3 clip to 0.25 and blend to -0.25, which the model stores as gain 0 and the source as -0 |
| App.LerpIntArrays | index.mjs:41-52 | fails iff the lengths differ; otherwise each element is x(1-p) + y p rounded as `Math.round` does, i.e. `Lerp` of the inputs |
| App.LerpEndpoints | index.mjs:41-52 | proportion 0 gives the first preset and proportion 1 the second |
| App.LerpWithin | index.mjs:48 | for a proportion in [0, 1] each blended gain lies between the two endpoint gains, and equals them where they agree |
| App.Clip | index.mjs:74 | the clipped reading is in [0, 1], 0 for readings up to 0.1, 1 from 0.9, and linear in between |
| App.ClipMonotone | index.mjs:74 | clipping preserves the order of readings |
| App.OnToneReading | index.mjs:71-77 | the reading callback loads `Lerp(presetA, presetB, Clip(reading))` into the equaliser, with the assertion failures of `lerpIntArrays` and `loadPreset` as `ok == false` and the file untouched; only the file contents change, never the descriptor |
| App.ToneKnobNotify | index.mjs:68-77 | a tone-knob notification fails exactly when a value is reported and the callback's assertion fails (presets of different lengths, or an enabled equaliser and presets not ten long); otherwise the knob moves as `Edge` says and, when a value is reported to an enabled equaliser, the file holds the blended image; failing or silent, the file is unchanged |
| Hysteresis.NextLevel | src/Hysteresis.mjs:32-46 | the level after one reading: on the first, whether it reaches the threshold; afterwards as `NextLevelChanges` states |
| Hysteresis.NextLevelChanges | src/Hysteresis.mjs:36-45 | a high level falls exactly on a reading below `fallBound`, a low one climbs exactly on one above `climbBound`, and readings within the band never change it |
| Hysteresis.SettleAppend | src/Hysteresis.mjs:29-47 | `Settle` is the fold of `NextLevel`: one more reading moves the settled level exactly as one `AddReading` call moves the object's, so after readings fed one by one the object's level is `Settle` of them |
| Hysteresis.SettleDefined | src/Hysteresis.mjs:32-35 | once a reading has arrived, the level is defined for good |
| Hysteresis.SettleInBand | src/Hysteresis.mjs:36-45 | any run of readings within [fallBound, climbBound] leaves a defined level where it was |
| Hysteresis.Hysteresis.constructor | src/Hysteresis.mjs:10-17 | the bounds are stored and the level is undefined, with no callback calls yet |
| Hysteresis.Hysteresis.SetHigh | src/Hysteresis.mjs:19-27 | the level becomes `high`, and the callback hears (reading, high) iff the level changed and a callback exists |
| Hysteresis.Hysteresis.AddReading | src/Hysteresis.mjs:29-47 | the reading is stored and the level becomes `NextLevel`; the callback is called exactly on a change, so its log alternates and ends at the current level |

## Left out

- `floatToUint32` (IEEE-754 single-precision encoding) is not modelled. It is the parameter `floatBits`, and only `floatBits(0.0) == 0` is assumed of it.
- Little-endian byte order and the `ArrayBuffer`/typed-array views are not modelled. The file is a sequence of 32- and 64-bit words.
- `fs.openSync`, `fs.ftruncateSync` and `fs.writeSync` are I/O. Opening is a parameter, and truncate-then-write becomes replacing the file contents with the image. Write errors are not modelled.
- `process.arch` is environment lookup. It is the `longWords` parameter.
- Equalizer.Equalizer.LoadPreset: a `null` or non-array preset is not modelled, because a Dafny sequence cannot be null. Only the length check of the assertion is kept.
- App.LerpIntArrays: a `null` input array is not modelled, for the same reason.
- CapKnob.Average: an empty input (a NaN result) is excluded by a precondition. The source only calls it on a non-empty filter result, which `CalibrateBounds` proves non-empty.
- CapKnob.Knob.constructor: `new Array(0)` grows on its first write in JavaScript. The model gives a 0-sample knob a one-slot buffer, which behaves the same way.
- The calibration bounds are not kept across restarts. `index.mjs` passes a state-file path as a fourth argument to `CapKnob`, and the constructor ignores it.
- `CapKnob.start` and `measure` are not modelled. They set the pin mode, discharge the capacitor and wait 10 ms, which is GPIO and timing. Their effect on the handler is the `ChargeStarted` event.
- The asynchronous ordering of pigpio callbacks is an arbitrary sequence of events in `Run`.
- App.ToneKnobNotify: when the reading callback fails its assertion, the source's handler stops mid-way. The buffer index is not reset, the charge start is kept and no new measurement starts. The exception leaves the handler, and nothing in `index.mjs` catches it. The model reports `ok == false` and promises nothing about the knob after that.
- App.OnToneReading: a blend in [-0.5, 0) is -0 in the source. `floatToUint32(-0)` writes 0x80000000 into both gain slots of that band, but the model has the integer 0 there, so its image holds `floatBits(0.0)`, which is 0. `App.NegativeZeroBlend` gives such an input. The model keeps no sign on zero gains because its gains are integers.
- JavaScript floating-point rounding in the average and the normalisation is not modelled. The arithmetic is exact.
- The rest of `index.mjs` is not part of this model: mpv control, the configuration file, the initial `eq_default` preset, the fan and temperature wiring, and buttons.
- `src/Button.mjs`, `src/FanController.mjs` and `src/TempSensor.mjs` are not part of this model.
