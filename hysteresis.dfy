/**
 * A two-level threshold with hysteresis: the level is decided by a single
 * threshold on the first reading, and afterwards only a reading below the
 * fall bound turns a high level low and only one above the climb bound
 * turns a low level high. A change callback hears about every change.
 */
module Hysteresis {
  import opened Wrappers

  datatype Bounds = Bounds(fallBound: real, threshold: real, climbBound: real)

  /** The level after `reading`, from the level before it (None: no reading yet). */
  function NextLevel(isHigh: Option<bool>, reading: real, b: Bounds): bool {
    match isHigh
    case None => reading >= b.threshold
    case Some(true) => !(reading < b.fallBound)
    case Some(false) => reading > b.climbBound
  }

  /**
   * A defined level changes only on a reading outside the band between the
   * bounds: high falls exactly below `fallBound`, low climbs exactly above
   * `climbBound`.
   */
  lemma NextLevelChanges(isHigh: bool, reading: real, b: Bounds)
    ensures isHigh ==> (!NextLevel(Some(isHigh), reading, b) <==> reading < b.fallBound)
    ensures !isHigh ==> (NextLevel(Some(isHigh), reading, b) <==> reading > b.climbBound)
    ensures b.fallBound <= reading <= b.climbBound ==> NextLevel(Some(isHigh), reading, b) == isHigh
  {
  }

  /** The level after a run of readings. */
  function Settle(isHigh: Option<bool>, readings: seq<real>, b: Bounds): Option<bool>
    decreases |readings|
  {
    if readings == [] then isHigh
    else Settle(Some(NextLevel(isHigh, readings[0], b)), readings[1..], b)
  }

  /**
   * One more reading moves the settled level by `NextLevel`, which is what
   * `Hysteresis.AddReading` promises of a single call; so after readings
   * `xs` fed one by one, the object's level is `Settle(old level, xs)`.
   */
  lemma {:induction false} SettleAppend(isHigh: Option<bool>, readings: seq<real>, x: real, b: Bounds)
    ensures Settle(isHigh, readings + [x], b) == Some(NextLevel(Settle(isHigh, readings, b), x, b))
    decreases |readings|
  {
    if readings == [] {
      assert [] + [x] == [x];
    } else {
      assert (readings + [x])[1..] == readings[1..] + [x];
      SettleAppend(Some(NextLevel(isHigh, readings[0], b)), readings[1..], x, b);
    }
  }

  /** After any reading the level is defined, and stays so. */
  lemma {:induction false} SettleDefined(isHigh: Option<bool>, readings: seq<real>, b: Bounds)
    requires isHigh.Some? || |readings| > 0
    ensures Settle(isHigh, readings, b).Some?
    decreases |readings|
  {
    if readings != [] {
      SettleDefined(Some(NextLevel(isHigh, readings[0], b)), readings[1..], b);
    }
  }

  /** Readings that all stay within [fallBound, climbBound] never move a defined level. */
  lemma {:induction false} SettleInBand(isHigh: bool, readings: seq<real>, b: Bounds)
    requires forall i :: 0 <= i < |readings| ==> b.fallBound <= readings[i] <= b.climbBound
    ensures Settle(Some(isHigh), readings, b) == Some(isHigh)
    decreases |readings|
  {
    if readings != [] {
      NextLevelChanges(isHigh, readings[0], b);
      SettleInBand(isHigh, readings[1..], b);
    }
  }

  /** What the change callback receives: the latest reading and the new level. */
  datatype Change = Change(reading: real, isHigh: bool)

  /**
   * The `Hysteresis` object. `hasOnChange` says whether a callback was
   * given; `changes` records every call it receives.
   */
  class Hysteresis {
    const bounds: Bounds
    const hasOnChange: bool
    var isHigh: Option<bool>
    var reading: Option<real>
    ghost var changes: seq<Change>

    /**
     * The callback has heard of every level change, each with a level
     * different from the one before, the latest being the current level.
     */
    ghost predicate Valid()
      reads this
    {
      (hasOnChange ==> (changes == [] <==> isHigh.None?)) &&
      (!hasOnChange ==> changes == []) &&
      (changes != [] ==> isHigh == Some(changes[|changes| - 1].isHigh)) &&
      (forall i :: 0 < i < |changes| ==> changes[i].isHigh != changes[i - 1].isHigh)
    }

    constructor (fallBound: real, threshold: real, climbBound: real, hasOnChange: bool)
      ensures Valid()
      ensures bounds == Bounds(fallBound, threshold, climbBound) && this.hasOnChange == hasOnChange
      ensures isHigh.None? && reading.None? && changes == []
    {
      bounds := Bounds(fallBound, threshold, climbBound);
      this.hasOnChange := hasOnChange;
      isHigh := None;
      reading := None;
      changes := [];
    }

    /** `_setHigh`: take the level; tell the callback only if it changed. */
    method SetHigh(high: bool)
      requires Valid() && reading.Some?
      modifies this`isHigh, this`changes
      ensures Valid()
      ensures isHigh == Some(high)
      ensures changes == if old(isHigh) != Some(high) && hasOnChange
                         then old(changes) + [Change(reading.value, high)]
                         else old(changes)
    {
      if isHigh != Some(high) {
        isHigh := Some(high);
        if hasOnChange {
          changes := changes + [Change(reading.value, isHigh.value)];
        }
      }
    }

    /**
     * `addReading`: record the reading, then move the level as `NextLevel`
     * says; the callback fires exactly when the level changes (always on the
     * first reading), with this reading and the new level.
     */
    method AddReading(x: real)
      requires Valid()
      modifies this
      ensures Valid()
      ensures reading == Some(x)
      ensures isHigh == Some(NextLevel(old(isHigh), x, bounds))
      ensures changes == if old(isHigh) != isHigh && hasOnChange
                         then old(changes) + [Change(x, isHigh.value)]
                         else old(changes)
    {
      reading := Some(x);
      match isHigh {
        case None =>
          SetHigh(x >= bounds.threshold);
        case Some(true) =>
          if x < bounds.fallBound {
            SetHigh(false);
          }
        case Some(false) =>
          if x > bounds.climbBound {
            SetHigh(true);
          }
      }
    }
  }
}
