/** The accelerometer calibration routine run on every accelerometer sample
inside `loop()`: while `cal_accelCalMode` is set it records the extremes of
each axis (`cal_n1g*Accell` as the minimum, `cal_p1g*Accell` as the maximum),
and on the sample after the mode has been cleared it derives each axis's zero
point and raw-to-g coefficient from them.
 */
module Calibration {
  import opened Millis

  datatype Axis = X | Y | Z

  /** One raw `analogRead` triple. */
  datatype Reading = Reading(x: int, y: int, z: int) {
    function At(k: Axis): int {
      match k
      case X => x
      case Y => y
      case Z => z
    }
  }

  /** The value of `float(2) / (max - min)`: an IEEE float division by zero
      gives +infinity instead of failing. Float rounding is not modelled. */
  datatype Coef = Finite(value: real) | Infinite

  /** Calibration data of one axis: observed minimum (`cal_n1g*Accell`),
      observed maximum (`cal_p1g*Accell`), zero point and coefficient. */
  datatype AxisCal = AxisCal(lo: int, hi: int, zero: int, coef: Coef)

  /** The calibration globals: the two flags, the start time of the window,
      the window length, and the per-axis data. */
  datatype CalState = CalState(
    mode: bool,
    started: bool,
    timer: U32,
    timeout: U32,
    x: AxisCal,
    y: AxisCal,
    z: AxisCal)
  {
    function At(k: Axis): AxisCal {
      match k
      case X => x
      case Y => y
      case Z => z
    }
  }

  /** `cal_accelCalTimeout`. */
  const DefaultTimeout: U32 := 60000

  /** The calibration globals as the firmware declares them. */
  function Initial(): (c: CalState)
    ensures !c.mode && !c.started && c.timeout == DefaultTimeout
    ensures forall k :: c.At(k).lo < c.At(k).zero < c.At(k).hi
    ensures Coherent(c)
  {
    CalState(false, false, 0, DefaultTimeout,
      AxisCal(1975, 1992, 1984, Finite(0.03)),
      AxisCal(1975, 1992, 1984, Finite(0.03)),
      AxisCal(1978, 2005, 1992, Finite(0.029)))
  }

  /** C's integer `d / 2`, which truncates toward zero (Dafny's `/` rounds
      toward negative infinity for negative operands). */
  function Half(d: int): (h: int)
    ensures d >= 0 ==> 0 <= d - 2 * h <= 1
    ensures d < 0 ==> -1 <= d - 2 * h <= 0
  {
    if d >= 0 then d / 2 else -((-d) / 2)
  }

  /** The exit computation of one axis: `zero = max - (max - min) / 2` and
      `coef = 2 / (max - min)`. The observed bounds are kept. */
  function Conclude(a: AxisCal): (r: AxisCal)
    ensures r.lo == a.lo && r.hi == a.hi
    ensures a.lo <= a.hi ==> a.lo <= r.zero <= a.hi
    ensures a.lo <= a.hi ==> a.lo + a.hi <= 2 * r.zero <= a.lo + a.hi + 1
    ensures r.coef.Finite? <==> a.lo != a.hi
    ensures r.coef.Finite? ==> r.coef.value * (a.hi - a.lo) as real == 2.0
  {
    var span := a.hi - a.lo;
    AxisCal(a.lo, a.hi, a.hi - Half(span),
      if span == 0 then Infinite else Finite(2.0 / span as real))
  }

  /** Start of a window: both bounds become the sample. */
  function Seed(a: AxisCal, v: int): (r: AxisCal)
    ensures r.lo == v == r.hi
    ensures r.zero == a.zero && r.coef == a.coef
  {
    a.(lo := v, hi := v)
  }

  /** Fold one sample into the bounds. */
  function Widen(a: AxisCal, v: int): (r: AxisCal)
    ensures r.lo <= a.lo && r.lo <= v && (r.lo == a.lo || r.lo == v)
    ensures r.hi >= a.hi && r.hi >= v && (r.hi == a.hi || r.hi == v)
    ensures r.zero == a.zero && r.coef == a.coef
  {
    a.(lo := if v < a.lo then v else a.lo, hi := if v > a.hi then v else a.hi)
  }

  /** The window is active: seed it on its first sample, end it once more
      than `timeout` ms have passed since it was seeded, and fold the sample
      in either way. */
  function Observe(c: CalState, now: U32, v: Reading): (r: CalState)
    requires c.mode
  {
    var s := if c.started then c
             else c.(started := true, timer := now,
                     x := Seed(c.x, v.x), y := Seed(c.y, v.y), z := Seed(c.z, v.z));
    s.(mode := !(Elapsed(now, s.timer) > s.timeout),
       x := Widen(s.x, v.x), y := Widen(s.y, v.y), z := Widen(s.z, v.z))
  }

  /** The window has just been closed: derive every axis's zero and
      coefficient and clear the started flag. */
  function Finish(c: CalState): (r: CalState)
  {
    c.(started := false, x := Conclude(c.x), y := Conclude(c.y), z := Conclude(c.z))
  }

  /** Everything the calibration block of `loop()` does with one
      accelerometer sample `v` taken at time `now`. */
  function Step(c: CalState, now: U32, v: Reading): (r: CalState)
    // The first sample of a window seeds it.
    ensures c.mode && !c.started ==>
      r.mode && r.started && r.timer == now &&
      forall k :: r.At(k).lo == v.At(k) == r.At(k).hi
    // Later samples widen the bounds; after the timeout the window closes on
    // the same tick, with this tick's sample already folded in.
    ensures c.mode && c.started ==>
      && r.timer == c.timer
      && r.mode == (Elapsed(now, c.timer) <= c.timeout)
      && r.started == r.mode
      && forall k :: r.At(k).lo == Min(c.At(k).lo, v.At(k)) && r.At(k).hi == Max(c.At(k).hi, v.At(k))
    ensures c.mode && c.started && !r.mode ==>
      forall k :: r.At(k) == Conclude(Widen(c.At(k), v.At(k)))
    // A window closed from outside is concluded on the next sample.
    ensures !c.mode && c.started ==>
      !r.mode && !r.started && r.timer == c.timer &&
      forall k :: r.At(k) == Conclude(c.At(k))
    // Outside a window nothing changes.
    ensures !c.mode && !c.started ==> r == c
    ensures r.timeout == c.timeout
    // Zero points and coefficients change only when a window concludes.
    ensures r.mode ==> forall k :: r.At(k).zero == c.At(k).zero && r.At(k).coef == c.At(k).coef
  {
    var c1 := if c.mode then Observe(c, now, v) else c;
    if !c1.mode && c1.started then Finish(c1) else c1
  }

  function Min(a: int, b: int): int {
    if a <= b then a else b
  }

  function Max(a: int, b: int): int {
    if a >= b then a else b
  }

  /** `lo` is the least value seen on axis `k`. */
  ghost predicate IsLeast(lo: int, seen: seq<Reading>, k: Axis) {
    && (exists i :: 0 <= i < |seen| && seen[i].At(k) == lo)
    && (forall i :: 0 <= i < |seen| ==> lo <= seen[i].At(k))
  }

  /** `hi` is the greatest value seen on axis `k`. */
  ghost predicate IsGreatest(hi: int, seen: seq<Reading>, k: Axis) {
    && (exists i :: 0 <= i < |seen| && seen[i].At(k) == hi)
    && (forall i :: 0 <= i < |seen| ==> seen[i].At(k) <= hi)
  }

  /** The recorded bounds of every axis are exactly the extremes of `seen`. */
  ghost predicate Extremes(c: CalState, seen: seq<Reading>) {
    forall k :: IsLeast(c.At(k).lo, seen, k) && IsGreatest(c.At(k).hi, seen, k)
  }

  /** The calibration state after a sequence of accelerometer samples, each
      with the time it was taken. */
  function StepAll(c: CalState, samples: seq<(U32, Reading)>): CalState
    decreases |samples|
  {
    if |samples| == 0 then c else StepAll(Step(c, samples[0].0, samples[0].1), samples[1..])
  }

  /** The samples of a run that the calibration folds into its bounds: those
      taken while the mode flag is set. */
  ghost function Folded(c: CalState, samples: seq<(U32, Reading)>): seq<Reading>
    decreases |samples|
  {
    if |samples| == 0 then []
    else (if c.mode then [samples[0].1] else [])
         + Folded(Step(c, samples[0].0, samples[0].1), samples[1..])
  }

  /** One step inside a seeded window keeps the bounds equal to the
      extremes of the samples seen, now including the new one. */
  lemma StepKeepsExtremes(c: CalState, seen: seq<Reading>, now: U32, v: Reading)
    requires c.mode && c.started && Extremes(c, seen)
    ensures Extremes(Step(c, now, v), seen + [v])
  {
    var r := Step(c, now, v);
    var seen' := seen + [v];
    forall k
      ensures IsLeast(r.At(k).lo, seen', k) && IsGreatest(r.At(k).hi, seen', k)
    {
      assert IsLeast(c.At(k).lo, seen, k) && IsGreatest(c.At(k).hi, seen, k);
      var i :| 0 <= i < |seen| && seen[i].At(k) == c.At(k).lo;
      var i' :| 0 <= i' < |seen| && seen[i'].At(k) == c.At(k).hi;
      assert seen'[i] == seen[i] && seen'[i'] == seen[i'] && seen'[|seen|] == v;
      assert forall j :: 0 <= j < |seen| ==> seen'[j] == seen[j];
    }
  }

  /** From a seeded window (or one already closed), the bounds stay the
      extremes of everything folded in, for any sequence of further samples. */
  lemma {:induction false} StepAllKeepsExtremes(c: CalState, seen: seq<Reading>, samples: seq<(U32, Reading)>)
    requires c.mode ==> c.started
    requires Extremes(c, seen)
    ensures Extremes(StepAll(c, samples), seen + Folded(c, samples))
    decreases |samples|
  {
    if |samples| > 0 {
      var (now, v) := samples[0];
      var c1 := Step(c, now, v);
      if c.mode {
        StepKeepsExtremes(c, seen, now, v);
        StepAllKeepsExtremes(c1, seen + [v], samples[1..]);
        assert seen + Folded(c, samples) == seen + [v] + Folded(c1, samples[1..]);
      } else {
        assert forall k :: c1.At(k).lo == c.At(k).lo && c1.At(k).hi == c.At(k).hi;
        assert Extremes(c1, seen);
        StepAllKeepsExtremes(c1, seen, samples[1..]);
        assert seen + Folded(c, samples) == seen + Folded(c1, samples[1..]);
      }
    } else {
      assert seen + Folded(c, samples) == seen;
    }
  }

  /** The shape every calibration state reachable from `Initial` keeps,
      whatever sets the mode flag from outside: an active window has been
      seeded, an idle one has been concluded (its zero point lies between
      its bounds), and no axis has its minimum above its maximum. A window
      opened by setting the mode flag (`mode` without `started`) is the one
      state outside it; its first sample restores it. */
  predicate Coherent(c: CalState) {
    && (c.mode ==> c.started)
    && (!c.mode ==> !c.started && forall k :: c.At(k).lo <= c.At(k).zero <= c.At(k).hi)
    && (forall k :: c.At(k).lo <= c.At(k).hi)
  }

  /** One accelerometer sample keeps a coherent state coherent: widening
      keeps `min <= max`, and the timeout tick concludes every axis. */
  lemma StepKeepsCoherent(c: CalState, now: U32, v: Reading)
    requires Coherent(c)
    ensures Coherent(Step(c, now, v))
  {
    var r := Step(c, now, v);
    if c.mode {
      forall k ensures r.At(k).lo <= r.At(k).hi {
        assert c.At(k).lo <= c.At(k).hi;
      }
      if !r.mode {
        forall k ensures r.At(k).lo <= r.At(k).zero <= r.At(k).hi {
          var w := Widen(c.At(k), v.At(k));
          assert c.At(k).lo <= c.At(k).hi;
          assert r.At(k) == Conclude(w);
        }
      }
    }
  }

  /** ... and so does any sequence of samples. */
  lemma {:induction false} StepAllKeepsCoherent(c: CalState, samples: seq<(U32, Reading)>)
    requires Coherent(c)
    ensures Coherent(StepAll(c, samples))
    decreases |samples|
  {
    if |samples| > 0 {
      StepKeepsCoherent(c, samples[0].0, samples[0].1);
      StepAllKeepsCoherent(Step(c, samples[0].0, samples[0].1), samples[1..]);
    }
  }

  /** A calibration run started with the mode flag set: per axis, the
      recorded minimum and maximum are the least and greatest value of every
      sample taken while the mode was set, including the sample of the tick
      on which the window timed out, and the zero point derived at exit lies
      between them. */
  lemma CalibrationRecordsExtremes(c: CalState, samples: seq<(U32, Reading)>)
    requires c.mode && !c.started && |samples| > 0
    ensures var seen := Folded(c, samples);
            var r := StepAll(c, samples);
            && |seen| > 0
            && Extremes(r, seen)
            && (forall k, i :: 0 <= i < |seen| ==> r.At(k).lo <= seen[i].At(k) <= r.At(k).hi)
            && (r.mode ==> r.started)
            && (!r.mode ==> !r.started && forall k :: r.At(k).lo <= r.At(k).zero <= r.At(k).hi)
  {
    var (now, v) := samples[0];
    var c1 := Step(c, now, v);
    assert Extremes(c1, [v]) by {
      forall k ensures IsLeast(c1.At(k).lo, [v], k) && IsGreatest(c1.At(k).hi, [v], k) {
        assert [v][0] == v;
      }
    }
    StepAllKeepsExtremes(c1, [v], samples[1..]);
    assert Coherent(c1) by {
      forall k ensures c1.At(k).lo <= c1.At(k).hi {
        assert c1.At(k).lo == v.At(k) == c1.At(k).hi;
      }
    }
    StepAllKeepsCoherent(c1, samples[1..]);
    assert Folded(c, samples) == [v] + Folded(c1, samples[1..]);
    var seen := Folded(c, samples);
    var r := StepAll(c, samples);
    forall k, i | 0 <= i < |seen|
      ensures r.At(k).lo <= seen[i].At(k) <= r.At(k).hi
    {
      assert IsLeast(r.At(k).lo, seen, k) && IsGreatest(r.At(k).hi, seen, k);
    }
  }

  /** A window whose bounds are the `+1g`/`-1g` firmware defaults (1975 and
      1992) concludes with the firmware's default zero point 1984. */
  lemma DefaultWindowGivesDefaultZero()
    ensures Conclude(AxisCal(1975, 1992, 0, Infinite)).zero == 1984
    ensures Conclude(AxisCal(1975, 1992, 0, Infinite)).coef == Finite(2.0 / 17.0)
  {
  }
}
