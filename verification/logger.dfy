/** One pass of the firmware's `loop()`: four independent timer gates decide
whether to take an accelerometer sample (feeding the calibration routine as
well), take an altimeter sample, average both sample buffers into the current
readings, and toggle the status LED.

`loop()` calls `millis()` afresh at each gate; the model reads the clock once
per pass and uses that value `now` throughout. Sensor reads are inputs.
 */
module Logger {
  import opened Millis
  import opened RingBuffer
  import Calibration

  /** `io_accelSampleRate`: ms between accelerometer samples. */
  const AccelSampleRate: U32 := 5
  /** `io_altSampleRate`: ms between altimeter samples. */
  const AltSampleRate: U32 := 5
  /** `io_logQuickTime`: ms between fast-log aggregations. */
  const LogQuickTime: U32 := 20
  /** The status LED's toggle period in ms. */
  const LedPeriod: U32 := 1000

  datatype BaroField = TempC | TempF | TempK | PressPa | AltM | AltFt

  /** The six values stored per altimeter sample. The firmware derives them
      from one sensor event with floating-point unit conversions and a
      `pow`-based altitude formula; the model takes them as given. */
  datatype BaroSample = BaroSample(
    tempC: real, tempF: real, tempK: real, pressPa: real, altM: real, altFt: real)
  {
    function At(f: BaroField): real {
      match f
      case TempC => tempC
      case TempF => tempF
      case TempK => tempK
      case PressPa => pressPa
      case AltM => altM
      case AltFt => altFt
    }
  }

  /** Averaged raw accelerometer readings (`dat_*AccelRaw`). */
  datatype AccelMeans = AccelMeans(x: real, y: real, z: real) {
    function At(k: Calibration.Axis): real {
      match k
      case X => x
      case Y => y
      case Z => z
    }
  }

  /** The globals `loop()` reads and writes. `baroNow` stands for
      `dat_tempC` ... `dat_altFtBaro`: each altimeter sample overwrites them
      with its own values, and each fast-log pass with the averages. */
  datatype State = State(
    accelTimer: U32,
    accel: Ring<Calibration.Reading>,
    cal: Calibration.CalState,
    altTimer: U32,
    baro: Ring<BaroSample>,
    quickTimer: U32,
    accelMean: AccelMeans,
    baroNow: BaroSample,
    ledTimer: U32,
    led: bool)
  {
    /** Both sample buffers have their fixed size and an in-range index. */
    predicate Valid() {
      accel.Valid() && baro.Valid()
    }
  }

  /** What the hardware supplies during one pass. */
  datatype Inputs = Inputs(
    now: U32,
    accel: Calibration.Reading,
    tempAvailable: bool,
    pressAvailable: bool,
    baro: BaroSample)

  const ZeroBaro: BaroSample := BaroSample(0.0, 0.0, 0.0, 0.0, 0.0, 0.0)

  /** The globals at power-up: zero-initialised timers, buffers and
      readings, the LED state 1, and the calibration defaults. */
  function Initial(): (s: State)
    ensures s.Valid() && s.accel.index == 0 && s.baro.index == 0 && s.led
    ensures s.accelTimer == 0 && s.altTimer == 0 && s.quickTimer == 0 && s.ledTimer == 0
    ensures s.cal == Calibration.Initial() && !s.cal.mode
  {
    State(0, Fresh(Calibration.Reading(0, 0, 0)), Calibration.Initial(),
      0, Fresh(ZeroBaro), 0, AccelMeans(0.0, 0.0, 0.0), ZeroBaro, 0, true)
  }

  predicate AccelDue(s: State, now: U32) {
    Elapsed(now, s.accelTimer) >= AccelSampleRate
  }

  predicate AltDue(s: State, inp: Inputs) {
    Elapsed(inp.now, s.altTimer) >= AltSampleRate && (inp.tempAvailable || inp.pressAvailable)
  }

  predicate LogDue(s: State, now: U32) {
    Elapsed(now, s.quickTimer) > LogQuickTime && !s.cal.mode
  }

  predicate LedDue(s: State, now: U32) {
    Elapsed(now, s.ledTimer) > LedPeriod
  }

  /** Accelerometer gate: store the reading, restart the timer, advance the
      index, and run the calibration routine on the reading. */
  function SampleAccel(s: State, inp: Inputs): (r: State)
    requires s.Valid()
    ensures r.Valid()
  {
    if AccelDue(s, inp.now) then
      s.(accel := Write(s.accel, inp.accel), accelTimer := inp.now,
         cal := Calibration.Step(s.cal, inp.now, inp.accel))
    else s
  }

  /** Altimeter gate: only when the sensor reports new temperature or
      pressure data. The sample's values also become the current altimeter
      readings. */
  function SampleAlt(s: State, inp: Inputs): (r: State)
    requires s.Valid()
    ensures r.Valid()
  {
    if AltDue(s, inp) then s.(baro := Write(s.baro, inp.baro), altTimer := inp.now, baroNow := inp.baro) else s
  }

  /** The averaging loop over the accelerometer arrays, divided by
      `float(io_accelSamples)`. */
  function AccelAverage(r: Ring<Calibration.Reading>): AccelMeans {
    AccelMeans(
      SumOf(r.slots, AxisValue(Calibration.X)) / Capacity as real,
      SumOf(r.slots, AxisValue(Calibration.Y)) / Capacity as real,
      SumOf(r.slots, AxisValue(Calibration.Z)) / Capacity as real)
  }

  function AxisValue(k: Calibration.Axis): Calibration.Reading -> real {
    (v: Calibration.Reading) => v.At(k) as real
  }

  function FieldValue(f: BaroField): BaroSample -> real {
    (b: BaroSample) => b.At(f)
  }

  /** The averaging loop over the six altimeter arrays, divided by
      `io_altSamples`. */
  function BaroAverage(r: Ring<BaroSample>): BaroSample {
    BaroSample(
      SumOf(r.slots, FieldValue(TempC)) / Capacity as real,
      SumOf(r.slots, FieldValue(TempF)) / Capacity as real,
      SumOf(r.slots, FieldValue(TempK)) / Capacity as real,
      SumOf(r.slots, FieldValue(PressPa)) / Capacity as real,
      SumOf(r.slots, FieldValue(AltM)) / Capacity as real,
      SumOf(r.slots, FieldValue(AltFt)) / Capacity as real)
  }

  /** Fast-log gate: recompute both sets of averages from the buffers. */
  function LogFast(s: State, inp: Inputs): (r: State)
  {
    if LogDue(s, inp.now) then
      s.(quickTimer := inp.now, accelMean := AccelAverage(s.accel), baroNow := BaroAverage(s.baro))
    else s
  }

  /** Status LED gate. */
  function BlinkLed(s: State, inp: Inputs): (r: State)
  {
    if LedDue(s, inp.now) then s.(ledTimer := inp.now, led := !s.led) else s
  }

  /** One pass of `loop()`: the four gates in the order the firmware runs
      them. */
  function Tick(s: State, inp: Inputs): (r: State)
    requires s.Valid()
    ensures r.Valid()
  {
    BlinkLed(LogFast(SampleAlt(SampleAccel(s, inp), inp), inp), inp)
  }

  /** The accelerometer gate of a pass: a reading is stored, and handed to
      the calibration routine, exactly when at least `AccelSampleRate` ms have
      elapsed on the gate's own timer, which then restarts. */
  lemma TickAccelGate(s: State, inp: Inputs)
    requires s.Valid()
    ensures var r := Tick(s, inp);
      && (AccelDue(s, inp.now) ==>
            && r.accelTimer == inp.now
            && r.accel == Write(s.accel, inp.accel)
            && r.cal == Calibration.Step(s.cal, inp.now, inp.accel))
      && (!AccelDue(s, inp.now) ==>
            r.accelTimer == s.accelTimer && r.accel == s.accel && r.cal == s.cal)
  {
  }

  /** The altimeter gate of a pass: a sample is stored exactly when at least
      `AltSampleRate` ms have elapsed and the sensor reports new temperature
      or pressure data. */
  lemma TickAltGate(s: State, inp: Inputs)
    requires s.Valid()
    ensures var r := Tick(s, inp);
      && (AltDue(s, inp) ==> r.altTimer == inp.now && r.baro == Write(s.baro, inp.baro))
      && (!AltDue(s, inp) ==> r.altTimer == s.altTimer && r.baro == s.baro)
  {
  }

  /** The fast-log gate of a pass: more than `LogQuickTime` ms elapsed and
      the calibration mode off as this pass's accelerometer gate left it; the
      averages are then taken over the buffers as they are after this pass's
      samples. */
  lemma TickLogGate(s: State, inp: Inputs)
    requires s.Valid()
    ensures var r := Tick(s, inp);
      && (Elapsed(inp.now, s.quickTimer) > LogQuickTime && !r.cal.mode ==>
            r.quickTimer == inp.now && r.accelMean == AccelAverage(r.accel) && r.baroNow == BaroAverage(r.baro))
      && (!(Elapsed(inp.now, s.quickTimer) > LogQuickTime && !r.cal.mode) ==>
            r.quickTimer == s.quickTimer && r.accelMean == s.accelMean
            && r.baroNow == (if AltDue(s, inp) then inp.baro else s.baroNow))
  {
  }

  /** The LED gate of a pass: the LED toggles exactly when more than
      `LedPeriod` ms have elapsed. */
  lemma TickLedGate(s: State, inp: Inputs)
    requires s.Valid()
    ensures var r := Tick(s, inp);
      && (LedDue(s, inp.now) ==> r.ledTimer == inp.now && r.led == !s.led)
      && (!LedDue(s, inp.now) ==> r.ledTimer == s.ledTimer && r.led == s.led)
  {
  }

  /** Consecutive passes of `loop()`. */
  function Run(s: State, ins: seq<Inputs>): (r: State)
    requires s.Valid()
    ensures r.Valid()
    decreases |ins|
  {
    if |ins| == 0 then s else Run(Tick(s, ins[0]), ins[1..])
  }

  /** The accelerometer samples a run takes, each with the time of its
      pass: the input the calibration sub-machine sees. */
  ghost function AccelEvents(s: State, ins: seq<Inputs>): seq<(U32, Calibration.Reading)>
    requires s.Valid()
    decreases |ins|
  {
    if |ins| == 0 then []
    else (if AccelDue(s, ins[0].now) then [(ins[0].now, ins[0].accel)] else []) + AccelEvents(Tick(s, ins[0]), ins[1..])
  }

  /** The accelerometer readings a run actually stores, in order: the
      samples it takes, without their times. */
  ghost function AccelTaken(s: State, ins: seq<Inputs>): seq<Calibration.Reading>
    requires s.Valid()
  {
    var e := AccelEvents(s, ins);
    seq(|e|, i requires 0 <= i < |e| => e[i].1)
  }

  /** A run's first pass contributes its reading when, and only when, the
      accelerometer gate lets it through. */
  lemma AccelTakenFirst(s: State, ins: seq<Inputs>)
    requires s.Valid() && |ins| > 0
    ensures AccelTaken(s, ins)
         == (if AccelDue(s, ins[0].now) then [ins[0].accel] else []) + AccelTaken(Tick(s, ins[0]), ins[1..])
  {
    var e := AccelEvents(Tick(s, ins[0]), ins[1..]);
    if AccelDue(s, ins[0].now) {
      assert AccelEvents(s, ins) == [(ins[0].now, ins[0].accel)] + e;
    } else {
      assert AccelEvents(s, ins) == e;
    }
  }

  /** The altimeter samples a run actually stores, in order. */
  ghost function BaroTaken(s: State, ins: seq<Inputs>): seq<BaroSample>
    requires s.Valid()
    decreases |ins|
  {
    if |ins| == 0 then []
    else (if AltDue(s, ins[0]) then [ins[0].baro] else []) + BaroTaken(Tick(s, ins[0]), ins[1..])
  }

  /** Over any run, the sample buffers are exactly the ring buffers fed with
      the samples the gates let through, so their indices advance by one per
      stored sample and stay in range. */
  lemma {:induction false} RunStoresTakenSamples(s: State, ins: seq<Inputs>)
    requires s.Valid()
    ensures Run(s, ins).accel == WriteAll(s.accel, AccelTaken(s, ins))
    ensures Run(s, ins).baro == WriteAll(s.baro, BaroTaken(s, ins))
    decreases |ins|
  {
    if |ins| > 0 {
      var s1 := Tick(s, ins[0]);
      RunStoresTakenSamples(s1, ins[1..]);
      var a := AccelTaken(s1, ins[1..]);
      AccelTakenFirst(s, ins);
      TickAccelGate(s, ins[0]);
      TickAltGate(s, ins[0]);
      if AccelDue(s, ins[0].now) {
        assert ([ins[0].accel] + a)[0] == ins[0].accel && ([ins[0].accel] + a)[1..] == a;
      } else {
        assert AccelTaken(s, ins) == a;
      }
      var b := BaroTaken(s1, ins[1..]);
      if AltDue(s, ins[0]) {
        assert ([ins[0].baro] + b)[0] == ins[0].baro && ([ins[0].baro] + b)[1..] == b;
      } else {
        assert BaroTaken(s, ins) == b;
      }
    }
  }

  /** Over any run, the calibration state is the calibration sub-machine
      stepped once per accelerometer sample the gate lets through, with that
      pass's time, and left alone on every other pass. */
  lemma {:induction false} RunCalibrates(s: State, ins: seq<Inputs>)
    requires s.Valid()
    ensures Run(s, ins).cal == Calibration.StepAll(s.cal, AccelEvents(s, ins))
    decreases |ins|
  {
    if |ins| > 0 {
      var s1 := Tick(s, ins[0]);
      RunCalibrates(s1, ins[1..]);
      var e := AccelEvents(s1, ins[1..]);
      TickAccelGate(s, ins[0]);
      if AccelDue(s, ins[0].now) {
        assert ([(ins[0].now, ins[0].accel)] + e)[0] == (ins[0].now, ins[0].accel);
        assert ([(ins[0].now, ins[0].accel)] + e)[1..] == e;
      } else {
        assert AccelEvents(s, ins) == e;
      }
    }
  }

  /** Hence a run never leaves the calibration's coherent shape: a
      finished window always carries a zero point between its bounds. */
  lemma RunKeepsCalibrationCoherent(s: State, ins: seq<Inputs>)
    requires s.Valid() && Calibration.Coherent(s.cal)
    ensures Calibration.Coherent(Run(s, ins).cal)
  {
    RunCalibrates(s, ins);
    Calibration.StepAllKeepsCoherent(s.cal, AccelEvents(s, ins));
  }

  /** Averaging a buffer that has taken at least four readings gives, per
      axis, the mean of the last four readings written. */
  lemma AccelAverageOfLatest(r: Ring<Calibration.Reading>, vs: seq<Calibration.Reading>, k: Calibration.Axis)
    requires r.Valid() && |vs| >= Capacity
    ensures AccelAverage(WriteAll(r, vs)).At(k) == SumOf(vs[|vs| - Capacity..], AxisValue(k)) / Capacity as real
  {
    LatestSum(r, vs, AxisValue(k));
  }

  /** The same for the altimeter buffers, field by field. */
  lemma BaroAverageOfLatest(r: Ring<BaroSample>, vs: seq<BaroSample>, f: BaroField)
    requires r.Valid() && |vs| >= Capacity
    ensures BaroAverage(WriteAll(r, vs)).At(f) == SumOf(vs[|vs| - Capacity..], FieldValue(f)) / Capacity as real
  {
    LatestSum(r, vs, FieldValue(f));
  }
}
