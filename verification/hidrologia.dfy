/**
 * The ETL processor of the back end (`HidrologiaProcessor`): it turns one raw
 * measurement plus the rolling history of earlier measurements into the derived
 * hydrological figures, decides whether an alert is raised and picks the colour
 * the alert is sent with.
 *
 * Timestamps are the ISO strings of the source abstracted to a number of hours,
 * so that a difference of two timestamps is the elapsed time in hours.
 */
module Hidrologia {
  import opened Options
  import opened JsonValues
  import opened Sequences

  /** Fixed geometry of the modelled river reach, in metres. */
  const UpstreamElevation: real := 2595.4
  const DownstreamElevation: real := 2589.6
  const ReachLength: real := 3200.0

  /** Default threshold of `persistencia`, in metres. */
  const PersistenceThreshold: real := 0.5
  /** Number of earlier measurements `persistencia` looks back over. */
  const PersistenceWindow: nat := 10
  /** Number of measurements the processor keeps as history. */
  const HistoryCapacity: nat := 100

  /** Alert thresholds of `evaluar_alerta`. */
  const LevelAlert: real := 0.5
  const ProjectionAlert: real := 0.6
  const RiseAlert: real := 0.1
  const PersistenceAlert: nat := 3

  /** Colour thresholds of `enviar_alerta`. */
  const RedLevel: real := 0.7
  const YellowLevel: real := 0.5

  /** One raw measurement: time (hours), water level (m) and rainfall (mm). */
  datatype Reading = Reading(ts: real, level: real, rain: real)

  /** The result record of `procesar_medicion`; the absent figures of the source are None. */
  datatype Processed = Processed(
    ts: real,
    level: real,
    rain: real,
    baseLevel: real,
    deltaH: real,
    ror: Option<real>,
    rainIntensity: Option<real>,
    projection: Option<real>,
    slope: real,
    persistence: nat)

  /** The processor's only state: the earlier measurements, oldest first. */
  datatype Processor = Processor(history: seq<Reading>)

  /** The alert colours ROJA, AMARILLA and VERDE. */
  datatype Colour = Red | Yellow | Green

  // ---------------------------------------------------------------- derived figures

  /** Difference of the water level and the upstream elevation of the reach. */
  function DeltaH(level: real): (d: real)
    ensures d + UpstreamElevation == level
    ensures d < 0.0 <==> level < UpstreamElevation
  {
    level - UpstreamElevation
  }

  /** Elapsed hours between the previous and the current measurement. */
  function Elapsed(cur: Reading, prev: Reading): real {
    cur.ts - prev.ts
  }

  /**
   * Rate of rise in metres per hour. Absent when there is no previous measurement or
   * when the current one is not strictly later than it.
   */
  function RateOfRise(cur: Reading, prev: Option<Reading>): (r: Option<real>)
    ensures r.None? <==> prev.None? || Elapsed(cur, prev.value) <= 0.0
    ensures r.Some? ==> r.value * Elapsed(cur, prev.value) == cur.level - prev.value.level
    ensures r.Some? ==> (r.value > 0.0 <==> cur.level > prev.value.level)
  {
    match prev
    case None => None
    case Some(p) =>
      var dt := Elapsed(cur, p);
      if dt <= 0.0 then None else Some((cur.level - p.level) / dt)
  }

  /**
   * Rain intensity in millimetres per hour: the current reading's rainfall spread over
   * the elapsed time. Absent in exactly the cases the rate of rise is absent.
   */
  function RainIntensity(cur: Reading, prev: Option<Reading>): (r: Option<real>)
    ensures r.None? <==> prev.None? || Elapsed(cur, prev.value) <= 0.0
    ensures r.Some? ==> r.value * Elapsed(cur, prev.value) == cur.rain
  {
    match prev
    case None => None
    case Some(p) =>
      var dt := Elapsed(cur, p);
      if dt <= 0.0 then None else Some(cur.rain / dt)
  }

  /** The level expected after another half hour at the current rate of rise. */
  function Projection30(level: real, ror: Option<real>): (p: Option<real>)
    ensures p.None? <==> ror.None?
    ensures p.Some? ==> 2.0 * (p.value - level) == ror.value
    ensures p.Some? ==> (p.value > level <==> ror.value > 0.0)
  {
    match ror
    case None => None
    case Some(r) => Some(level + r * 0.5)
  }

  /** Hydraulic slope of the reach, with the water level added to the upstream elevation. */
  function HydraulicSlope(level: real): (s: real)
    ensures s * ReachLength == UpstreamElevation + level - DownstreamElevation
  {
    (UpstreamElevation + level - DownstreamElevation) / ReachLength
  }

  /** A higher level always gives a steeper reach; the slope vanishes only at level -5.8 m. */
  lemma HydraulicSlopeIncreasing(a: real, b: real)
    requires a < b
    ensures HydraulicSlope(a) < HydraulicSlope(b)
    ensures HydraulicSlope(a) == 0.0 <==> a == DownstreamElevation - UpstreamElevation
  {
  }

  // ---------------------------------------------------------------- persistence

  /** The at most ten most recent earlier measurements (`mediciones_previas[-10:]`). */
  function RecentWindow(history: seq<Reading>): (w: seq<Reading>)
    ensures |w| == Min(PersistenceWindow, |history|)
    ensures w == history[|history| - |w|..]
  {
    if |history| <= PersistenceWindow then history else history[|history| - PersistenceWindow..]
  }

  /**
   * Length of the unbroken run, counted back from the newest, of measurements of `w`
   * above `th`: every one of the last `k` is above, and the one before them is not.
   */
  function TrailingRunAbove(w: seq<Reading>, th: real): (k: nat)
    ensures k <= |w|
    ensures forall i :: |w| - k <= i < |w| ==> w[i].level > th
    ensures k < |w| ==> w[|w| - 1 - k].level <= th
    decreases |w|
  {
    if |w| == 0 || w[|w| - 1].level <= th then 0
    else 1 + TrailingRunAbove(w[..|w| - 1], th)
  }

  /** The run length is the only count with the two properties that characterise it. */
  lemma TrailingRunUnique(w: seq<Reading>, th: real, k: nat)
    requires k <= |w|
    requires forall i :: |w| - k <= i < |w| ==> w[i].level > th
    requires k < |w| ==> w[|w| - 1 - k].level <= th
    ensures TrailingRunAbove(w, th) == k
  {
  }

  /** The run over the recent window, stated with indices of the whole history. */
  lemma RunInHistory(history: seq<Reading>, th: real)
    ensures var k := TrailingRunAbove(RecentWindow(history), th);
      && (forall i :: |history| - k <= i < |history| ==> history[i].level > th)
      && (k < Min(PersistenceWindow, |history|) ==> history[|history| - 1 - k].level <= th)
  {
  }

  /**
   * `persistencia`: zero when the current level is not above `th`; otherwise one for
   * the current measurement plus the unbroken run of earlier measurements above `th`,
   * looking back over at most the ten most recent ones.
   */
  function Persistence(cur: Reading, history: seq<Reading>, th: real): (p: nat)
    ensures p == 0 <==> cur.level <= th
    ensures p <= Min(PersistenceWindow, |history|) + 1
    ensures p > 0 ==> forall i :: |history| - (p - 1) <= i < |history| ==> history[i].level > th
    ensures 0 < p <= Min(PersistenceWindow, |history|) ==> history[|history| - p].level <= th
  {
    if cur.level <= th then 0
    else
      RunInHistory(history, th);
      1 + TrailingRunAbove(RecentWindow(history), th)
  }

  /**
   * The loop of `persistencia` as written: start at one and walk the recent window
   * from the newest measurement backwards, counting while the level is above the
   * threshold and stopping at the first that is not.
   */
  method CountPersistence(cur: Reading, history: seq<Reading>, th: real) returns (p: nat)
    ensures p == Persistence(cur, history, th)
  {
    if cur.level <= th {
      return 0;
    }
    var recent := RecentWindow(history);
    p := 1;
    var i := |recent|;
    while i > 0
      invariant 0 <= i <= |recent|
      invariant p == 1 + (|recent| - i)
      invariant forall j :: i <= j < |recent| ==> recent[j].level > th
      decreases i
    {
      if recent[i - 1].level > th {
        p := p + 1;
        i := i - 1;
      } else {
        break;
      }
    }
    TrailingRunUnique(recent, th, |recent| - i);
  }

  // ---------------------------------------------------------------- processing step

  /** The newest earlier measurement, if any. */
  function Previous(history: seq<Reading>): (r: Option<Reading>)
    ensures r.None? <==> |history| == 0
    ensures r.Some? ==> r.value == history[|history| - 1]
  {
    if |history| == 0 then None else Some(history[|history| - 1])
  }

  /** Appends a measurement and keeps only the newest `HistoryCapacity` entries. */
  function Remember(history: seq<Reading>, m: Reading): (h: seq<Reading>)
    ensures |h| == Min(HistoryCapacity, |history| + 1)
    ensures h == (history + [m])[|history| + 1 - |h|..]
    ensures h[|h| - 1] == m
  {
    KeepNewest(history, m, HistoryCapacity)
  }

  /**
   * `procesar_medicion`: every derived figure is computed against the history as it
   * was BEFORE this measurement; the measurement is appended to the history only
   * afterwards, which keeps at most the newest hundred entries.
   */
  function ProcessMeasurement(p: Processor, m: Reading): (out: (Processed, Processor))
    ensures out.0.ts == m.ts && out.0.level == m.level && out.0.rain == m.rain
    ensures out.0.baseLevel == m.level
    ensures out.0.deltaH == DeltaH(m.level)
    ensures out.0.ror == RateOfRise(m, Previous(p.history))
    ensures out.0.rainIntensity == RainIntensity(m, Previous(p.history))
    ensures out.0.projection == Projection30(m.level, out.0.ror)
    ensures out.0.slope == HydraulicSlope(m.level)
    ensures out.0.persistence == Persistence(m, p.history, PersistenceThreshold)
    ensures out.1.history == Remember(p.history, m)
  {
    var prev := Previous(p.history);
    var ror := RateOfRise(m, prev);
    var result := Processed(
      m.ts, m.level, m.rain,
      m.level,  // `base_level` returns the level unchanged
      DeltaH(m.level),
      ror,
      RainIntensity(m, prev),
      Projection30(m.level, ror),
      HydraulicSlope(m.level),
      Persistence(m, p.history, PersistenceThreshold));
    (result, Processor(Remember(p.history, m)))
  }

  /**
   * The processor state after processing measurements in order: all but the last,
   * then the last by `ProcessMeasurement`.
   */
  function ProcessAll(p: Processor, ms: seq<Reading>): Processor
    decreases |ms|
  {
    if |ms| == 0 then p else ProcessMeasurement(ProcessAll(p, ms[..|ms| - 1]), ms[|ms| - 1]).1
  }

  /**
   * However many measurements arrive, the history never exceeds its capacity, and
   * after at least one its newest entry is the last measurement processed.
   */
  lemma HistoryStaysBounded(p: Processor, ms: seq<Reading>)
    requires |p.history| <= HistoryCapacity
    ensures |ProcessAll(p, ms).history| <= HistoryCapacity
    ensures |ms| > 0 ==> |ProcessAll(p, ms).history| > 0
    ensures |ms| > 0 ==> ProcessAll(p, ms).history[|ProcessAll(p, ms).history| - 1] == ms[|ms| - 1]
  {
  }

  /** The history after `ProcessAll` is the bounded appends of the measurements in turn. */
  lemma {:induction false} ProcessAllHistory(p: Processor, ms: seq<Reading>)
    ensures ProcessAll(p, ms).history == KeepAll(p.history, ms, HistoryCapacity)
    decreases |ms|
  {
    if |ms| > 0 {
      ProcessAllHistory(p, ms[..|ms| - 1]);
    }
  }

  /**
   * The history after any sequence of measurements is exactly the newest hundred of
   * everything seen so far: the earlier history followed by the new measurements.
   */
  lemma HistoryIsNewestMeasurements(p: Processor, ms: seq<Reading>)
    requires |p.history| <= HistoryCapacity
    ensures ProcessAll(p, ms).history == Newest(p.history + ms, HistoryCapacity)
  {
    ProcessAllHistory(p, ms);
    KeepAllIsNewest(p.history, ms, HistoryCapacity);
  }

  /** An unbroken run of `j` recent earlier measurements above `th` gives at least `j + 1`. */
  lemma PersistenceAtLeast(cur: Reading, history: seq<Reading>, th: real, j: nat)
    requires cur.level > th
    requires j <= Min(PersistenceWindow, |history|)
    requires forall i :: |history| - j <= i < |history| ==> history[i].level > th
    ensures Persistence(cur, history, th) >= j + 1
  {
  }

  /** An earlier measurement still present after `Remember`, at its new index. */
  lemma RememberKeepsNewest(h: seq<Reading>, m: Reading, i: int)
    requires 0 <= i < |h|
    requires |h| - i < |Remember(h, m)|
    ensures Remember(h, m)[i - (|h| + 1 - |Remember(h, m)|)] == h[i]
  {
  }

  /**
   * Persistence grows by at most one from one measurement to the next: the run that
   * backs the second count lies inside the history the first count looked at.
   */
  lemma PersistenceGrowsByAtMostOne(p: Processor, m1: Reading, m2: Reading)
    ensures ProcessMeasurement(ProcessMeasurement(p, m1).1, m2).0.persistence
            <= ProcessMeasurement(p, m1).0.persistence + 1
  {
    PersistenceStep(p.history, m1, m2, PersistenceThreshold);
  }

  /** `PersistenceGrowsByAtMostOne` for any threshold, stated on the history itself. */
  lemma PersistenceStep(h: seq<Reading>, m1: Reading, m2: Reading, th: real)
    ensures Persistence(m2, Remember(h, m1), th) <= Persistence(m1, h, th) + 1
  {
    var h1 := Remember(h, m1);
    var p2 := Persistence(m2, h1, th);
    if p2 > 1 {
      // The newest entry of h1 is m1, so m1 is above the threshold.
      assert h1[|h1| - 1].level > th;
      var j := p2 - 2;
      // The j entries of h1 just before m1 are the newest j entries of h.
      forall i | |h| - j <= i < |h|
        ensures h[i].level > th
      {
        RememberKeepsNewest(h, m1, i);
      }
      PersistenceAtLeast(m1, h, th, j);
    }
  }

  // ---------------------------------------------------------------- alert decision

  /** Python truthiness of an optional number: None and 0.0 are false. */
  function Truthy(x: Option<real>): bool {
    x.Some? && x.value != 0.0
  }

  /**
   * `evaluar_alerta`: raised by a high level, a high projected level, a fast rise or
   * a persistence of at least three. The source guards the optional figures with
   * Python truthiness; a zero figure is below its threshold anyway, so only presence
   * matters.
   */
  function EvaluateAlert(r: Processed): (alert: bool)
    ensures alert <==>
      || r.level > LevelAlert
      || (r.projection.Some? && r.projection.value > ProjectionAlert)
      || (r.ror.Some? && r.ror.value > RiseAlert)
      || r.persistence >= PersistenceAlert
  {
    || r.level > LevelAlert
    || (Truthy(r.projection) && r.projection.value > ProjectionAlert)
    || (Truthy(r.ror) && r.ror.value > RiseAlert)
    || r.persistence >= PersistenceAlert
  }

  /** With the default threshold, any positive persistence already means an alert. */
  lemma PersistenceImpliesAlert(p: Processor, m: Reading)
    ensures ProcessMeasurement(p, m).0.persistence >= 1 ==> EvaluateAlert(ProcessMeasurement(p, m).0)
  {
  }

  /** The colour choice of `enviar_alerta`, by the current level only. */
  function AlertColour(level: real): (c: Colour)
    ensures c == Red <==> level > RedLevel
    ensures c == Yellow <==> YellowLevel < level <= RedLevel
    ensures c == Green <==> level <= YellowLevel
  {
    if level > RedLevel then Red
    else if level > YellowLevel then Yellow
    else Green
  }

  /** A red or yellow colour is only ever chosen for a result that raises an alert. */
  lemma ColourAboveGreenMeansAlert(r: Processed)
    ensures AlertColour(r.level) != Green ==> EvaluateAlert(r)
  {
  }

  /**
   * The converse fails: an alert raised by the projection alone (level at most 0.5 m)
   * is sent with the colour VERDE.
   */
  lemma ProjectionAlertIsSentGreen(r: Processed)
    requires r.level <= YellowLevel
    requires r.projection.Some? && r.projection.value > ProjectionAlert
    ensures EvaluateAlert(r) && AlertColour(r.level) == Green
  {
  }

  /**
   * One pass of the ETL main loop for a consumed measurement: process it, and post
   * an alert with its colour exactly when `evaluar_alerta` holds.
   */
  function HandleMeasurement(p: Processor, m: Reading): (out: (Processor, Option<Colour>))
    ensures out.0.history == Remember(p.history, m)
    ensures out.1.Some? <==> EvaluateAlert(ProcessMeasurement(p, m).0)
    ensures out.1.Some? ==> out.1.value == AlertColour(m.level)
    ensures m.level > LevelAlert ==> out.1.Some? && out.1.value != Green
  {
    var (result, next) := ProcessMeasurement(p, m);
    if EvaluateAlert(result) then (next, Some(AlertColour(result.level))) else (next, None)
  }

  // ---------------------------------------------------------------- consumed messages

  /**
   * A measurement as the main loop takes it off the queue. The queue checks that
   * `nivel_m` converts with `float` but forwards the value as it was sent, so the
   * level may be a JSON number, a boolean or a numeric text such as "0.4".
   */
  datatype Consumed = Consumed(ts: real, level: Json, rain: real)

  /** One pass of the main loop: the measurement is lost to an exception, or processed. */
  datatype Handled = Lost | Done(alert: Option<Colour>)

  /**
   * The level as the arithmetic of `procesar_medicion` sees it: a number is itself and
   * a boolean is 1 or 0 (a Python bool is an int). Any other value makes the first
   * subtraction, in `delta_h`, raise TypeError. Where the arithmetic works it agrees
   * with `float`, whatever `float` does on text.
   */
  function ArithmeticLevel(v: Json): (r: Option<real>)
    ensures r.Some? <==> v.JNum? || v.JBool?
    ensures forall parseFloat: string -> Option<real> :: r.Some? ==> ToFloat(v, parseFloat) == r
  {
    match v
    case JNum(n) => Some(n)
    case JBool(b) => Some(if b then 1.0 else 0.0)
    case _ => None
  }

  /**
   * One pass of the main loop for a consumed message. A level the arithmetic rejects
   * raises inside `procesar_medicion` before the history is extended; the loop's
   * catch-all logs it and moves on, so the message is gone, nothing is stored and no
   * alert is sent. Any other message is handled as `HandleMeasurement`.
   */
  function HandleConsumed(p: Processor, c: Consumed): (out: (Processor, Handled))
    ensures out.1.Lost? <==> !c.level.JNum? && !c.level.JBool?
    ensures out.1.Lost? ==> out.0 == p
    ensures out.1.Done? ==>
      var m := Reading(c.ts, ArithmeticLevel(c.level).value, c.rain);
      out.0 == HandleMeasurement(p, m).0 && out.1.alert == HandleMeasurement(p, m).1
  {
    match ArithmeticLevel(c.level)
    case None => (p, Lost)
    case Some(level) =>
      var handled := HandleMeasurement(p, Reading(c.ts, level, c.rain));
      (handled.0, Done(handled.1))
  }
}
