/**
 * The field gateway: it keeps a bounded buffer of recent `(time, level)` samples per
 * sensor node, classifies a node's buffer as NORMAL, PRECAUCION or ALERTA from a
 * moving average and a two-point slope, and texts every community leader when a
 * node is in ALERTA.
 *
 * Timestamps are Unix seconds. The reception thread and the analysis thread are
 * taken in sequence: the analysis sees the buffer that includes the new packet.
 */
module Gateway {
  import opened Options
  import opened JsonValues
  import opened Sequences

  /** Detection thresholds: levels in metres, slope in metres per second. */
  const PrecautionLevel: real := 0.45
  const AlertLevel: real := 0.55
  const SlopeThreshold: real := 0.007
  /** Capacity of each node's buffer. */
  const BufferLen: nat := 12
  /** Number of newest levels the moving average takes. */
  const AverageWindow: nat := 5
  /** Node name used when a packet carries none. */
  const UnknownNode: string := "UNKNOWN"

  datatype Sample = Sample(ts: real, level: real)

  datatype Status = Normal | Precaution | Alert

  /** Buffers of all nodes heard so far, oldest sample first. */
  type Buffers = map<string, seq<Sample>>

  /**
   * A decoded UDP packet. `ts` is None when the packet has no usable timestamp
   * (missing, empty or not ISO); `level` and `rain` are None when the key is absent.
   */
  datatype Packet = Packet(nodeId: Option<string>, ts: Option<real>, level: Option<Json>, rain: Option<Json>)

  /** Outcome of receiving a packet: dropped as unparseable, or stored in `buffers`. */
  datatype Reception =
    | Dropped
    | Accepted(buffers: Buffers, node: string, sample: Sample, rain: real)

  /** One text message to one phone number. */
  datatype Sms = Sms(to: string, text: string)

  /** Severity order NORMAL < PRECAUCION < ALERTA. */
  function Rank(s: Status): nat {
    match s
    case Normal => 0
    case Precaution => 1
    case Alert => 2
  }

  // ---------------------------------------------------------------- classification

  function Sum(xs: seq<real>): real
    decreases |xs|
  {
    if |xs| == 0 then 0.0 else xs[0] + Sum(xs[1..])
  }

  /** The levels of the newest `min(5, n)` samples (`levels[-5:]`). */
  function AverageLevels(buf: seq<Sample>): (xs: seq<real>)
    ensures |xs| == Min(AverageWindow, |buf|)
    ensures forall i :: 0 <= i < |xs| ==> xs[i] == buf[|buf| - |xs| + i].level
  {
    var start := |buf| - Min(AverageWindow, |buf|);
    seq(|buf| - start, i requires 0 <= i < |buf| - start => buf[start + i].level)
  }

  /** Moving average of the newest levels of a non-empty buffer. */
  function MovingAverage(buf: seq<Sample>): (ma: real)
    requires |buf| >= 1
    ensures ma * (|AverageLevels(buf)| as real) == Sum(AverageLevels(buf))
  {
    var xs := AverageLevels(buf);
    Sum(xs) / (|xs| as real)
  }

  /** `max(1, dt)`: never below one second, so the slope is never divided by zero. */
  function SlopeDivisor(dt: real): (d: real)
    ensures d >= 1.0 && d >= dt
    ensures d == 1.0 || d == dt
  {
    if 1.0 >= dt then 1.0 else dt
  }

  /** Rise between the two newest samples per (at least one) second between them. */
  function Slope(buf: seq<Sample>): (s: real)
    requires |buf| >= 2
    ensures s * SlopeDivisor(buf[|buf| - 1].ts - buf[|buf| - 2].ts)
            == buf[|buf| - 1].level - buf[|buf| - 2].level
  {
    (buf[|buf| - 1].level - buf[|buf| - 2].level)
      / SlopeDivisor(buf[|buf| - 1].ts - buf[|buf| - 2].ts)
  }

  /** The threshold rule: inclusive thresholds, ALERTA checked first. */
  function Classify(ma: real, slope: real): (s: Status)
    ensures s == Alert <==> ma >= AlertLevel || slope >= SlopeThreshold
    ensures s == Precaution <==> ma < AlertLevel && slope < SlopeThreshold && ma >= PrecautionLevel
    ensures s == Normal <==> ma < PrecautionLevel && slope < SlopeThreshold
  {
    if ma >= AlertLevel || slope >= SlopeThreshold then Alert
    else if ma >= PrecautionLevel then Precaution
    else Normal
  }

  /** The buffer of a node; a node never heard from has an empty one. */
  function BufferOf(buffers: Buffers, node: string): (b: seq<Sample>)
    ensures node in buffers ==> b == buffers[node]
    ensures node !in buffers ==> b == []
  {
    if node in buffers then buffers[node] else []
  }

  /**
   * `analyze_node`: fewer than two samples (an unknown node included) is NORMAL;
   * otherwise the threshold rule on the moving average and the slope.
   */
  function AnalyzeNode(buffers: Buffers, node: string): (s: Status)
    ensures |BufferOf(buffers, node)| < 2 ==> s == Normal
    ensures |BufferOf(buffers, node)| >= 2 ==>
      s == Classify(MovingAverage(BufferOf(buffers, node)), Slope(BufferOf(buffers, node)))
  {
    var buf := BufferOf(buffers, node);
    if |buf| < 2 then Normal else Classify(MovingAverage(buf), Slope(buf))
  }

  /** Raising the moving average with the slope fixed never lowers the status. */
  lemma ClassifyMonotoneInAverage(ma1: real, ma2: real, slope: real)
    requires ma1 <= ma2
    ensures Rank(Classify(ma1, slope)) <= Rank(Classify(ma2, slope))
  {
  }

  /** Raising the slope with the moving average fixed never lowers the status. */
  lemma ClassifyMonotoneInSlope(ma: real, s1: real, s2: real)
    requires s1 <= s2
    ensures Rank(Classify(ma, s1)) <= Rank(Classify(ma, s2))
  {
  }

  lemma {:induction false} SumAtLeast(xs: seq<real>, t: real)
    requires forall i :: 0 <= i < |xs| ==> xs[i] >= t
    ensures Sum(xs) >= t * (|xs| as real)
    decreases |xs|
  {
    if |xs| > 0 {
      SumAtLeast(xs[1..], t);
    }
  }

  lemma {:induction false} SumBelow(xs: seq<real>, t: real)
    requires |xs| > 0
    requires forall i :: 0 <= i < |xs| ==> xs[i] < t
    ensures Sum(xs) < t * (|xs| as real)
    decreases |xs|
  {
    if |xs| > 1 {
      SumBelow(xs[1..], t);
    }
  }

  /** A moving average of levels that are all at least `t` is at least `t`. */
  lemma AverageAtLeast(buf: seq<Sample>, t: real)
    requires |buf| >= 1
    requires forall i :: |buf| - Min(AverageWindow, |buf|) <= i < |buf| ==> buf[i].level >= t
    ensures MovingAverage(buf) >= t
  {
    var xs := AverageLevels(buf);
    SumAtLeast(xs, t);
    assert MovingAverage(buf) * (|xs| as real) >= t * (|xs| as real);
  }

  /** A moving average of levels that are all below `t` is below `t`. */
  lemma AverageBelow(buf: seq<Sample>, t: real)
    requires |buf| >= 1
    requires forall i :: |buf| - Min(AverageWindow, |buf|) <= i < |buf| ==> buf[i].level < t
    ensures MovingAverage(buf) < t
  {
    var xs := AverageLevels(buf);
    SumBelow(xs, t);
    assert MovingAverage(buf) * (|xs| as real) < t * (|xs| as real);
  }

  /** Every one of the newest (up to five) samples at or above 0.55 m puts the node in ALERTA. */
  lemma SustainedHighLevelAlerts(buffers: Buffers, node: string)
    requires |BufferOf(buffers, node)| >= 2
    requires var b := BufferOf(buffers, node);
      forall i :: |b| - Min(AverageWindow, |b|) <= i < |b| ==> b[i].level >= AlertLevel
    ensures AnalyzeNode(buffers, node) == Alert
  {
    AverageAtLeast(BufferOf(buffers, node), AlertLevel);
  }

  /**
   * Because the slope divisor is at least one second, a rise of less than 0.007 m
   * between the two newest samples can never trip the slope rule, however close in
   * time they are; with all newest levels below 0.45 m the node is then NORMAL.
   */
  lemma QuietBufferIsNormal(buffers: Buffers, node: string)
    requires |BufferOf(buffers, node)| >= 2
    requires var b := BufferOf(buffers, node);
      forall i :: |b| - Min(AverageWindow, |b|) <= i < |b| ==> b[i].level < PrecautionLevel
    requires var b := BufferOf(buffers, node);
      b[|b| - 1].level - b[|b| - 2].level < SlopeThreshold
    ensures AnalyzeNode(buffers, node) == Normal
  {
    var b := BufferOf(buffers, node);
    AverageBelow(b, PrecautionLevel);
    var rise := b[|b| - 1].level - b[|b| - 2].level;
    var d := SlopeDivisor(b[|b| - 1].ts - b[|b| - 2].ts);
    if rise >= 0.0 {
      assert Slope(b) == rise / d;
      QuotientAtMost(rise, d);
    }
  }

  /** Dividing a non-negative number by at least one never makes it larger. */
  lemma QuotientAtMost(x: real, d: real)
    requires x >= 0.0 && d >= 1.0
    ensures x / d <= x
  {
    var q := x / d;
    assert q * d == x;
    assert x - q == q * (d - 1.0);
  }

  // ---------------------------------------------------------------- reception

  /** Appends to a buffer of capacity twelve, dropping the oldest sample when full. */
  function Push(buf: seq<Sample>, s: Sample): (b: seq<Sample>)
    ensures |b| == Min(BufferLen, |buf| + 1)
    ensures b == (buf + [s])[|buf| + 1 - |b|..]
    ensures b[|b| - 1] == s
  {
    KeepNewest(buf, s, BufferLen)
  }

  /** Every buffer holds at most twelve samples. */
  predicate Bounded(buffers: Buffers) {
    forall node :: node in buffers ==> |buffers[node]| <= BufferLen
  }

  /**
   * One packet through `receiver`: the node defaults to "UNKNOWN", a missing level or
   * rainfall to 0 and a missing timestamp to `now`. A level or rainfall that `float`
   * rejects drops the packet before any buffer is touched. Otherwise the sample is
   * pushed onto that node's buffer (created if new) and no other buffer changes.
   */
  function Receive(buffers: Buffers, pkt: Packet, now: real, parseFloat: string -> Option<real>): (r: Reception)
    ensures r.Dropped? <==>
      ToFloat(pkt.level.GetOr(JNum(0.0)), parseFloat).None? || ToFloat(pkt.rain.GetOr(JNum(0.0)), parseFloat).None?
    ensures r.Accepted? ==> r.node == pkt.nodeId.GetOr(UnknownNode)
    ensures r.Accepted? ==> r.sample == Sample(pkt.ts.GetOr(now), ToFloat(pkt.level.GetOr(JNum(0.0)), parseFloat).value)
    ensures r.Accepted? && pkt.level.None? ==> r.sample.level == 0.0
    ensures r.Accepted? ==> r.rain == ToFloat(pkt.rain.GetOr(JNum(0.0)), parseFloat).value
    ensures r.Accepted? ==> r.buffers.Keys == buffers.Keys + {r.node}
    ensures r.Accepted? ==> forall n :: n in buffers && n != r.node ==> r.buffers[n] == buffers[n]
    ensures r.Accepted? ==> r.buffers[r.node] == Push(BufferOf(buffers, r.node), r.sample)
  {
    var node := pkt.nodeId.GetOr(UnknownNode);
    var level := ToFloat(pkt.level.GetOr(JNum(0.0)), parseFloat);
    var rain := ToFloat(pkt.rain.GetOr(JNum(0.0)), parseFloat);
    if level.None? || rain.None? then Dropped
    else
      var sample := Sample(pkt.ts.GetOr(now), level.value);
      Accepted(Store(buffers, node, sample), node, sample, rain.value)
  }

  /** Pushes a sample onto one node's buffer, creating it if new; no other buffer changes. */
  function Store(buffers: Buffers, node: string, s: Sample): (r: Buffers)
    ensures r.Keys == buffers.Keys + {node}
    ensures forall n :: n in buffers && n != node ==> r[n] == buffers[n]
    ensures r[node] == Push(BufferOf(buffers, node), s)
  {
    buffers[node := Push(BufferOf(buffers, node), s)]
  }

  /** Receiving keeps every buffer within its capacity of twelve samples. */
  lemma ReceiveKeepsBounded(buffers: Buffers, pkt: Packet, now: real, parseFloat: string -> Option<real>)
    ensures var r := Receive(buffers, pkt, now, parseFloat);
      Bounded(buffers) && r.Accepted? ==> Bounded(r.buffers)
  {
    var r := Receive(buffers, pkt, now, parseFloat);
    if Bounded(buffers) && r.Accepted? {
      forall n | n in r.buffers
        ensures |r.buffers[n]| <= BufferLen
      {
        if n == r.node {
          assert |Push(BufferOf(buffers, r.node), r.sample)| <= BufferLen;
        } else {
          assert r.buffers[n] == buffers[n];
        }
      }
    }
  }

  /** Text of the alert message for a node. */
  function AlertText(node: string): string {
    "ALERTA URGENTE - Nodo " + node + " detecta crecida. Diríjase ya a zonas altas."
  }

  /** `maybe_alert`: one message to each leader, in order, exactly when the node is in ALERTA. */
  function MaybeAlert(buffers: Buffers, node: string, leaders: seq<string>): (sent: seq<Sms>)
    ensures AnalyzeNode(buffers, node) != Alert ==> sent == []
    ensures AnalyzeNode(buffers, node) == Alert ==> |sent| == |leaders|
    ensures forall i :: 0 <= i < |sent| ==> sent[i].to == leaders[i] && sent[i].text == AlertText(node)
  {
    if AnalyzeNode(buffers, node) == Alert then
      seq(|leaders|, i requires 0 <= i < |leaders| => Sms(leaders[i], AlertText(node)))
    else []
  }

  /**
   * A packet end to end: received, then analysed on the updated buffers. A dropped
   * packet changes nothing and texts no one.
   */
  function HandlePacket(buffers: Buffers, pkt: Packet, now: real, parseFloat: string -> Option<real>,
                        leaders: seq<string>): (out: (Buffers, seq<Sms>))
    ensures Receive(buffers, pkt, now, parseFloat).Dropped? ==> out == (buffers, [])
    ensures Bounded(buffers) ==> Bounded(out.0)
    ensures |out.1| > 0 ==> AnalyzeNode(out.0, pkt.nodeId.GetOr(UnknownNode)) == Alert
    ensures Receive(buffers, pkt, now, parseFloat).Accepted? ==>
      out.0 == Receive(buffers, pkt, now, parseFloat).buffers
    ensures Receive(buffers, pkt, now, parseFloat).Accepted? ==>
      out.1 == MaybeAlert(out.0, Receive(buffers, pkt, now, parseFloat).node, leaders)
  {
    var r := Receive(buffers, pkt, now, parseFloat);
    if r.Dropped? then (buffers, [])
    else
      ReceiveKeepsBounded(buffers, pkt, now, parseFloat);
      (r.buffers, MaybeAlert(r.buffers, r.node, leaders))
  }
}
