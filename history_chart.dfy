/**
 * The console's history chart (a chart variant with its own wire shape):
 * u16 count, f32 sensor minimum, f32 sensor maximum, u16 index, then count
 * samples. The samples are reordered as the plain chart does, and turned
 * into four series: a constant PID target line and the sensor, control and
 * integral values. The reported sensor bounds become the sensor axis'
 * suggested limits; the control axis is fixed to 0..1.
 */
module HistoryChartControl {
  import opened Wrappers
  import opened Wire
  import opened Float32
  import opened History
  import opened ChartControl

  const FrameHeaderSize: nat := 12

  datatype HistoryFrame = HistoryFrame(count: nat, sensorMin: f32, sensorMax: f32, index: nat, entries: seq<Sample>)

  function DecodeHistoryFrame(buf: seq<byte>): (r: Option<HistoryFrame>)
    ensures r.Some? <==>
      FrameHeaderSize <= |buf| && FrameHeaderSize + SampleSize * (U16Of(buf[..2], WireOrder) as int) <= |buf|
    ensures r.Some? ==> |r.value.entries| == r.value.count && r.value.count < 0x1_0000
  {
    var (count, p1) :- ReadU16(buf, 0, WireOrder);
    var (sensorMin, p2) :- ReadF32(buf, p1, WireOrder);
    var (sensorMax, p3) :- ReadF32(buf, p2, WireOrder);
    var (index, p4) :- ReadU16(buf, p3, WireOrder);
    var (entries, _) :- ReadSamples(buf, p4, count as int);
    Some(HistoryFrame(count as int, sensorMin, sensorMax, index as int, entries))
  }

  /** What the chart draws: one point per plotted sample on each of the four lines. */
  datatype Series = Series(count: nat, target: seq<f32>, sensor: seq<f32>, control: seq<f32>, integral: seq<f32>)

  function SeriesOf(ordered: seq<Sample>, target: f32): (r: Series)
    ensures r.count == |ordered|
    ensures |r.target| == |r.sensor| == |r.control| == |r.integral| == |ordered|
  {
    Series(|ordered|,
      seq(|ordered|, _ => target),
      seq(|ordered|, k requires 0 <= k < |ordered| => ordered[k].sensor),
      seq(|ordered|, k requires 0 <= k < |ordered| => ordered[k].control),
      seq(|ordered|, k requires 0 <= k < |ordered| => ordered[k].integral))
  }

  /** The PID target from the console's configuration, or 0 while none is loaded. */
  function TargetOf(pidTarget: Option<f32>): f32 {
    if pidTarget.Some? then pidTarget.value else Zero
  }

  /** The series drawn for a decoded frame. */
  function FrameSeries(h: HistoryFrame, pidTarget: Option<f32>): Series
    requires |h.entries| == h.count
  {
    SeriesOf(Ordered(h.entries, h.index, Plotted), TargetOf(pidTarget))
  }

  /** No more points than samples, no NaN on the sensor or control line, the target
      line flat at the configured target, and the integral line carried along unfiltered. */
  lemma FrameSeriesDrawable(h: HistoryFrame, pidTarget: Option<f32>)
    requires |h.entries| == h.count
    ensures var s := FrameSeries(h, pidTarget);
      s.count <= h.count &&
      (forall k :: 0 <= k < s.count ==> !IsNaN(s.sensor[k]) && !IsNaN(s.control[k])) &&
      (forall k :: 0 <= k < s.count ==> s.target[k] == TargetOf(pidTarget)) &&
      (forall k :: 0 <= k < s.count ==> exists j :: 0 <= j < h.count && s.integral[k] == h.entries[j].integral)
  {
    var ordered := Ordered(h.entries, h.index, Plotted);
    var s := FrameSeries(h, pidTarget);
    OrderedBounds(h.entries, h.index, Plotted);
    forall k | 0 <= k < s.count
      ensures !IsNaN(s.sensor[k]) && !IsNaN(s.control[k])
      ensures exists j :: 0 <= j < h.count && s.integral[k] == h.entries[j].integral
    {
      assert ordered[k] in ordered;
      var j :| 0 <= j < |h.entries| && h.entries[j] == ordered[k];
      assert s.integral[k] == h.entries[j].integral;
    }
  }

  /** When nothing is filtered out, each sensor point is the ring slot `index + k` places on. */
  lemma UnfilteredSeries(h: HistoryFrame, pidTarget: Option<f32>)
    requires |h.entries| == h.count
    requires Ordered(h.entries, h.index, Plotted) == Rotation(h.entries, h.index)
    ensures FrameSeries(h, pidTarget).count == h.count
    ensures forall k :: 0 <= k < h.count ==>
      FrameSeries(h, pidTarget).sensor[k] == h.entries[(h.index + k) % h.count].sensor
  {
    var rotated := Rotation(h.entries, h.index);
    var s := FrameSeries(h, pidTarget);
    assert s == SeriesOf(rotated, TargetOf(pidTarget));
    forall k | 0 <= k < h.count
      ensures s.sensor[k] == h.entries[(h.index + k) % h.count].sensor
    {
      assert s.sensor[k] == rotated[k].sensor;
    }
  }

  /** A frame without NaN readings is drawn in full, rotated to start at the ring's index. */
  lemma CleanFrameDrawnInFull(h: HistoryFrame, pidTarget: Option<f32>)
    requires |h.entries| == h.count
    requires forall j :: 0 <= j < h.count ==> Plotted(h.entries[j])
    ensures FrameSeries(h, pidTarget).count == h.count
    ensures forall k :: 0 <= k < h.count ==>
      FrameSeries(h, pidTarget).sensor[k] == h.entries[(h.index + k) % h.count].sensor
  {
    OrderedIsRotation(h.entries, h.index, Plotted);
    UnfilteredSeries(h, pidTarget);
  }

  /** The header and samples of a frame, read with a parser positioned at its start. */
  method ParseFrame(parser: BinaryParser) returns (r: Option<HistoryFrame>)
    requires parser.order == WireOrder && parser.pos == 0
    modifies parser
    ensures r == DecodeHistoryFrame(parser.data)
  {
    var count := parser.ReadUint16();
    var sensorMin := parser.ReadFloat32();
    var sensorMax := parser.ReadFloat32();
    var index := parser.ReadUint16();
    if count.None? || sensorMin.None? || sensorMax.None? || index.None? {
      return None;
    }
    assert parser.pos == FrameHeaderSize;
    assert ReadU16(parser.data, 0, WireOrder) == Some((count.value, 2));
    assert ReadF32(parser.data, 2, WireOrder) == Some((sensorMin.value, 6));
    assert ReadF32(parser.data, 6, WireOrder) == Some((sensorMax.value, 10));
    assert ReadU16(parser.data, 10, WireOrder) == Some((index.value, 12));
    var entries := ParseSamples(parser, count.value as int);
    if entries.None? {
      return None;
    }
    r := Some(HistoryFrame(count.value as int, sensorMin.value, sensorMax.value, index.value as int, entries.value));
  }

  class HistoryChart {
    var sensorSuggestedMin: Option<f32>
    var sensorSuggestedMax: Option<f32>
    const controlSuggestedMin: real
    const controlSuggestedMax: real
    var data: Option<Series>

    constructor ()
      ensures sensorSuggestedMin.None? && sensorSuggestedMax.None? && data.None?
      ensures controlSuggestedMin == 0.0 && controlSuggestedMax == 1.0
    {
      sensorSuggestedMin := None;
      sensorSuggestedMax := None;
      controlSuggestedMin := 0.0;
      controlSuggestedMax := 1.0;
      data := None;
    }

    /** setValue: an absent or short value leaves the chart as it was; otherwise the sensor
        axis takes the reported bounds and the chart draws the frame's series. */
    method SetValue(value: Option<seq<byte>>, pidTarget: Option<f32>)
      modifies this
      ensures value.None? || DecodeHistoryFrame(value.value).None? ==>
        sensorSuggestedMin == old(sensorSuggestedMin) && sensorSuggestedMax == old(sensorSuggestedMax) &&
        data == old(data)
      ensures value.Some? && DecodeHistoryFrame(value.value).Some? ==>
        var h := DecodeHistoryFrame(value.value).value;
        sensorSuggestedMin == Some(h.sensorMin) && sensorSuggestedMax == Some(h.sensorMax) &&
        data == Some(FrameSeries(h, pidTarget))
    {
      if value.None? {
        return;
      }
      var parser := new BinaryParser(value.value, WireOrder);
      var frame := ParseFrame(parser);
      if frame.None? {
        return;
      }
      var h := frame.value;
      var ordered := GetOrderedEntries(h.entries, h.count, h.index);
      sensorSuggestedMin := Some(h.sensorMin);
      sensorSuggestedMax := Some(h.sensorMax);
      data := Some(SeriesOf(ordered, TargetOf(pidTarget)));
    }
  }
}
