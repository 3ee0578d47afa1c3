/**
 * The console's history chart control: decoding the three-float history
 * shape (u16 count, u16 index, then count samples of sensor, control and
 * integral) and the reorder loop that rotates the ring to start at `index`
 * and drops samples whose sensor or control reading is NaN. Drawing is
 * outside the model.
 *
 * A read past the end of the buffer fails; the whole update is then
 * abandoned and the control keeps its previous data.
 */
module ChartControl {
  import opened Wrappers
  import opened Wire
  import opened Float32
  import opened History

  datatype Sample = Sample(sensor: f32, control: f32, integral: f32)

  /** A sample the chart can draw: neither its sensor nor its control value is NaN. */
  predicate Plotted(e: Sample) {
    !IsNaN(e.sensor) && !IsNaN(e.control)
  }

  const SampleSize: nat := 12

  datatype ChartData = ChartData(count: nat, index: nat, entries: seq<Sample>)

  function ReadSample(buf: seq<byte>, pos: nat): (r: Option<(Sample, nat)>)
    ensures r.Some? <==> pos + SampleSize <= |buf|
    ensures r.Some? ==> r.value.1 == pos + SampleSize
  {
    var (sensor, p1) :- ReadF32(buf, pos, WireOrder);
    var (control, p2) :- ReadF32(buf, p1, WireOrder);
    var (integral, p3) :- ReadF32(buf, p2, WireOrder);
    Some((Sample(sensor, control, integral), p3))
  }

  /** n consecutive samples from `pos`, read front to back. */
  function ReadSamples(buf: seq<byte>, pos: nat, n: nat): (r: Option<(seq<Sample>, nat)>)
    requires pos <= |buf|
    ensures r.Some? <==> pos + SampleSize * n <= |buf|
    ensures r.Some? ==> |r.value.0| == n && r.value.1 == pos + SampleSize * n
  {
    if n == 0 then Some(([], pos))
    else
      var (front, p) :- ReadSamples(buf, pos, n - 1);
      var (last, q) :- ReadSample(buf, p);
      Some((front + [last], q))
  }

  /** The chart's wire shape: 4 + 12 * count bytes. */
  function DecodeChartHistory(buf: seq<byte>): (r: Option<ChartData>)
    ensures r.Some? <==> 4 <= |buf| && 4 + SampleSize * (U16Of(buf[..2], WireOrder) as int) <= |buf|
    ensures r.Some? ==> |r.value.entries| == r.value.count && r.value.count < 0x1_0000
  {
    var (count, p1) :- ReadU16(buf, 0, WireOrder);
    var (index, p2) :- ReadU16(buf, p1, WireOrder);
    var (entries, _) :- ReadSamples(buf, p2, count as int);
    Some(ChartData(count as int, index as int, entries))
  }

  /** #getOrderedEntries: walks the ring from `index`, keeping plottable samples. */
  method GetOrderedEntries(entries: seq<Sample>, count: nat, index: nat) returns (ordered: seq<Sample>)
    requires |entries| == count
    ensures ordered == Ordered(entries, index, Plotted)
  {
    ghost var rotated := Rotation(entries, index);
    ordered := [];
    var i := 0;
    while i < count
      invariant 0 <= i <= count
      invariant ordered == Filter(rotated[..i], Plotted)
    {
      var pos := (index + i) % count;
      var entry := entries[pos];
      assert rotated[..i + 1] == rotated[..i] + [entry];
      FilterConcat(rotated[..i], [entry], Plotted);
      if Plotted(entry) {
        ordered := ordered + [entry];
      }
      i := i + 1;
    }
    assert rotated[..count] == rotated;
  }

  /** One sample (three floats) read with the parser. */
  method ParseSample(parser: BinaryParser) returns (r: Option<Sample>)
    requires parser.order == WireOrder
    modifies parser
    ensures r == ValueOf(ReadSample(parser.data, old(parser.pos)))
    ensures parser.pos == NextOf(ReadSample(parser.data, old(parser.pos)), old(parser.pos))
  {
    if parser.pos + SampleSize > |parser.data| {
      return None;
    }
    var sensor := parser.ReadFloat32();
    var control := parser.ReadFloat32();
    var integral := parser.ReadFloat32();
    r := Some(Sample(sensor.value, control.value, integral.value));
  }

  /** Reads `n` samples with the parser, stopping at the first read that does not fit. */
  method ParseSamples(parser: BinaryParser, n: nat) returns (r: Option<seq<Sample>>)
    requires parser.order == WireOrder && parser.pos <= |parser.data|
    modifies parser
    ensures var want := ReadSamples(parser.data, old(parser.pos), n);
      (r.Some? <==> want.Some?) && (r.Some? ==> r.value == want.value.0 && parser.pos == want.value.1)
  {
    var start := parser.pos;
    var entries := [];
    var i := 0;
    while i < n
      invariant 0 <= i <= n
      invariant parser.pos == start + SampleSize * i <= |parser.data|
      invariant ReadSamples(parser.data, start, i) == Some((entries, parser.pos))
    {
      var sample := ParseSample(parser);
      if sample.None? {
        return None;
      }
      entries := entries + [sample.value];
      i := i + 1;
    }
    r := Some(entries);
  }

  class Chart {
    /** The last decoded history; absent until an update succeeds. */
    var data: Option<ChartData>

    constructor ()
      ensures data.None?
    {
      data := None;
    }

    /** setValue: an absent value, or one too short for the count it announces, leaves the
        chart as it was; otherwise the chart holds the decoded history. */
    method SetValue(value: Option<seq<byte>>)
      modifies this
      ensures value.None? ==> data == old(data)
      ensures value.Some? ==>
        data == (if DecodeChartHistory(value.value).Some? then DecodeChartHistory(value.value) else old(data))
    {
      if value.None? {
        return;
      }
      var parser := new BinaryParser(value.value, WireOrder);
      var count := parser.ReadUint16();
      if count.None? {
        return;
      }
      var index := parser.ReadUint16();
      if index.None? {
        return;
      }
      var entries := ParseSamples(parser, count.value as int);
      if entries.None? {
        return;
      }
      data := Some(ChartData(count.value as int, index.value as int, entries.value));
    }

    /** The entries the chart draws, per the stored data. */
    method Plot() returns (ordered: seq<Sample>)
      requires data.Some? && |data.value.entries| == data.value.count
      ensures ordered == Ordered(data.value.entries, data.value.index, Plotted)
      ensures |ordered| <= data.value.count
      ensures forall e :: e in ordered ==> Plotted(e)
    {
      ordered := GetOrderedEntries(data.value.entries, data.value.count, data.value.index);
      OrderedBounds(data.value.entries, data.value.index, Plotted);
    }
  }
}
