/** The data transforms of the scatter-plot page: partitioning a machine's
    prediction cycles into three point series by anomaly value, turning
    changelog entries into threshold segments, the daily x-axis ticks, the
    tool-sequence menu and the enable rule of the search button. */
module ScatterPage {
  import opened Common
  import opened ScatterTypes
  import MockScatterApi

  /** What a transform throws when a lookup it does not guard finds
      nothing: the cycle without the selected signal, or the changelog
      entry without the selected tool sequence. */
  datatype TransformError = MissingSignal(epoch: nat) | MissingSequence(entryId: string)

  // ------------------------------------------------------ formatPredictionData

  predicate AllHaveSignal(cs: seq<(nat, CycleData)>, signal: string)
  {
    forall i :: 0 <= i < |cs| ==> signal in cs[i].1.data
  }

  /** The point of one cycle: x in milliseconds, y its distance, its id. */
  function PointOf(c: (nat, CycleData), signal: string): AxisValue
    requires signal in c.1.data
  {
    AxisValue(c.0 * 1000, c.1.data[signal].distance, c.1.id)
  }

  /** The points pushed into the array of anomaly class `a`, in visit order. */
  function PointsOf(cs: seq<(nat, CycleData)>, signal: string, a: Anomaly): seq<AxisValue>
    requires AllHaveSignal(cs, signal)
  {
    if cs == [] then []
    else
      var last := cs[|cs| - 1];
      PointsOf(cs[..|cs| - 1], signal, a) + (if last.1.data[signal].anomaly == a then [PointOf(last, signal)] else [])
  }

  function Partition(cs: seq<(nat, CycleData)>, signal: string): ScatterPlotData
    requires AllHaveSignal(cs, signal)
  {
    ScatterPlotData(PointsOf(cs, signal, AnomalyTrue), PointsOf(cs, signal, AnomalyFalse), PointsOf(cs, signal, AnomalyNull))
  }

  /** Index of the first cycle that lacks the signal. */
  function FirstWithoutSignal(cs: seq<(nat, CycleData)>, signal: string): (i: nat)
    requires !AllHaveSignal(cs, signal)
    ensures i < |cs| && signal !in cs[i].1.data && AllHaveSignal(cs[..i], signal)
  {
    if signal !in cs[0].1.data then 0
    else
      var k := FirstWithoutSignal(cs[1..], signal);
      assert cs[..k + 1] == [cs[0]] + cs[1..][..k];
      k + 1
  }

  /** The outcome of `formatPredictionData`: three empty arrays without
      data, the partition when every cycle carries the signal, and
      otherwise the error thrown at the first cycle that does not. */
  function PlotOf(pd: Option<PredictionData>, signal: string): (r: Result<ScatterPlotData, TransformError>)
    ensures pd.None? ==> r == Success(ScatterPlotData([], [], []))
    ensures pd.Some? ==> (r.Success? <==> AllHaveSignal(pd.value.cycles, signal))
    ensures pd.Some? && r.Failure? ==>
              exists i :: 0 <= i < |pd.value.cycles| && r.error == MissingSignal(pd.value.cycles[i].0)
                          && signal !in pd.value.cycles[i].1.data && AllHaveSignal(pd.value.cycles[..i], signal)
  {
    if pd.None? then Success(ScatterPlotData([], [], []))
    else if AllHaveSignal(pd.value.cycles, signal) then Success(Partition(pd.value.cycles, signal))
    else Failure(MissingSignal(pd.value.cycles[FirstWithoutSignal(pd.value.cycles, signal)].0))
  }

  method FormatPredictionData(pd: Option<PredictionData>, signal: string)
    returns (r: Result<ScatterPlotData, TransformError>)
    ensures r == PlotOf(pd, signal)
  {
    var anomalyTrueData: seq<AxisValue> := [];
    var anomalyFalseData: seq<AxisValue> := [];
    var anomalyNullData: seq<AxisValue> := [];
    if pd.Some? {
      var cs := pd.value.cycles;
      for i := 0 to |cs|
        invariant AllHaveSignal(cs[..i], signal)
        invariant anomalyTrueData == PointsOf(cs[..i], signal, AnomalyTrue)
        invariant anomalyFalseData == PointsOf(cs[..i], signal, AnomalyFalse)
        invariant anomalyNullData == PointsOf(cs[..i], signal, AnomalyNull)
      {
        if signal !in cs[i].1.data {
          FirstWithoutSignalAt(cs, signal, i);
          return Failure(MissingSignal(cs[i].0));
        }
        PointsOfStep(cs, signal, i);
        var point := PointOf(cs[i], signal);
        match cs[i].1.data[signal].anomaly
        case AnomalyTrue => anomalyTrueData := anomalyTrueData + [point];
        case AnomalyFalse => anomalyFalseData := anomalyFalseData + [point];
        case AnomalyNull => anomalyNullData := anomalyNullData + [point];
      }
      assert cs[..|cs|] == cs;
    }
    return Success(ScatterPlotData(anomalyTrueData, anomalyFalseData, anomalyNullData));
  }

  /** The first cycle lacking the signal is the one the loop stops at. */
  lemma {:induction false} FirstWithoutSignalAt(cs: seq<(nat, CycleData)>, signal: string, i: nat)
    requires i < |cs| && signal !in cs[i].1.data && AllHaveSignal(cs[..i], signal)
    ensures !AllHaveSignal(cs, signal) && FirstWithoutSignal(cs, signal) == i
  {
    if i > 0 {
      assert cs[0] == cs[..i][0];
      assert cs[1..][..i - 1] == cs[1..i];
      assert forall k :: 0 <= k < i - 1 ==> cs[1..i][k] == cs[..i][k + 1];
      FirstWithoutSignalAt(cs[1..], signal, i - 1);
    }
  }

  /** One more cycle appends its point to the array of its class only. */
  lemma PointsOfStep(cs: seq<(nat, CycleData)>, signal: string, i: nat)
    requires i < |cs| && AllHaveSignal(cs[..i], signal) && signal in cs[i].1.data
    ensures AllHaveSignal(cs[..i + 1], signal)
    ensures forall a :: PointsOf(cs[..i + 1], signal, a) ==
              PointsOf(cs[..i], signal, a) + (if cs[i].1.data[signal].anomaly == a then [PointOf(cs[i], signal)] else [])
  {
    assert cs[..i + 1][..i] == cs[..i];
  }

  /** Every cycle lands in exactly one array: the lengths add up. */
  lemma {:induction false} PartitionComplete(cs: seq<(nat, CycleData)>, signal: string)
    requires AllHaveSignal(cs, signal)
    ensures |PointsOf(cs, signal, AnomalyTrue)| + |PointsOf(cs, signal, AnomalyFalse)|
              + |PointsOf(cs, signal, AnomalyNull)| == |cs|
  {
    if cs != [] {
      PartitionComplete(cs[..|cs| - 1], signal);
    }
  }

  /** A point is in the array of class `a` exactly when it is the point of
      a cycle whose anomaly for the signal is `a`. */
  lemma {:induction false} PointsOfExactly(cs: seq<(nat, CycleData)>, signal: string, a: Anomaly, v: AxisValue)
    requires AllHaveSignal(cs, signal)
    ensures v in PointsOf(cs, signal, a) <==>
              exists i :: 0 <= i < |cs| && cs[i].1.data[signal].anomaly == a && v == PointOf(cs[i], signal)
  {
    if cs != [] {
      var n := |cs| - 1;
      PointsOfExactly(cs[..n], signal, a, v);
      if v in PointsOf(cs, signal, a) && v !in PointsOf(cs[..n], signal, a) {
        assert cs[n].1.data[signal].anomaly == a && v == PointOf(cs[n], signal);
      }
      if exists i :: 0 <= i < |cs| && cs[i].1.data[signal].anomaly == a && v == PointOf(cs[i], signal) {
        var i :| 0 <= i < |cs| && cs[i].1.data[signal].anomaly == a && v == PointOf(cs[i], signal);
        if i < n {
          assert cs[..n][i] == cs[i];
        }
      }
    }
  }

  /** Within each array the points keep the visit order of the cycles,
      which is ascending epoch order, so x strictly increases. */
  lemma {:induction false} PointsAscending(cs: seq<(nat, CycleData)>, signal: string, a: Anomaly)
    requires AllHaveSignal(cs, signal) && KeysAscending(cs)
    ensures var ps := PointsOf(cs, signal, a);
            forall i, j :: 0 <= i < j < |ps| ==> ps[i].x < ps[j].x
  {
    if cs != [] {
      var n := |cs| - 1;
      var prefix := cs[..n];
      assert AllHaveSignal(prefix, signal) && KeysAscending(prefix);
      PointsAscending(prefix, signal, a);
      var rest := PointsOf(prefix, signal, a);
      if cs[n].1.data[signal].anomaly == a {
        forall k | 0 <= k < |rest|
          ensures rest[k].x < cs[n].0 * 1000
        {
          var v := rest[k];
          PointsOfExactly(prefix, signal, a, v);
          var i :| 0 <= i < |prefix| && prefix[i].1.data[signal].anomaly == a && v == PointOf(prefix[i], signal);
          assert prefix[i] == cs[i];
          assert cs[i].0 < cs[n].0;
        }
      }
    }
  }

  /** No point is in two arrays: two points of different classes come from
      different cycles, hence have different x. */
  lemma PartitionDisjoint(cs: seq<(nat, CycleData)>, signal: string, a: Anomaly, b: Anomaly, v: AxisValue, w: AxisValue)
    requires AllHaveSignal(cs, signal) && KeysAscending(cs)
    requires a != b
    requires v in PointsOf(cs, signal, a) && w in PointsOf(cs, signal, b)
    ensures v.x != w.x
  {
    PointsOfExactly(cs, signal, a, v);
    PointsOfExactly(cs, signal, b, w);
    var i :| 0 <= i < |cs| && cs[i].1.data[signal].anomaly == a && v == PointOf(cs[i], signal);
    var j :| 0 <= j < |cs| && cs[j].1.data[signal].anomaly == b && w == PointOf(cs[j], signal);
    assert i != j;
    assert i < j ==> cs[i].0 < cs[j].0;
    assert j < i ==> cs[j].0 < cs[i].0;
  }

  // ------------------------------------------------------ onToolChange thresholds

  predicate AllHaveSequence(logs: seq<ChangeLogEntry>, sequence: string)
  {
    forall i :: 0 <= i < |logs| ==> sequence in logs[i].learned
  }

  /** The threshold loop of `onToolChange`: one segment per changelog
      entry, spanning its validity window at its learned threshold for the
      selected tool sequence; it throws at the first entry that has no
      parameters for that sequence. `parseDate` stands for
      `new Date(s).getTime()`. */
  method ThresholdSegments(logs: seq<ChangeLogEntry>, sequence: string, parseDate: string -> Option<int>)
    returns (r: Result<seq<ThresholdSegment>, TransformError>)
    ensures r.Success? <==> AllHaveSequence(logs, sequence)
    ensures r.Success? ==>
              |r.value| == |logs|
              && forall i :: 0 <= i < |logs| ==>
                   r.value[i] == ThresholdSegment(parseDate(logs[i].startTime), parseDate(logs[i].endTime), logs[i].learned[sequence].threshold)
    ensures r.Failure? ==>
              exists i :: 0 <= i < |logs| && sequence !in logs[i].learned && r.error == MissingSequence(logs[i].id)
                          && AllHaveSequence(logs[..i], sequence)
  {
    var selected: seq<ThresholdSegment> := [];
    for i := 0 to |logs|
      invariant |selected| == i
      invariant AllHaveSequence(logs[..i], sequence)
      invariant forall k :: 0 <= k < i ==>
                  selected[k] == ThresholdSegment(parseDate(logs[k].startTime), parseDate(logs[k].endTime), logs[k].learned[sequence].threshold)
    {
      if sequence !in logs[i].learned {
        return Failure(MissingSequence(logs[i].id));
      }
      assert logs[..i + 1] == logs[..i] + [logs[i]];
      selected := selected + [ThresholdSegment(parseDate(logs[i].startTime), parseDate(logs[i].endTime), logs[i].learned[sequence].threshold)];
    }
    assert logs[..|logs|] == logs;
    return Success(selected);
  }

  // ------------------------------------------------------ generateXAxisTicks

  const DAY_MS := 86_400_000

  /** One tick per day from `start` while the tick is not after `end`. */
  method GenerateXAxisTicks(start: int, end: int) returns (ticks: seq<int>)
    ensures forall i :: 0 <= i < |ticks| ==> ticks[i] == start + i * DAY_MS && ticks[i] <= end
    ensures start + |ticks| * DAY_MS > end
    ensures ticks == [] <==> start > end
    ensures |ticks| == if start > end then 0 else (end - start) / DAY_MS + 1
  {
    ticks := [];
    var current := start;
    while current <= end
      invariant current == start + |ticks| * DAY_MS
      invariant forall i :: 0 <= i < |ticks| ==> ticks[i] == start + i * DAY_MS && ticks[i] <= end
      invariant ticks != [] ==> current - DAY_MS <= end
      decreases end - current + DAY_MS
    {
      ticks := ticks + [current];
      current := current + DAY_MS;
    }
    if ticks != [] {
      DayCount(|ticks|, end - start);
    }
  }

  lemma DayCount(k: nat, span: int)
    requires 1 <= k && (k - 1) * DAY_MS <= span < k * DAY_MS
    ensures k == span / DAY_MS + 1
  {
  }

  // ------------------------------------------------------ formatToolTOptions

  /** A menu item of the tool selector; the placeholder has no value. */
  datatype ToolOption = ToolOption(id: int, caption: string, value: Option<string>)

  const NO_OPTION := ToolOption(1, "No option for selected Date", None)

  function FormatToolOptions(logs: seq<ChangeLogEntry>): (r: seq<ToolOption>)
    ensures logs == [] ==> r == [NO_OPTION]
    ensures logs != [] ==>
              var m := logs[0].config.toolSequenceMap;
              |r| == |m| && forall i :: 0 <= i < |m| ==> r[i] == ToolOption(m[i].1, IntToString(m[i].1), Some(m[i].0))
  {
    if logs == [] then [NO_OPTION]
    else
      var m := logs[0].config.toolSequenceMap;
      seq(|m|, i requires 0 <= i < |m| => ToolOption(m[i].1, IntToString(m[i].1), Some(m[i].0)))
  }

  /** Each real option's label reads back as its id, and its value is a key
      of the first entry's tool-sequence map; only the placeholder has no
      value. */
  lemma ToolOptionsMeaning(logs: seq<ChangeLogEntry>)
    ensures var r := FormatToolOptions(logs);
            forall o :: o in r ==>
              (o.value.None? <==> logs == [])
              && (o.value.Some? ==> ParseInt(o.caption) == o.id
                                    && (o.value.value, o.id) in logs[0].config.toolSequenceMap)
  {
    var r := FormatToolOptions(logs);
    forall o | o in r && o.value.Some?
      ensures ParseInt(o.caption) == o.id && (o.value.value, o.id) in logs[0].config.toolSequenceMap
    {
      var i :| 0 <= i < |r| && r[i] == o;
      IntToStringRoundTrip(o.id);
      assert logs[0].config.toolSequenceMap[i] == (o.value.value, o.id);
    }
  }

  // ------------------------------------------------------ isSearchActive

  /** The `disabled` flag of the search button (true means disabled,
      despite the name): dates and times are `Date | null`. */
  function IsSearchActive(machineId: string, startDate: Option<int>, startTime: Option<int>,
                          endDate: Option<int>, endTime: Option<int>, toolSequence: string): (disabled: bool)
    ensures !disabled <==> machineId != "" && startDate.Some? && startTime.Some?
                           && endDate.Some? && endTime.Some? && toolSequence != ""
  {
    if machineId != "" && startDate.Some? && startTime.Some? && endDate.Some? && endTime.Some? && toolSequence != ""
    then false else true
  }

  // ------------------------------------------------------ onSearch input

  /** What the service call `getPredictionData` hands `formatPredictionData`:
      `res.data.Result`. A 200 reply of `/predictions` carries its cycles
      under `cycles` and has no `Result`; on a 400 axios rejects and the
      service's catch returns `undefined`. */
  function ReceivedPredictions(reply: MockScatterApi.Response<MockScatterApi.PredictionsBody>): (pd: Option<PredictionData>)
    ensures pd == None
  {
    match reply
    case Ok(_) => None
    case Error(_, _) => None
  }

  /** As written, every search plots nothing, whatever the fixture holds. */
  lemma SearchPlotAlwaysEmpty(q: MockScatterApi.PredictionQuery, fixture: seq<PredictionData>,
                              parseDate: string -> Option<int>, signal: string)
    ensures PlotOf(ReceivedPredictions(MockScatterApi.PredictionReply(q, fixture, parseDate)), signal)
            == Success(ScatterPlotData([], [], []))
  {
  }

  /** The intended hand-over: the machine's prediction data with the
      cycles of the window, as the route's `{Status, Result: PredictionData}`
      reply would give it. */
  function ReceivedPredictionsCorrected(reply: MockScatterApi.Response<MockScatterApi.PredictionsBody>, machineId: string)
    : (pd: Option<PredictionData>)
    ensures pd.Some? <==> reply.Ok?
    ensures pd.Some? ==> pd.value.cycles == reply.body.cycles && pd.value.machineId == machineId
  {
    match reply
    case Ok(body) => Some(PredictionData(machineId, body.cycles))
    case Error(_, _) => None
  }

  /** With the corrected hand-over a search plots every cycle of the
      window, each in the array of its anomaly class. */
  lemma SearchPlotShowsWindow(q: MockScatterApi.PredictionQuery, fixture: seq<PredictionData>,
                              parseDate: string -> Option<int>, signal: string)
    requires MockScatterApi.PredictionReply(q, fixture, parseDate).Ok?
    requires AllHaveSignal(MockScatterApi.PredictionReply(q, fixture, parseDate).body.cycles, signal)
    ensures var cs := MockScatterApi.PredictionReply(q, fixture, parseDate).body.cycles;
            var plot := PlotOf(ReceivedPredictionsCorrected(MockScatterApi.PredictionReply(q, fixture, parseDate), q.machineId.value), signal);
            && plot.Success?
            && |plot.value.anomalyTrueData| + |plot.value.anomalyFalseData| + |plot.value.anomalyNullData| == |cs|
            && (forall i :: 0 <= i < |cs| && cs[i].1.data[signal].anomaly == AnomalyTrue ==>
                  PointOf(cs[i], signal) in plot.value.anomalyTrueData)
            && (forall i :: 0 <= i < |cs| && cs[i].1.data[signal].anomaly == AnomalyFalse ==>
                  PointOf(cs[i], signal) in plot.value.anomalyFalseData)
            && (forall i :: 0 <= i < |cs| && cs[i].1.data[signal].anomaly == AnomalyNull ==>
                  PointOf(cs[i], signal) in plot.value.anomalyNullData)
  {
    var cs := MockScatterApi.PredictionReply(q, fixture, parseDate).body.cycles;
    PartitionComplete(cs, signal);
    forall i, a | 0 <= i < |cs| && cs[i].1.data[signal].anomaly == a
      ensures PointOf(cs[i], signal) in PointsOf(cs, signal, a)
    {
      PointsOfExactly(cs, signal, a, PointOf(cs[i], signal));
    }
  }
}
