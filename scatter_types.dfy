/** The records exchanged by the scatter-plot page and the mock prediction
    service: calibration changelogs, prediction cycles keyed by epoch second,
    and the plotted points and threshold segments derived from them.
    Changelog times are the date strings of the JSON; cycle keys are epoch
    seconds; distances and thresholds are only copied, so they are integers
    here. */
module ScatterTypes {
  import opened Common

  /** `anomaly: boolean | null`. */
  datatype Anomaly = AnomalyTrue | AnomalyFalse | AnomalyNull

  datatype SignalData = SignalData(distance: int, anomaly: Anomaly)

  datatype CycleData = CycleData(
    data: map<string, SignalData>,
    id: string,
    cycleLogId: int,
    startTime: int)

  /** The entries of a `cycles` object as `Object.entries` visits them:
      its keys are epoch seconds (integer-like keys), which an object keeps
      distinct and visits in ascending numeric order. */
  predicate KeysAscending(cs: seq<(nat, CycleData)>)
  {
    forall i, j :: 0 <= i < j < |cs| ==> cs[i].0 < cs[j].0
  }

  type Cycles = cs: seq<(nat, CycleData)> | KeysAscending(cs) witness []

  datatype PredictionData = PredictionData(machineId: string, cycles: Cycles)

  datatype LearnedParameter = LearnedParameter(threshold: int, averageList: seq<int>)

  /** `config_parameters`: the tool-sequence map in `Object.entries` order
      and the ordered signal names. */
  datatype ConfigParameters = ConfigParameters(
    toolSequenceMap: seq<(string, int)>,
    signals: seq<string>)

  datatype ChangeLogEntry = ChangeLogEntry(
    id: string,
    machineId: string,
    startTime: string,
    endTime: string,
    learnedTime: string,
    config: ConfigParameters,
    learned: map<string, LearnedParameter>)

  /** A plotted point, as the page builds it: `{x, y, id}`. */
  datatype AxisValue = AxisValue(x: int, y: int, id: string)

  datatype ScatterPlotData = ScatterPlotData(
    anomalyTrueData: seq<AxisValue>,
    anomalyFalseData: seq<AxisValue>,
    anomalyNullData: seq<AxisValue>)

  /** A threshold line from x1 to x2 (epoch milliseconds; None where the
      date string does not parse and `getTime()` gives NaN) at height y. */
  datatype ThresholdSegment = ThresholdSegment(x1: Option<int>, x2: Option<int>, y: int)
}
