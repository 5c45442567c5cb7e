/** The query handlers of the mock HTTP layer for the scatter page:
    `/changelogs`, `/predictions` and `/cycles`. The JSON fixture each
    handler fetches is a parameter here, and so is the date parser that
    `new Date(string)` stands for. */
module MockScatterApi {
  import opened Common
  import opened ScatterTypes

  /** A mock HTTP reply: a 200 with its body, or an error status with the
      `Error` text of its `{Status: false, Error}` body. */
  datatype Response<+T> = Ok(body: T) | Error(status: int, message: string)

  /** `Number(value)` of a query parameter: NaN (also for an absent one) or
      an integral value. */
  datatype JsNumber = NaN | Num(n: int)

  // ---------------------------------------------------------------- /changelogs

  datatype ChangeLogQuery = ChangeLogQuery(
    machineId: Option<string>,
    fromTime: Option<string>,
    toTime: Option<string>,
    limit: JsNumber)

  /** `{Status: true, Result}`. */
  datatype ChangeLogBody = ChangeLogBody(status: bool, result: seq<ChangeLogEntry>)

  const DEFAULT_LIMIT := 10
  const MACHINE_ID_REQUIRED := "machine_id is required"

  /** `Number(limit) || 10`: NaN and 0 are falsy. */
  function EffectiveLimit(limit: JsNumber): (k: int)
    ensures k != 0
    ensures limit.Num? && limit.n != 0 ==> k == limit.n
    ensures limit == NaN || limit == Num(0) ==> k == DEFAULT_LIMIT
  {
    if limit.Num? && limit.n != 0 then limit.n else DEFAULT_LIMIT
  }

  /** `s.slice(0, end)`: a negative end counts back from the end of `s`. */
  function SliceTo<T>(s: seq<T>, end: int): (r: seq<T>)
    ensures 0 <= end ==> r == s[..if end < |s| then end else |s|]
    ensures end < 0 ==> r == s[..if |s| + end < 0 then 0 else |s| + end]
  {
    var stop := if end < 0 then (if |s| + end < 0 then 0 else |s| + end)
                else (if end < |s| then end else |s|);
    s[..stop]
  }

  /** `allResults.filter(entry => entry.machine_id === machineId)`. */
  function EntriesOfMachine(all: seq<ChangeLogEntry>, machineId: string): (r: seq<ChangeLogEntry>)
    ensures |r| <= |all|
    ensures forall e :: e in r ==> e in all && e.machineId == machineId
  {
    if all == [] then []
    else
      var rest := EntriesOfMachine(all[..|all| - 1], machineId);
      var last := all[|all| - 1];
      if last.machineId == machineId then rest + [last] else rest
  }

  /** The filter keeps exactly the entries of the machine. */
  lemma {:induction false} EntriesOfMachineComplete(all: seq<ChangeLogEntry>, machineId: string, e: ChangeLogEntry)
    ensures e in EntriesOfMachine(all, machineId) <==> e in all && e.machineId == machineId
  {
    if all != [] {
      EntriesOfMachineComplete(all[..|all| - 1], machineId, e);
      assert all == all[..|all| - 1] + [all[|all| - 1]];
    }
  }

  /** The fixture positions of the machine's entries, in ascending order. */
  function MatchIndices(all: seq<ChangeLogEntry>, machineId: string): (idx: seq<nat>)
    ensures forall i :: 0 <= i < |idx| ==> idx[i] < |all|
  {
    if all == [] then []
    else
      var n := |all| - 1;
      MatchIndices(all[..n], machineId) + (if all[n].machineId == machineId then [n] else [])
  }

  lemma {:induction false} MatchIndicesPick(all: seq<ChangeLogEntry>, machineId: string)
    ensures var idx := MatchIndices(all, machineId);
            && |idx| == |EntriesOfMachine(all, machineId)|
            && forall i :: 0 <= i < |idx| ==> all[idx[i]] == EntriesOfMachine(all, machineId)[i]
  {
    if all != [] {
      var n := |all| - 1;
      var prefix := all[..n];
      MatchIndicesPick(prefix, machineId);
      var idx, pidx := MatchIndices(all, machineId), MatchIndices(prefix, machineId);
      var r, rp := EntriesOfMachine(all, machineId), EntriesOfMachine(prefix, machineId);
      forall i | 0 <= i < |idx|
        ensures all[idx[i]] == r[i]
      {
        if i < |pidx| {
          assert idx[i] == pidx[i] && r[i] == rp[i];
          assert prefix[idx[i]] == all[idx[i]];
        }
      }
    }
  }

  lemma {:induction false} MatchIndicesAscending(all: seq<ChangeLogEntry>, machineId: string)
    ensures forall i, k :: 0 <= i < k < |MatchIndices(all, machineId)| ==>
              MatchIndices(all, machineId)[i] < MatchIndices(all, machineId)[k]
  {
    if all != [] {
      var n := |all| - 1;
      MatchIndicesAscending(all[..n], machineId);
      var pidx := MatchIndices(all[..n], machineId);
      var idx := MatchIndices(all, machineId);
      assert idx == pidx + (if all[n].machineId == machineId then [n] else []);
      forall i, k | 0 <= i < k < |idx|
        ensures idx[i] < idx[k]
      {
        assert idx[i] == pidx[i] && pidx[i] < n;
        if k < |pidx| {
          assert idx[k] == pidx[k] && pidx[i] < pidx[k];
        } else {
          assert idx[k] == n;
        }
      }
    }
  }

  /** A position is listed exactly when its entry is of the machine. */
  lemma {:induction false} MatchIndicesExactly(all: seq<ChangeLogEntry>, machineId: string, j: nat)
    ensures j in MatchIndices(all, machineId) <==> j < |all| && all[j].machineId == machineId
  {
    if all != [] {
      var n := |all| - 1;
      MatchIndicesExactly(all[..n], machineId, j);
      if j < n {
        assert all[..n][j] == all[j];
      }
    }
  }

  /** The filter keeps fixture order and skips no match: the i-th result is
      taken from fixture index idx[i], the indices ascend, and every
      position holding an entry of the machine is among them. */
  lemma EntriesOfMachineInOrder(all: seq<ChangeLogEntry>, machineId: string)
    returns (idx: seq<nat>)
    ensures |idx| == |EntriesOfMachine(all, machineId)|
    ensures forall i :: 0 <= i < |idx| ==> idx[i] < |all| && all[idx[i]] == EntriesOfMachine(all, machineId)[i]
    ensures forall i, j :: 0 <= i < j < |idx| ==> idx[i] < idx[j]
    ensures forall j :: 0 <= j < |all| && all[j].machineId == machineId ==> j in idx
  {
    idx := MatchIndices(all, machineId);
    MatchIndicesPick(all, machineId);
    MatchIndicesAscending(all, machineId);
    forall j | 0 <= j < |all| && all[j].machineId == machineId
      ensures j in idx
    {
      MatchIndicesExactly(all, machineId, j);
    }
  }

  function GetChangeLogs(q: ChangeLogQuery, fixture: seq<ChangeLogEntry>): (r: Response<ChangeLogBody>)
    ensures !Truthy(q.machineId) <==> r == Error(400, MACHINE_ID_REQUIRED)
    ensures r.Ok? ==> r.body.status
  {
    if !Truthy(q.machineId) then Error(400, MACHINE_ID_REQUIRED)
    else Ok(ChangeLogBody(true, SliceTo(EntriesOfMachine(fixture, q.machineId.value), EffectiveLimit(q.limit))))
  }

  /** With a positive (or defaulted) limit the result is the first `limit`
      entries of the machine, in fixture order, or all of them when fewer. */
  lemma ChangeLogsArePrefix(q: ChangeLogQuery, fixture: seq<ChangeLogEntry>)
    requires Truthy(q.machineId)
    requires EffectiveLimit(q.limit) > 0
    ensures var matching := EntriesOfMachine(fixture, q.machineId.value);
            var k := EffectiveLimit(q.limit);
            var r := GetChangeLogs(q, fixture);
            && r.Ok?
            && |r.body.result| == (if k < |matching| then k else |matching|)
            && r.body.result == matching[..|r.body.result|]
            && forall e :: e in r.body.result ==> e in fixture && e.machineId == q.machineId.value
  {
    var matching := EntriesOfMachine(fixture, q.machineId.value);
    var r := GetChangeLogs(q, fixture);
    forall e | e in r.body.result
      ensures e in fixture && e.machineId == q.machineId.value
    {
      assert e in matching;
    }
  }

  /** A negative limit keeps all matching entries but the last |limit|
      (the JavaScript `slice` convention). */
  lemma ChangeLogsNegativeLimit(q: ChangeLogQuery, fixture: seq<ChangeLogEntry>)
    requires Truthy(q.machineId) && q.limit.Num? && q.limit.n < 0
    ensures var matching := EntriesOfMachine(fixture, q.machineId.value);
            var r := GetChangeLogs(q, fixture);
            && r.Ok?
            && |r.body.result| == (if |matching| + q.limit.n < 0 then 0 else |matching| + q.limit.n)
            && r.body.result == matching[..|r.body.result|]
  {
  }

  /** `from_time` and `to_time` do not influence the result. */
  lemma ChangeLogsIgnoreWindow(q: ChangeLogQuery, fixture: seq<ChangeLogEntry>, from: Option<string>, to: Option<string>)
    ensures GetChangeLogs(q.(fromTime := from, toTime := to), fixture) == GetChangeLogs(q, fixture)
  {
  }

  // ---------------------------------------------------------------- /predictions

  datatype PredictionQuery = PredictionQuery(
    machineId: Option<string>,
    fromTime: Option<string>,
    toTime: Option<string>)

  /** `{Status: true, cycles}`: the filtered cycles sit under `cycles`. */
  datatype PredictionsBody = PredictionsBody(status: bool, cycles: Cycles)

  const MISSING_PREDICTION_PARAMS := "Missing required query params"

  function NotFoundMessage(machineId: string): string
  {
    "Predictions for this machine id: " + machineId + " not found"
  }

  /** `predictionJson.Result.find(item => item.machine_id === machineId)`. */
  function FindMachine(records: seq<PredictionData>, machineId: string): (r: Option<PredictionData>)
    ensures r.None? <==> forall i :: 0 <= i < |records| ==> records[i].machineId != machineId
    ensures r.Some? ==> exists i :: 0 <= i < |records| && records[i] == r.value
                          && records[i].machineId == machineId
                          && forall j :: 0 <= j < i ==> records[j].machineId != machineId
  {
    if records == [] then None
    else if records[0].machineId == machineId then Some(records[0])
    else
      var r := FindMachine(records[1..], machineId);
      assert forall i :: 1 <= i < |records| ==> records[i] == records[1..][i - 1];
      r
  }

  /** `new Date(epoch * 1000)` lies in `[from, to]`; a date that does not
      parse is NaN, and every comparison with NaN is false. */
  predicate InWindow(epoch: nat, from: Option<int>, to: Option<int>)
  {
    from.Some? && to.Some? && from.value <= epoch * 1000 <= to.value
  }

  /** The cycles the filtering loop copies into `filteredCycles`. */
  function KeptCycles(cs: seq<(nat, CycleData)>, from: Option<int>, to: Option<int>): (r: seq<(nat, CycleData)>)
    ensures forall p :: p in r ==> p in cs && InWindow(p.0, from, to)
    ensures KeysAscending(cs) ==> KeysAscending(r)
  {
    if cs == [] then []
    else
      var rest := KeptCycles(cs[..|cs| - 1], from, to);
      var last := cs[|cs| - 1];
      if InWindow(last.0, from, to) then
        assert forall p :: p in rest ==> p in cs[..|cs| - 1];
        rest + [last]
      else rest
  }

  /** A cycle is kept exactly when its epoch, in milliseconds, lies in the
      inclusive window; a kept cycle keeps its key and its value. */
  lemma {:induction false} KeptCyclesExactly(cs: seq<(nat, CycleData)>, from: Option<int>, to: Option<int>, p: (nat, CycleData))
    ensures p in KeptCycles(cs, from, to) <==> p in cs && InWindow(p.0, from, to)
  {
    if cs != [] {
      KeptCyclesExactly(cs[..|cs| - 1], from, to, p);
      assert cs == cs[..|cs| - 1] + [cs[|cs| - 1]];
    }
  }

  /** The reply `/predictions` gives, as a function of the query. */
  function PredictionReply(q: PredictionQuery, fixture: seq<PredictionData>, parseDate: string -> Option<int>): (r: Response<PredictionsBody>)
    ensures (r == Error(400, MISSING_PREDICTION_PARAMS)) <==>
              !(Truthy(q.machineId) && Truthy(q.fromTime) && Truthy(q.toTime))
    ensures Truthy(q.machineId) && Truthy(q.fromTime) && Truthy(q.toTime) ==>
              ((r == Error(400, NotFoundMessage(q.machineId.value))) <==>
                 forall i :: 0 <= i < |fixture| ==> fixture[i].machineId != q.machineId.value)
    ensures r.Ok? ==> r.body.status
                      && forall p :: p in r.body.cycles ==>
                           InWindow(p.0, parseDate(q.fromTime.value), parseDate(q.toTime.value))
                           && exists rec :: rec in fixture && rec.machineId == q.machineId.value && p in rec.cycles
  {
    if !(Truthy(q.machineId) && Truthy(q.fromTime) && Truthy(q.toTime)) then
      Error(400, MISSING_PREDICTION_PARAMS)
    else
      match FindMachine(fixture, q.machineId.value)
      case None => Error(400, NotFoundMessage(q.machineId.value))
      case Some(rec) =>
        Ok(PredictionsBody(true, KeptCycles(rec.cycles, parseDate(q.fromTime.value), parseDate(q.toTime.value))))
  }

  /** `getPredictionData`: validation, machine lookup, then the loop that
      copies the cycles of the window into a fresh dictionary. */
  method GetPredictionData(q: PredictionQuery, fixture: seq<PredictionData>, parseDate: string -> Option<int>)
    returns (r: Response<PredictionsBody>)
    ensures r == PredictionReply(q, fixture, parseDate)
  {
    if !Truthy(q.machineId) || !Truthy(q.fromTime) || !Truthy(q.toTime) {
      return Error(400, MISSING_PREDICTION_PARAMS);
    }
    var found := FindMachine(fixture, q.machineId.value);
    if found.None? {
      return Error(400, NotFoundMessage(q.machineId.value));
    }
    var cycles := found.value.cycles;
    var from := parseDate(q.fromTime.value);
    var to := parseDate(q.toTime.value);
    var filtered: seq<(nat, CycleData)> := [];
    for i := 0 to |cycles|
      invariant filtered == KeptCycles(cycles[..i], from, to)
    {
      assert cycles[..i + 1][..i] == cycles[..i];
      if InWindow(cycles[i].0, from, to) {
        filtered := filtered + [cycles[i]];
      }
    }
    assert cycles[..|cycles|] == cycles;
    return Ok(PredictionsBody(true, filtered));
  }

  // ---------------------------------------------------------------- /cycles

  datatype CycleDataQuery = CycleDataQuery(
    machineId: Option<string>,
    cycleLogId: Option<string>,
    signal: Option<string>,
    anomaly: Option<string>)

  /** One entry of `cycleData.json`: `{}` or a per-signal trace mapping each
      time-offset string to a value, in entry order. */
  datatype TraceObject = EmptyObject | Trace(cycleData: map<string, seq<(string, int)>>)

  /** `cycleData.json`: machine id -> colour name -> trace. */
  datatype CycleFixture = CycleFixture(machines: map<string, map<string, TraceObject>>)

  /** `{Status: true, Result: {data: {[cycle_log_id]: trace}}}`. */
  datatype CycleDataBody = CycleDataBody(status: bool, data: map<string, TraceObject>)

  const MISSING_CYCLE_PARAMS := "Missing required query parameters"
  const LOAD_FAILED := "Failed to load timeseries data"

  /** `AnomalyType[anomaly] || "green"`. */
  function AnomalyColour(anomaly: Option<string>): (c: string)
    ensures anomaly == Some("true") ==> c == "red"
    ensures anomaly == Some("false") ==> c == "green"
    ensures anomaly == Some("null") ==> c == "black"
    ensures anomaly !in {Some("true"), Some("false"), Some("null")} ==> c == "green"
  {
    match anomaly
    case Some("true") => "red"
    case Some("false") => "green"
    case Some("null") => "black"
    case _ => "green"
  }

  function GetCycleData(q: CycleDataQuery, fixture: CycleFixture): (r: Response<CycleDataBody>)
    ensures (r == Error(400, MISSING_CYCLE_PARAMS)) <==>
              !(Truthy(q.machineId) && Truthy(q.cycleLogId) && Truthy(q.signal))
    ensures Truthy(q.machineId) && Truthy(q.cycleLogId) && Truthy(q.signal) ==>
              (q.machineId.value !in fixture.machines <==> r == Error(500, LOAD_FAILED))
    ensures r.Ok? ==>
              var traces := fixture.machines[q.machineId.value];
              var colour := AnomalyColour(q.anomaly);
              && r.body.status
              && r.body.data.Keys == {q.cycleLogId.value}
              && r.body.data[q.cycleLogId.value] == (if colour in traces then traces[colour] else EmptyObject)
  {
    if !(Truthy(q.machineId) && Truthy(q.cycleLogId) && Truthy(q.signal)) then
      Error(400, MISSING_CYCLE_PARAMS)
    else if q.machineId.value !in fixture.machines then
      // reading a property of `undefined` throws; the handler's catch answers 500
      Error(500, LOAD_FAILED)
    else
      var traces := fixture.machines[q.machineId.value];
      var colour := AnomalyColour(q.anomaly);
      Ok(CycleDataBody(true, map[q.cycleLogId.value := if colour in traces then traces[colour] else EmptyObject]))
  }

  /** The `anomaly` parameter is optional: leaving it out selects the green
      traces, exactly as `"false"` does. */
  lemma AnomalyOptional(q: CycleDataQuery, fixture: CycleFixture)
    ensures GetCycleData(q.(anomaly := None), fixture) == GetCycleData(q.(anomaly := Some("false")), fixture)
  {
  }
}
