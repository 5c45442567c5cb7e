/** The `main` slice of the store: whether the side drawer is open, the
    time-series trace the drawer plots, and the page-wide loading flag.
    Each reducer assigns one field of the state draft in place. */
module MainSlice {
  import opened Common
  import opened TimeseriesGraph

  /** The actions the slice exports, with their payloads. */
  datatype MainAction =
    | ToggleDrawer(open: bool)
    | SetTimeSeriesData(data: FormattedTimeSeries)
    | SetLoading(loading: bool)

  /** A value copy of the slice's state. */
  datatype MainSnapshot = MainSnapshot(
    openDrawer: bool,
    timeSeriesData: Option<FormattedTimeSeries>,
    loading: bool)

  /** The state the store starts from. */
  const INITIAL: MainSnapshot := MainSnapshot(false, None, false)

  /** The reducer as a function on snapshots: the reference the in-place
      reducers are proved against. */
  function Reduce(s: MainSnapshot, a: MainAction): (t: MainSnapshot)
    ensures a.ToggleDrawer? ==> t == s.(openDrawer := a.open)
    ensures a.SetTimeSeriesData? ==> t == s.(timeSeriesData := Some(a.data))
    ensures a.SetLoading? ==> t == s.(loading := a.loading)
  {
    match a
    case ToggleDrawer(b) => s.(openDrawer := b)
    case SetTimeSeriesData(d) => s.(timeSeriesData := Some(d))
    case SetLoading(b) => s.(loading := b)
  }

  /** The state after a run of dispatches, oldest first. */
  function ReduceAll(s: MainSnapshot, actions: seq<MainAction>): MainSnapshot
  {
    if actions == [] then s
    else Reduce(ReduceAll(s, actions[..|actions| - 1]), actions[|actions| - 1])
  }

  /** The payload of the most recent `toggleDrawer`, if there is one. */
  function LastDrawer(actions: seq<MainAction>): Option<bool>
  {
    if actions == [] then None
    else if actions[|actions| - 1].ToggleDrawer? then Some(actions[|actions| - 1].open)
    else LastDrawer(actions[..|actions| - 1])
  }

  /** The payload of the most recent `setTimeSeriesData`, if there is one. */
  function LastTimeSeries(actions: seq<MainAction>): Option<FormattedTimeSeries>
  {
    if actions == [] then None
    else if actions[|actions| - 1].SetTimeSeriesData? then Some(actions[|actions| - 1].data)
    else LastTimeSeries(actions[..|actions| - 1])
  }

  /** The payload of the most recent `setLoading`, if there is one. */
  function LastLoading(actions: seq<MainAction>): Option<bool>
  {
    if actions == [] then None
    else if actions[|actions| - 1].SetLoading? then Some(actions[|actions| - 1].loading)
    else LastLoading(actions[..|actions| - 1])
  }

  /** Every field holds the payload of the last action that sets it, or its
      start value when no action does: the three fields are independent. */
  lemma {:induction false} ReduceAllLastWins(s: MainSnapshot, actions: seq<MainAction>)
    ensures ReduceAll(s, actions).openDrawer ==
              (if LastDrawer(actions).Some? then LastDrawer(actions).value else s.openDrawer)
    ensures ReduceAll(s, actions).timeSeriesData ==
              (if LastTimeSeries(actions).Some? then LastTimeSeries(actions) else s.timeSeriesData)
    ensures ReduceAll(s, actions).loading ==
              (if LastLoading(actions).Some? then LastLoading(actions).value else s.loading)
  {
    if actions != [] {
      ReduceAllLastWins(s, actions[..|actions| - 1]);
    }
  }

  /** Dispatching the same action twice leaves the state of one dispatch. */
  lemma ReduceIdempotent(s: MainSnapshot, a: MainAction)
    ensures Reduce(Reduce(s, a), a) == Reduce(s, a)
  {
  }

  /** The store's `main` state, updated in place by its reducers. */
  class MainState {
    var openDrawer: bool
    var timeSeriesData: Option<FormattedTimeSeries>
    var loading: bool

    /** The current state as a value. */
    function Snapshot(): MainSnapshot
      reads this
    {
      MainSnapshot(openDrawer, timeSeriesData, loading)
    }

    /** `initialState`: drawer closed, no trace, not loading. */
    constructor ()
      ensures Snapshot() == INITIAL
      ensures !openDrawer && timeSeriesData == None && !loading
    {
      openDrawer := false;
      timeSeriesData := None;
      loading := false;
    }

    /** `toggleDrawer(b)`: stores `b` in `openDrawer`; nothing else changes. */
    method ToggleDrawer(b: bool)
      modifies this
      ensures openDrawer == b
      ensures timeSeriesData == old(timeSeriesData) && loading == old(loading)
      ensures Snapshot() == Reduce(old(Snapshot()), MainAction.ToggleDrawer(b))
    {
      openDrawer := b;
    }

    /** `setTimeSeriesData(d)`: stores `d` as the trace; nothing else changes. */
    method SetTimeSeriesData(d: FormattedTimeSeries)
      modifies this
      ensures timeSeriesData == Some(d)
      ensures openDrawer == old(openDrawer) && loading == old(loading)
      ensures Snapshot() == Reduce(old(Snapshot()), MainAction.SetTimeSeriesData(d))
    {
      timeSeriesData := Some(d);
    }

    /** `setLoading(b)`: stores `b` in `loading`; nothing else changes. */
    method SetLoading(b: bool)
      modifies this
      ensures loading == b
      ensures openDrawer == old(openDrawer) && timeSeriesData == old(timeSeriesData)
      ensures Snapshot() == Reduce(old(Snapshot()), MainAction.SetLoading(b))
    {
      loading := b;
    }

    /** The slice's reducer: routes an action to the case reducer that
        handles it. */
    method Dispatch(a: MainAction)
      modifies this
      ensures Snapshot() == Reduce(old(Snapshot()), a)
    {
      match a
      case ToggleDrawer(b) => ToggleDrawer(b);
      case SetTimeSeriesData(d) => SetTimeSeriesData(d);
      case SetLoading(b) => SetLoading(b);
    }

    /** Dispatching a run of actions in order. */
    method DispatchAll(actions: seq<MainAction>)
      modifies this
      ensures Snapshot() == ReduceAll(old(Snapshot()), actions)
    {
      for i := 0 to |actions|
        invariant Snapshot() == ReduceAll(old(Snapshot()), actions[..i])
      {
        assert actions[..i + 1][..i] == actions[..i];
        Dispatch(actions[i]);
      }
      assert actions[..|actions|] == actions;
    }
  }
}
