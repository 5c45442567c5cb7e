/** The topology page: the colour rules of a node, the derivation of the
    flow graph's nodes and edges from the machine map, and the state update
    the edit dialog's save applies. The layered layout is a foreign library;
    its result enters as the centre of each node. */
module TreePage {
  import opened Common
  import opened TreeTypes

  const NODE_WIDTH := 450
  const NODE_HEIGHT := 50

  const NODE_RED := "#dc3545"
  const NODE_BLUE := "#007bff"
  const NODE_WHITE := "#ffffff"
  const FONT_WHITE := "#ffffff"
  const FONT_BLACK := "#4b4b4b"

  // ------------------------------------------------------ colour rules

  /** `getBgColorName`: not-allowed wins over bypass, the rest is white. */
  function GetBgColorName(machineId: int, notAllowed: seq<int>, bypass: seq<int>): (c: NodeColor)
    ensures c == Red <==> machineId in notAllowed
    ensures c == Blue <==> machineId !in notAllowed && machineId in bypass
    ensures c == White <==> machineId !in notAllowed && machineId !in bypass
  {
    if machineId in notAllowed then Red
    else if machineId in bypass then Blue
    else White
  }

  function Background(c: NodeColor): string
  {
    match c
    case Red => NODE_RED
    case Blue => NODE_BLUE
    case White => NODE_WHITE
  }

  /** `getBgColor` agrees with the category `getBgColorName` gives. */
  function GetBgColor(machineId: int, notAllowed: seq<int>, bypass: seq<int>): (s: string)
    ensures s == Background(GetBgColorName(machineId, notAllowed, bypass))
  {
    if machineId in notAllowed then NODE_RED
    else if machineId in bypass then NODE_BLUE
    else NODE_WHITE
  }

  /** The font is white exactly on coloured (red or blue) nodes. */
  function GetFontColor(machineId: int, notAllowed: seq<int>, bypass: seq<int>): (s: string)
    ensures s == FONT_WHITE <==> machineId in notAllowed || machineId in bypass
    ensures s == FONT_BLACK <==> GetBgColorName(machineId, notAllowed, bypass) == White
  {
    if machineId in notAllowed then FONT_WHITE
    else if machineId in bypass then FONT_WHITE
    else FONT_BLACK
  }

  // ------------------------------------------------------ getFlowElements

  datatype Point = Point(x: int, y: int)

  /** A positioned node of the flow graph. */
  datatype FlowNode = FlowNode(
    id: string,
    position: Point,
    name: string,
    stationNumber: string,
    machineId: int,
    color: string,
    background: string,
    fontColor: string)

  /** An edge of the flow graph, kept as its (source, target) pair; the
      record the page builds is `{id, source, target, type}` with the
      strings below. */
  datatype Edge = Edge(from: int, to: int)
  {
    function Id(): string { IntToString(from) + "->" + IntToString(to) }
    function Source(): string { IntToString(from) }
    function Target(): string { IntToString(to) }
    function Kind(): string { "step" }
  }

  datatype FlowElements = FlowElements(nodes: seq<FlowNode>, edges: seq<Edge>)

  function EdgeOf(source: int, target: int): Edge
  {
    Edge(source, target)
  }

  /** The edges pushed for one node: one per input station, in order. */
  function StationEdges(sources: seq<int>, target: int): (r: seq<Edge>)
    ensures |r| == |sources|
    ensures forall k :: 0 <= k < |sources| ==> r[k] == EdgeOf(sources[k], target)
  {
    if sources == [] then []
    else StationEdges(sources[..|sources| - 1], target) + [EdgeOf(sources[|sources| - 1], target)]
  }

  /** The edges the nested loop pushes: node order, then input order. */
  function EdgesOf(m: seq<MachineNode>): seq<Edge>
  {
    if m == [] then []
    else EdgesOf(m[..|m| - 1]) + StationEdges(m[|m| - 1].inputStations, m[|m| - 1].id)
  }

  /** Σ |input_stations| over the map. */
  function InputCount(m: seq<MachineNode>): nat
  {
    if m == [] then 0 else InputCount(m[..|m| - 1]) + |m[|m| - 1].inputStations|
  }

  /** Edges are not deduplicated: there is one per input-station entry. */
  lemma {:induction false} EdgeCount(m: seq<MachineNode>)
    ensures |EdgesOf(m)| == InputCount(m)
  {
    if m != [] {
      EdgeCount(m[..|m| - 1]);
    }
  }

  /** An edge is derived exactly for each (input station, node) pair. */
  lemma {:induction false} EdgesExactly(m: seq<MachineNode>, e: Edge)
    ensures e in EdgesOf(m) <==>
              exists i, k :: 0 <= i < |m| && 0 <= k < |m[i].inputStations| && e == EdgeOf(m[i].inputStations[k], m[i].id)
  {
    if m != [] {
      var n := |m| - 1;
      EdgesExactly(m[..n], e);
      var own := StationEdges(m[n].inputStations, m[n].id);
      if e in own {
        var k :| 0 <= k < |own| && own[k] == e;
        assert e == EdgeOf(m[n].inputStations[k], m[n].id);
      }
      if exists i, k :: 0 <= i < |m| && 0 <= k < |m[i].inputStations| && e == EdgeOf(m[i].inputStations[k], m[i].id) {
        var i, k :| 0 <= i < |m| && 0 <= k < |m[i].inputStations| && e == EdgeOf(m[i].inputStations[k], m[i].id);
        if i < n {
          assert m[..n][i] == m[i];
        } else {
          assert own[k] == e;
        }
      }
    }
  }

  /** In `x->y` with no `>` in `x`, the first `>` is at index |x| + 1. */
  lemma ArrowAt(x: string, y: string)
    requires forall k :: 0 <= k < |x| ==> x[k] == '-' || IsDigit(x[k])
    ensures (x + "->" + y)[|x| + 1] == '>'
    ensures forall k :: 0 <= k <= |x| ==> (x + "->" + y)[k] != '>'
  {
  }

  /** Two edges have the same id exactly when they join the same pair, so
      the only id collisions are repeated input-station entries. */
  lemma EdgeIdInjective(e: Edge, f: Edge)
    ensures e.Id() == f.Id() <==> e == f
  {
    if e.Id() == f.Id() {
      var x, y, x', y' := IntToString(e.from), IntToString(e.to), IntToString(f.from), IntToString(f.to);
      assert e.Id() == x + "->" + y && f.Id() == x' + "->" + y';
      ArrowAt(x, y);
      ArrowAt(x', y');
      assert |x| == |x'|;
      assert x == (x + "->" + y)[..|x|];
      assert x' == (x' + "->" + y')[..|x'|];
      assert y == (x + "->" + y)[|x| + 2..];
      assert y' == (x' + "->" + y')[|x'| + 2..];
      IntToStringInjective(e.from, f.from);
      IntToStringInjective(e.to, f.to);
    }
  }

  /** The node list of the flow graph: one per machine-map entry, in
      order, positioned at its layout centre less half the node size. */
  function FlowNodes(data: TreeVisualData, centre: int -> Point): (r: seq<FlowNode>)
    ensures |r| == |data.prodMachineMap|
    ensures forall i :: 0 <= i < |r| ==>
              var node := data.prodMachineMap[i];
              && r[i].id == IntToString(node.id)
              && r[i].position == Point(centre(node.id).x - NODE_WIDTH / 2, centre(node.id).y - NODE_HEIGHT / 2)
              && r[i].name == node.name
              && r[i].stationNumber == node.stationNumber
              && r[i].machineId == node.machineId
              && r[i].color == GetBgColorName(node.machineId, data.notAllowedList, data.bypassList).Name()
              && r[i].background == GetBgColor(node.machineId, data.notAllowedList, data.bypassList)
              && r[i].fontColor == GetFontColor(node.machineId, data.notAllowedList, data.bypassList)
  {
    var m := data.prodMachineMap;
    seq(|m|, i requires 0 <= i < |m| =>
      FlowNode(IntToString(m[i].id),
               Point(centre(m[i].id).x - NODE_WIDTH / 2, centre(m[i].id).y - NODE_HEIGHT / 2),
               m[i].name, m[i].stationNumber, m[i].machineId,
               GetBgColorName(m[i].machineId, data.notAllowedList, data.bypassList).Name(),
               GetBgColor(m[i].machineId, data.notAllowedList, data.bypassList),
               GetFontColor(m[i].machineId, data.notAllowedList, data.bypassList)))
  }

  /** Distinct node ids give distinct flow-node ids (they key the layout). */
  lemma FlowNodeIdsDistinct(data: TreeVisualData, centre: int -> Point, i: nat, j: nat)
    requires i < |data.prodMachineMap| && j < |data.prodMachineMap|
    requires data.prodMachineMap[i].id != data.prodMachineMap[j].id
    ensures FlowNodes(data, centre)[i].id != FlowNodes(data, centre)[j].id
  {
    if FlowNodes(data, centre)[i].id == FlowNodes(data, centre)[j].id {
      IntToStringInjective(data.prodMachineMap[i].id, data.prodMachineMap[j].id);
    }
  }

  /** `getFlowElements`: nothing without data; otherwise the positioned
      nodes and the edges built by the nested loop. */
  method GetFlowElements(data: Option<TreeVisualData>, centre: int -> Point) returns (r: Option<FlowElements>)
    ensures data.None? <==> r.None?
    ensures data.Some? ==> r.value.nodes == FlowNodes(data.value, centre)
                           && r.value.edges == EdgesOf(data.value.prodMachineMap)
  {
    if data.None? {
      return None;
    }
    var m := data.value.prodMachineMap;
    var edges: seq<Edge> := [];
    for i := 0 to |m|
      invariant edges == EdgesOf(m[..i])
    {
      var stations := m[i].inputStations;
      var done := edges;
      for j := 0 to |stations|
        invariant edges == done + StationEdges(stations[..j], m[i].id)
      {
        StationEdgesStep(stations, j, m[i].id);
        edges := edges + [EdgeOf(stations[j], m[i].id)];
      }
      assert stations[..|stations|] == stations;
      EdgesOfStep(m, i);
    }
    assert m[..|m|] == m;
    var nodes := FlowNodes(data.value, centre);
    return Some(FlowElements(nodes, edges));
  }

  lemma StationEdgesStep(sources: seq<int>, j: nat, target: int)
    requires j < |sources|
    ensures StationEdges(sources[..j + 1], target) == StationEdges(sources[..j], target) + [EdgeOf(sources[j], target)]
  {
    assert sources[..j + 1][..j] == sources[..j];
  }

  lemma EdgesOfStep(m: seq<MachineNode>, i: nat)
    requires i < |m|
    ensures EdgesOf(m[..i + 1]) == EdgesOf(m[..i]) + StationEdges(m[i].inputStations, m[i].id)
  {
    assert m[..i + 1][..i] == m[..i];
  }

  // ------------------------------------------------------ onModalSave

  /** What the edit dialog saves. `color` is the string the dialog passes;
      the three `NODE_COLOR` values are the ones the update acts on. */
  datatype NodeEdit = NodeEdit(name: string, stationNumber: string, color: string, machineId: int)

  /** `list.filter(id => id !== machineId)`. */
  function RemoveAll(xs: seq<int>, id: int): (r: seq<int>)
    ensures forall x :: x in r <==> x in xs && x != id
    ensures |r| <= |xs|
  {
    if xs == [] then []
    else
      var rest := RemoveAll(xs[..|xs| - 1], id);
      var last := xs[|xs| - 1];
      assert xs == xs[..|xs| - 1] + [last];
      if last == id then rest else rest + [last]
  }

  lemma {:induction false} RemoveAllIdempotent(xs: seq<int>, id: int)
    ensures RemoveAll(RemoveAll(xs, id), id) == RemoveAll(xs, id)
  {
    if xs != [] {
      var n := |xs| - 1;
      RemoveAllIdempotent(xs[..n], id);
      var rest := RemoveAll(xs[..n], id);
      if xs[n] != id {
        var r := rest + [xs[n]];
        assert r[..|r| - 1] == rest;
      }
    }
  }

  /** `bypass_list` and `not_allowed_list` share no id. */
  predicate Exclusive(bypass: seq<int>, notAllowed: seq<int>)
  {
    forall x :: x in bypass ==> x !in notAllowed
  }

  /** The rename of `prod_machine_map.map`: every node of the machine gets
      the new name and station number; the others, the length and the
      order stay as they were. */
  function RenameNodes(m: seq<MachineNode>, e: NodeEdit): (r: seq<MachineNode>)
    ensures |r| == |m|
    ensures forall i :: 0 <= i < |m| ==>
              if m[i].machineId == e.machineId
              then r[i] == m[i].(name := e.name, stationNumber := e.stationNumber)
              else r[i] == m[i]
  {
    seq(|m|, i requires 0 <= i < |m| =>
      if m[i].machineId == e.machineId then m[i].(name := e.name, stationNumber := e.stationNumber) else m[i])
  }

  /** The state the updater of `onModalSave` returns. */
  function Edited(prev: TreeVisualData, e: NodeEdit): (next: TreeVisualData)
    ensures next.prodMachineMap == RenameNodes(prev.prodMachineMap, e)
    ensures e.color == Blue.Name() && e.machineId !in prev.bypassList ==>
              next.bypassList == prev.bypassList + [e.machineId]
              && next.notAllowedList == RemoveAll(prev.notAllowedList, e.machineId)
    ensures e.color == Red.Name() && e.machineId !in prev.notAllowedList ==>
              next.notAllowedList == prev.notAllowedList + [e.machineId]
              && next.bypassList == RemoveAll(prev.bypassList, e.machineId)
    ensures e.color == White.Name() ==>
              next.bypassList == RemoveAll(prev.bypassList, e.machineId)
              && next.notAllowedList == RemoveAll(prev.notAllowedList, e.machineId)
    ensures (e.color == Blue.Name() && e.machineId in prev.bypassList)
            || (e.color == Red.Name() && e.machineId in prev.notAllowedList)
            || e.color !in {Red.Name(), Blue.Name(), White.Name()} ==>
              next.bypassList == prev.bypassList && next.notAllowedList == prev.notAllowedList
  {
    var bypass :=
      if e.color == Blue.Name() && e.machineId !in prev.bypassList then prev.bypassList + [e.machineId]
      else if (e.color == Red.Name() && e.machineId !in prev.notAllowedList) || e.color == White.Name()
      then RemoveAll(prev.bypassList, e.machineId)
      else prev.bypassList;
    var notAllowed :=
      if e.color == Red.Name() && e.machineId !in prev.notAllowedList then prev.notAllowedList + [e.machineId]
      else if (e.color == Blue.Name() && e.machineId !in prev.bypassList) || e.color == White.Name()
      then RemoveAll(prev.notAllowedList, e.machineId)
      else prev.notAllowedList;
    TreeVisualData(bypass, notAllowed, RenameNodes(prev.prodMachineMap, e))
  }

  /** The updater itself: copy both lists, then push and filter per colour. */
  method OnModalSave(prev: TreeVisualData, e: NodeEdit) returns (next: TreeVisualData)
    ensures next == Edited(prev, e)
  {
    var updatedBypassList := prev.bypassList;
    var updatedNotAllowedList := prev.notAllowedList;
    if e.color == Blue.Name() {
      if e.machineId !in prev.bypassList {
        updatedBypassList := updatedBypassList + [e.machineId];
        updatedNotAllowedList := RemoveAll(updatedNotAllowedList, e.machineId);
      }
    } else if e.color == Red.Name() {
      if e.machineId !in prev.notAllowedList {
        updatedNotAllowedList := updatedNotAllowedList + [e.machineId];
        updatedBypassList := RemoveAll(updatedBypassList, e.machineId);
      }
    } else if e.color == White.Name() {
      updatedBypassList := RemoveAll(updatedBypassList, e.machineId);
      updatedNotAllowedList := RemoveAll(updatedNotAllowedList, e.machineId);
    }
    next := TreeVisualData(updatedBypassList, updatedNotAllowedList, RenameNodes(prev.prodMachineMap, e));
  }

  /** An edit keeps the two lists mutually exclusive, and afterwards the
      machine sits in the list its colour names and in no other. */
  lemma EditKeepsExclusive(prev: TreeVisualData, e: NodeEdit)
    requires Exclusive(prev.bypassList, prev.notAllowedList)
    ensures var next := Edited(prev, e);
            && Exclusive(next.bypassList, next.notAllowedList)
            && (e.color == Blue.Name() ==> e.machineId in next.bypassList && e.machineId !in next.notAllowedList)
            && (e.color == Red.Name() ==> e.machineId in next.notAllowedList && e.machineId !in next.bypassList)
            && (e.color == White.Name() ==> e.machineId !in next.notAllowedList && e.machineId !in next.bypassList)
  {
  }

  /** Saving the same edit twice gives the state of saving it once. */
  lemma EditIdempotent(prev: TreeVisualData, e: NodeEdit)
    ensures Edited(Edited(prev, e), e) == Edited(prev, e)
  {
    var once := Edited(prev, e);
    var twice := Edited(once, e);
    RemoveAllIdempotent(prev.bypassList, e.machineId);
    RemoveAllIdempotent(prev.notAllowedList, e.machineId);
    assert twice.prodMachineMap == once.prodMachineMap;
  }
}
