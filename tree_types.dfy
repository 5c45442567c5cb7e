/** The topology records: the machine map of a production line, each node
    naming its upstream stations, and the two membership lists that decide
    a node's category. */
module TreeTypes {

  datatype MachineNode = MachineNode(
    id: int,
    name: string,
    stationNumber: string,
    machineId: int,
    inputStations: seq<int>)

  datatype TreeVisualData = TreeVisualData(
    bypassList: seq<int>,
    notAllowedList: seq<int>,
    prodMachineMap: seq<MachineNode>)

  /** `NODE_COLOR`: the category of a node. */
  datatype NodeColor = Red | Blue | White
  {
    /** The enum's string value. */
    function Name(): (s: string)
      ensures this.Red? <==> s == "red"
      ensures this.Blue? <==> s == "blue"
      ensures this.White? <==> s == "white"
    {
      match this
      case Red => "red"
      case Blue => "blue"
      case White => "white"
    }
  }

  /** The node record the edit dialog works on (`Node` in the types). */
  datatype Node = Node(name: string, stationNumber: string, machineId: int, color: string)
}
