/** The `tree` slice of the store: whether the edit-node dialog is open and
    which node it edits. Each reducer assigns one field of the state draft
    in place. */
module TreeSlice {
  import opened Common
  import opened TreeTypes

  /** The actions the slice exports, with their payloads. */
  datatype TreeAction =
    | ToggleEditNodeModal(open: bool)
    | UpdateSelectNode(node: Node)

  /** A value copy of the slice's state. */
  datatype TreeSnapshot = TreeSnapshot(openNodeModal: bool, selectedNode: Option<Node>)

  /** The state the store starts from. */
  const INITIAL: TreeSnapshot := TreeSnapshot(false, None)

  /** The reducer as a function on snapshots. */
  function Reduce(s: TreeSnapshot, a: TreeAction): (t: TreeSnapshot)
    ensures a.ToggleEditNodeModal? ==> t == s.(openNodeModal := a.open)
    ensures a.UpdateSelectNode? ==> t == s.(selectedNode := Some(a.node))
  {
    match a
    case ToggleEditNodeModal(b) => s.(openNodeModal := b)
    case UpdateSelectNode(n) => s.(selectedNode := Some(n))
  }

  /** Both transitions are idempotent. */
  lemma ReduceIdempotent(s: TreeSnapshot, a: TreeAction)
    ensures Reduce(Reduce(s, a), a) == Reduce(s, a)
  {
  }

  /** A node click dispatches `updateSelectNode` and then
      `toggleEditNodeModal(true)`; the two touch different fields, so the
      order does not matter. */
  lemma SelectThenOpenCommute(s: TreeSnapshot, n: Node, b: bool)
    ensures Reduce(Reduce(s, UpdateSelectNode(n)), ToggleEditNodeModal(b)) ==
            Reduce(Reduce(s, ToggleEditNodeModal(b)), UpdateSelectNode(n))
  {
  }

  /** The store's `tree` state, updated in place by its reducers. */
  class TreeState {
    var openNodeModal: bool
    var selectedNode: Option<Node>

    /** The current state as a value. */
    function Snapshot(): TreeSnapshot
      reads this
    {
      TreeSnapshot(openNodeModal, selectedNode)
    }

    /** `initialState`: dialog closed, no node selected. */
    constructor ()
      ensures Snapshot() == INITIAL
      ensures !openNodeModal && selectedNode == None
    {
      openNodeModal := false;
      selectedNode := None;
    }

    /** `toggleEditNodeModal(b)`: stores `b` in `openNodeModal`; the selected
        node is kept. */
    method ToggleEditNodeModal(b: bool)
      modifies this
      ensures openNodeModal == b
      ensures selectedNode == old(selectedNode)
      ensures Snapshot() == Reduce(old(Snapshot()), TreeAction.ToggleEditNodeModal(b))
    {
      openNodeModal := b;
    }

    /** `updateSelectNode(n)`: stores `n` as the selected node; the dialog
        flag is kept. */
    method UpdateSelectNode(n: Node)
      modifies this
      ensures selectedNode == Some(n)
      ensures openNodeModal == old(openNodeModal)
      ensures Snapshot() == Reduce(old(Snapshot()), TreeAction.UpdateSelectNode(n))
    {
      selectedNode := Some(n);
    }

    /** The slice's reducer: routes an action to the case reducer that
        handles it. */
    method Dispatch(a: TreeAction)
      modifies this
      ensures Snapshot() == Reduce(old(Snapshot()), a)
    {
      match a
      case ToggleEditNodeModal(b) => ToggleEditNodeModal(b);
      case UpdateSelectNode(n) => UpdateSelectNode(n);
    }
  }
}
