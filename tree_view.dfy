// src/tree/tree.ts (and its compiled copy tree/tree.js): the `fzn-tree`
// element's filtering of empty folders and its drag-and-drop placement
// state, which every nested tree keeps on its root tree. Mouse events become
// their numeric fields, the `allowMove` and `placementValidator` callbacks
// total functions of the node and the placement, and dispatched events an
// appended log.
module TreeView {
  import opened Common

  /** `TreeNode`: an item has no `children` (undefined); a folder has a list, possibly empty. */
  datatype TreeNode =
    | Item(nodeLabel: string, weight: int)
    | Folder(children: seq<TreeNode>, nodeLabel: string, weight: int)

  predicate IsItem(n: TreeNode)
  {
    n.Item?
  }

  /** Some node below `n`, at any depth, is an item: the meaning of `hasNonItemChildren`. */
  predicate ContainsItem(n: TreeNode)
    decreases n
  {
    match n
    case Item(_, _) => false
    case Folder(kids, _, _) => exists i :: 0 <= i < |kids| && (IsItem(kids[i]) || ContainsItem(kids[i]))
  }

  /** The node reached from `n` by following child indices, if the path exists. */
  function NodeAt(n: TreeNode, path: seq<nat>): Option<TreeNode>
    decreases |path|
  {
    if path == [] then Some(n)
    else match n
      case Item(_, _) => None
      case Folder(kids, _, _) => if path[0] < |kids| then NodeAt(kids[path[0]], path[1..]) else None
  }

  /** A proper descendant reached by `path` is an item. */
  predicate ItemBelow(n: TreeNode, path: seq<nat>)
  {
    |path| >= 1 && NodeAt(n, path).Some? && IsItem(NodeAt(n, path).value)
  }

  /** `ContainsItem` holds exactly when some path of length at least one leads to an item. */
  lemma {:induction false} ContainsItemIffPath(n: TreeNode)
    ensures ContainsItem(n) <==> exists path :: ItemBelow(n, path)
    decreases n
  {
    if ContainsItem(n) {
      var kids := n.children;
      var i :| 0 <= i < |kids| && (IsItem(kids[i]) || ContainsItem(kids[i]));
      if IsItem(kids[i]) {
        assert NodeAt(n, [i]) == NodeAt(kids[i], []);
        assert ItemBelow(n, [i]);
      } else {
        ContainsItemIffPath(kids[i]);
        var p :| ItemBelow(kids[i], p);
        assert ([i] + p)[1..] == p;
        assert ItemBelow(n, [i] + p);
      }
    }
    if exists path :: ItemBelow(n, path) {
      var path :| ItemBelow(n, path);
      var kids := n.children;
      var i := path[0];
      var kid := kids[i];
      if |path| == 1 {
        assert NodeAt(n, path) == NodeAt(kid, []);
      } else {
        ContainsItemIffPath(kid);
        assert ItemBelow(kid, path[1..]);
      }
      assert IsItem(kids[i]) || ContainsItem(kids[i]);
    }
  }

  /** An item, and a folder with no children, contain nothing. */
  lemma NoChildrenNoItem(n: TreeNode)
    requires n.Item? || n.children == []
    ensures !ContainsItem(n)
  {
  }

  /** `hasNonItemChildren(node)`: the loop returns at the first child that is, or contains, an item. */
  method HasNonItemChildren(n: TreeNode) returns (r: bool)
    ensures r == ContainsItem(n)
    decreases n
  {
    match n {
      case Item(_, _) =>
        return false;
      case Folder(kids, _, _) =>
        for i := 0 to |kids|
          invariant forall k :: 0 <= k < i ==> !IsItem(kids[k]) && !ContainsItem(kids[k])
        {
          var child := kids[i];
          if child.Item? {
            return true;
          }
          var below := HasNonItemChildren(child);
          if below {
            return true;
          }
        }
        return false;
    }
  }

  /** The filter predicate of `handleFilteredNodesUpdate`. */
  predicate Kept(child: TreeNode, showEmptyNodes: bool)
  {
    IsItem(child) || showEmptyNodes || ContainsItem(child)
  }

  /** `nodeChildren.filter(…)` */
  function KeptChildren(nodes: seq<TreeNode>, showEmptyNodes: bool): (r: seq<TreeNode>)
    ensures |r| <= |nodes|
    ensures forall i :: 0 <= i < |r| ==> r[i] in nodes && Kept(r[i], showEmptyNodes)
    ensures forall i :: 0 <= i < |nodes| && Kept(nodes[i], showEmptyNodes) ==> nodes[i] in r
  {
    if nodes == [] then []
    else
      var rest := KeptChildren(nodes[1..], showEmptyNodes);
      if Kept(nodes[0], showEmptyNodes) then [nodes[0]] + rest else rest
  }

  /** `a` is `b` with some elements left out, the rest in their order. */
  predicate Subsequence<T(==)>(a: seq<T>, b: seq<T>)
    decreases |b|
  {
    if a == [] then true
    else if b == [] then false
    else if a[0] == b[0] then Subsequence(a[1..], b[1..])
    else Subsequence(a, b[1..])
  }

  /** The filtered children keep their order. */
  lemma {:induction false} KeptChildrenOrdered(nodes: seq<TreeNode>, showEmptyNodes: bool)
    ensures Subsequence(KeptChildren(nodes, showEmptyNodes), nodes)
    decreases |nodes|
  {
    if nodes != [] {
      KeptChildrenOrdered(nodes[1..], showEmptyNodes);
      var rest := KeptChildren(nodes[1..], showEmptyNodes);
      if Kept(nodes[0], showEmptyNodes) {
        assert ([nodes[0]] + rest)[1..] == rest;
      } else if rest != [] {
        SubsequenceOfTail(rest, nodes);
      }
    }
  }

  lemma SubsequenceOfTail<T>(a: seq<T>, b: seq<T>)
    requires b != [] && Subsequence(a, b[1..]) && a != [] && a[0] != b[0]
    ensures Subsequence(a, b)
  {
  }

  /** With `showEmptyNodes` every child is shown. */
  lemma {:induction false} ShowAllKeepsAll(nodes: seq<TreeNode>)
    ensures KeptChildren(nodes, true) == nodes
    decreases |nodes|
  {
    if nodes != [] {
      ShowAllKeepsAll(nodes[1..]);
      assert [nodes[0]] + nodes[1..] == nodes;
    }
  }

  datatype Position = Above | Below | Inside

  /** `NodePlacement` */
  datatype NodePlacement = NodePlacement(node: TreeNode, position: Position)

  /** Events the tree dispatches. */
  datatype TreeEvent = NodePlacementEvent(node: TreeNode, placement: NodePlacement)

  /**
   * The position rule of `handleMouseMove`: inside when asked, otherwise
   * below exactly when the pointer, measured from the row's top, is past half
   * the row's height.
   */
  function PlacementPosition(inside: bool, offsetY: int, currentTargetY: int, targetY: int, offsetHeight: int): (p: Position)
    ensures inside <==> p == Inside
    ensures !inside ==> (p == Below <==> 2 * (offsetY - (currentTargetY - targetY)) > offsetHeight)
  {
    if inside then Inside
    else if 2 * (offsetY - (currentTargetY - targetY)) > offsetHeight then Below
    else Above
  }

  class Tree {
    var nodeChildren: seq<TreeNode>
    var showEmptyNodes: bool
    var filteredNodeChildren: seq<TreeNode>
    var rootProp: Tree?
    var allowDragging: bool
    var allowMove: TreeNode -> bool
    var placementValidator: (Option<TreeNode>, NodePlacement) -> bool
    var isDragging: bool
    var lastPlacementState: Option<NodePlacement>
    var lastPlacementProperty: Option<NodePlacement>
    var draggedNodeState: Option<TreeNode>
    /** The `once` mouseup listeners this tree registered on the window, by dragged node. */
    var mouseUpListeners: seq<TreeNode>
    var events: seq<TreeEvent>

    /** `get root()`: the root tree, this one unless `rootProp` is set. */
    function Root(): Tree
      reads this
    {
      if rootProp != null then rootProp else this
    }

    predicate IsRoot()
      reads this
    {
      Root() == this
    }

    /** `get canDrag()` */
    predicate CanDrag()
      reads this, rootProp
    {
      Root().allowDragging
    }

    /** `get draggedNode()` */
    function DraggedNode(): Option<TreeNode>
      reads this, rootProp
    {
      Root().draggedNodeState
    }

    /** `get lastPlacement()`: the stored placement wins over the inherited property. */
    function LastPlacement(): (p: Option<NodePlacement>)
      reads this
      ensures lastPlacementState.Some? ==> p == lastPlacementState
      ensures lastPlacementState.None? ==> p == lastPlacementProperty
    {
      if lastPlacementState.Some? then lastPlacementState else lastPlacementProperty
    }

    constructor ()
      ensures nodeChildren == [] && showEmptyNodes && filteredNodeChildren == []
      ensures rootProp == null && !allowDragging && !isDragging
      ensures lastPlacementState.None? && lastPlacementProperty.None? && draggedNodeState.None?
      ensures mouseUpListeners == [] && events == []
    {
      nodeChildren := [];
      showEmptyNodes := true;
      filteredNodeChildren := [];
      rootProp := null;
      allowDragging := false;
      allowMove := (n: TreeNode) => true;
      placementValidator := (d: Option<TreeNode>, p: NodePlacement) => true;
      isDragging := false;
      lastPlacementState := None;
      lastPlacementProperty := None;
      draggedNodeState := None;
      mouseUpListeners := [];
      events := [];
    }

    /** `handleFilteredNodesUpdate()` */
    method HandleFilteredNodesUpdate()
      modifies this`filteredNodeChildren
      ensures filteredNodeChildren == KeptChildren(nodeChildren, showEmptyNodes)
    {
      filteredNodeChildren := KeptChildren(nodeChildren, showEmptyNodes);
    }

    /** `set nodeChildren(…)`: stores the list and recomputes the filtered list. */
    method SetNodeChildren(nodes: seq<TreeNode>)
      modifies this`nodeChildren, this`filteredNodeChildren
      ensures nodeChildren == nodes
      ensures filteredNodeChildren == KeptChildren(nodes, showEmptyNodes)
    {
      nodeChildren := nodes;
      HandleFilteredNodesUpdate();
    }

    /** `set showEmptyNodes(…)`: stores the flag and recomputes the filtered list. */
    method SetShowEmptyNodes(show: bool)
      modifies this`showEmptyNodes, this`filteredNodeChildren
      ensures showEmptyNodes == show
      ensures filteredNodeChildren == KeptChildren(nodeChildren, show)
    {
      showEmptyNodes := show;
      HandleFilteredNodesUpdate();
    }

    /**
     * `handleMouseMove(child, evt, inside)`: while the root is dragging, the
     * root stores the placement under the pointer if its validator accepts
     * it, and no placement otherwise.
     */
    method HandleMouseMove(child: TreeNode, inside: bool, offsetY: int, currentTargetY: int, targetY: int, offsetHeight: int)
      modifies Root()`lastPlacementState
      ensures var root := Root();
        var placement := NodePlacement(child, PlacementPosition(inside, offsetY, currentTargetY, targetY, offsetHeight));
        root.lastPlacementState ==
          if !old(root.isDragging) then old(root.lastPlacementState)
          else if old(root.placementValidator(root.draggedNodeState, placement)) then Some(placement)
          else None
    {
      var root := Root();
      if !root.isDragging {
        return;
      }
      var placement := NodePlacement(child, PlacementPosition(inside, offsetY, currentTargetY, targetY, offsetHeight));
      root.lastPlacementState := if root.placementValidator(root.draggedNodeState, placement) then Some(placement) else None;
    }

    /**
     * `handleDragStart(node, evt)`: when the root allows dragging and moving
     * the node, the root starts dragging it and a one-time mouseup listener
     * is registered.
     */
    method HandleDragStart(node: TreeNode)
      modifies Root()`isDragging, Root()`draggedNodeState, this`mouseUpListeners
      ensures var root := Root();
        var go := old(root.allowDragging) && old(root.allowMove(node));
        && (go ==> root.isDragging && root.draggedNodeState == Some(node) && mouseUpListeners == old(mouseUpListeners) + [node])
        && (!go ==> root.isDragging == old(root.isDragging) && root.draggedNodeState == old(root.draggedNodeState)
                    && mouseUpListeners == old(mouseUpListeners))
    {
      var root := Root();
      if !root.allowDragging || !root.allowMove(node) {
        return;
      }
      root.isDragging := true;
      root.draggedNodeState := Some(node);
      mouseUpListeners := mouseUpListeners + [node];
    }

    /**
     * The first pending mouseup listener fires, once, for the node it was
     * registered with: the root stops dragging and forgets the placement,
     * and a `node-placement` event is dispatched exactly when a placement
     * was stored.
     */
    method MouseUp()
      requires mouseUpListeners != []
      modifies Root()`isDragging, Root()`draggedNodeState, Root()`lastPlacementState, this`events, this`mouseUpListeners
      ensures mouseUpListeners == old(mouseUpListeners[1..])
      ensures var root := Root();
        var node := old(mouseUpListeners[0]);
        && !root.isDragging && root.draggedNodeState.None? && root.lastPlacementState.None?
        && events == old(events) + (if old(root.lastPlacementState).Some? then [NodePlacementEvent(node, old(root.lastPlacementState).value)] else [])
    {
      var node := mouseUpListeners[0];
      mouseUpListeners := mouseUpListeners[1..];
      var root := Root();
      root.isDragging := false;
      root.draggedNodeState := None;
      var placement := root.lastPlacementState;
      root.lastPlacementState := None;
      if placement.Some? {
        events := events + [NodePlacementEvent(node, placement.value)];
      }
    }

    /**
     * A mouseup on the window runs every pending listener, in the order
     * they were registered, and each runs once. The first clears the drag
     * state, so only it can dispatch `node-placement`; the others find no
     * placement.
     */
    method WindowMouseUp()
      modifies Root()`isDragging, Root()`draggedNodeState, Root()`lastPlacementState, this`events, this`mouseUpListeners
      ensures mouseUpListeners == []
      ensures old(mouseUpListeners) == [] ==>
        && events == old(events) && Root().isDragging == old(Root().isDragging)
        && Root().draggedNodeState == old(Root().draggedNodeState) && Root().lastPlacementState == old(Root().lastPlacementState)
      ensures old(mouseUpListeners) != [] ==>
        var root := Root();
        var placement := old(Root().lastPlacementState);
        && !root.isDragging && root.draggedNodeState.None? && root.lastPlacementState.None?
        && events == old(events) + (if placement.Some? then [NodePlacementEvent(old(mouseUpListeners[0]), placement.value)] else [])
    {
      ghost var pending := mouseUpListeners;
      ghost var placement := Root().lastPlacementState;
      var root := Root();
      while mouseUpListeners != []
        invariant root == Root()
        invariant |mouseUpListeners| <= |pending| && mouseUpListeners == pending[|pending| - |mouseUpListeners|..]
        invariant |mouseUpListeners| == |pending| ==>
          && events == old(events) && root.isDragging == old(root.isDragging)
          && root.draggedNodeState == old(root.draggedNodeState) && root.lastPlacementState == placement
        invariant |mouseUpListeners| < |pending| ==>
          && !root.isDragging && root.draggedNodeState.None? && root.lastPlacementState.None?
          && events == old(events) + (if placement.Some? then [NodePlacementEvent(pending[0], placement.value)] else [])
        decreases |mouseUpListeners|
      {
        MouseUp();
      }
    }
  }
}
