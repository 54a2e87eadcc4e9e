/** Object trees of `simian/object.py`: pre-order mesh collection, the
    hierarchy bounding box, the join decision and the scale ratio. World
    transforms are already applied: every node carries its world-space
    bounding-box corners. */
module Hierarchy {
  import opened Outcomes
  import opened Geometry

  /** `obj.type`: the two kinds the rules look at, and every other kind. */
  datatype Kind = Mesh | Empty | OtherKind(tag: string)

  /** A scene object: its name and type, its `hide_select`, `hide_viewport`,
      `hide_render` and `hide_get()` flags, its world-space corners and its
      children in order. */
  datatype Node = Node(name: string, kind: Kind,
                       hideSelect: bool, hideViewport: bool, hideRender: bool, hidden: bool,
                       corners: Corners, children: seq<Node>)

  /** The nodes of a tree, each before its children, children in order. */
  function PreOrder(n: Node): (r: seq<Node>)
    ensures |r| > 0 && r[0] == n
    decreases n
  {
    [n] + PreOrderAll(n.children)
  }

  function PreOrderAll(cs: seq<Node>): seq<Node>
    decreases cs
  {
    if |cs| == 0 then [] else PreOrder(cs[0]) + PreOrderAll(cs[1..])
  }

  /** The meshes of a list of nodes, in order. */
  function MeshesOf(s: seq<Node>): (r: seq<Node>)
    ensures forall k :: 0 <= k < |r| ==> r[k].kind == Mesh
    ensures |r| <= |s|
    decreases |s|
  {
    if |s| == 0 then []
    else (if s[0].kind == Mesh then [s[0]] else []) + MeshesOf(s[1..])
  }

  lemma {:induction false} MeshesOfAppend(a: seq<Node>, b: seq<Node>)
    ensures MeshesOf(a + b) == MeshesOf(a) + MeshesOf(b)
    decreases |a|
  {
    if |a| > 0 {
      assert (a + b)[1..] == a[1..] + b;
      MeshesOfAppend(a[1..], b);
    } else {
      assert a + b == b;
    }
  }

  /** `get_meshes_in_hierarchy(obj)`: the node itself if it is a mesh, then
      the meshes of each child's subtree, in order. */
  function GetMeshes(n: Node): seq<Node>
    decreases n
  {
    (if n.kind == Mesh then [n] else []) + GetMeshesAll(n.children)
  }

  /** `new_meshes += get_meshes_in_hierarchy(child)` over the children. */
  function GetMeshesAll(cs: seq<Node>): seq<Node>
    decreases cs
  {
    if |cs| == 0 then [] else GetMeshes(cs[0]) + GetMeshesAll(cs[1..])
  }

  /** The collected meshes are exactly the mesh nodes of the tree in
      pre-order: every mesh once, nothing else. */
  lemma {:induction false} GetMeshesIsPreOrder(n: Node)
    ensures GetMeshes(n) == MeshesOf(PreOrder(n))
    decreases n
  {
    GetMeshesAllIsPreOrder(n.children);
    MeshesOfAppend([n], PreOrderAll(n.children));
    assert MeshesOf([n]) == (if n.kind == Mesh then [n] else []) by {
      assert [n][1..] == [];
    }
  }

  lemma {:induction false} GetMeshesAllIsPreOrder(cs: seq<Node>)
    ensures GetMeshesAll(cs) == MeshesOf(PreOrderAll(cs))
    decreases cs
  {
    if |cs| > 0 {
      GetMeshesIsPreOrder(cs[0]);
      GetMeshesAllIsPreOrder(cs[1..]);
      MeshesOfAppend(PreOrder(cs[0]), PreOrderAll(cs[1..]));
    }
  }

  // ---------------------------------------------------------------------
  // The hierarchy bounding box

  /** Component-wise minimum and maximum of two points. */
  function MinPoint(a: Vec3, b: Vec3): Vec3 { Vec3(Min(a.x, b.x), Min(a.y, b.y), Min(a.z, b.z)) }
  function MaxPoint(a: Vec3, b: Vec3): Vec3 { Vec3(Max(a.x, b.x), Max(a.y, b.y), Max(a.z, b.z)) }

  /** The bounds after one more corner. `None` stands for the starting
      bounds `[inf, inf, inf]`, `[-inf, -inf, -inf]`: the first corner
      replaces them on every axis. */
  function Grow(acc: Option<Box>, p: Vec3): Box {
    match acc
    case None => Box(p, p)
    case Some(b) => Box(MinPoint(b.lo, p), MaxPoint(b.hi, p))
  }

  /** `update_bounds` over a list of corners, in order. */
  function FoldBox(acc: Option<Box>, s: seq<Vec3>): (r: Option<Box>)
    ensures acc.Some? || |s| > 0 ==> r.Some?
    decreases |s|
  {
    if |s| == 0 then acc else FoldBox(Some(Grow(acc, s[0])), s[1..])
  }

  /** `process_object`: the node's own corners, then each child's subtree. */
  function ProcessObject(acc: Option<Box>, n: Node): (r: Option<Box>)
    ensures r.Some?
    decreases n
  {
    ProcessChildren(FoldBox(acc, n.corners), n.children)
  }

  function ProcessChildren(acc: Option<Box>, cs: seq<Node>): (r: Option<Box>)
    ensures acc.Some? ==> r.Some?
    decreases cs
  {
    if |cs| == 0 then acc else ProcessChildren(ProcessObject(acc, cs[0]), cs[1..])
  }

  /** `get_hierarchy_bbox(obj)`: the bounds after processing the tree. */
  function HierarchyBox(n: Node): Box {
    ProcessObject(None, n).value
  }

  /** The corners of a list of nodes, concatenated in order. */
  function CornersOf(s: seq<Node>): seq<Vec3>
    decreases |s|
  {
    if |s| == 0 then [] else s[0].corners + CornersOf(s[1..])
  }

  lemma {:induction false} CornersOfAppend(a: seq<Node>, b: seq<Node>)
    ensures CornersOf(a + b) == CornersOf(a) + CornersOf(b)
    decreases |a|
  {
    if |a| > 0 {
      assert (a + b)[1..] == a[1..] + b;
      CornersOfAppend(a[1..], b);
    } else {
      assert a + b == b;
    }
  }

  lemma {:induction false} FoldBoxAppend(acc: Option<Box>, a: seq<Vec3>, b: seq<Vec3>)
    ensures FoldBox(acc, a + b) == FoldBox(FoldBox(acc, a), b)
    decreases |a|
  {
    if |a| > 0 {
      assert (a + b)[0] == a[0];
      assert (a + b)[1..] == a[1..] + b;
      FoldBoxAppend(Some(Grow(acc, a[0])), a[1..], b);
    } else {
      assert a + b == b;
    }
  }

  /** The recursive traversal visits the corners of the tree in pre-order. */
  lemma {:induction false} ProcessObjectFolds(acc: Option<Box>, n: Node)
    ensures ProcessObject(acc, n) == FoldBox(acc, CornersOf(PreOrder(n)))
    decreases n
  {
    ProcessChildrenFolds(FoldBox(acc, n.corners), n.children);
    CornersOfAppend([n], PreOrderAll(n.children));
    assert CornersOf([n]) == n.corners by {
      assert [n][1..] == [];
      assert n.corners + [] == n.corners;
    }
    FoldBoxAppend(acc, n.corners, CornersOf(PreOrderAll(n.children)));
  }

  lemma {:induction false} ProcessChildrenFolds(acc: Option<Box>, cs: seq<Node>)
    ensures ProcessChildren(acc, cs) == FoldBox(acc, CornersOf(PreOrderAll(cs)))
    decreases cs
  {
    if |cs| > 0 {
      ProcessObjectFolds(acc, cs[0]);
      ProcessChildrenFolds(ProcessObject(acc, cs[0]), cs[1..]);
      CornersOfAppend(PreOrder(cs[0]), PreOrderAll(cs[1..]));
      FoldBoxAppend(acc, CornersOf(PreOrder(cs[0])), CornersOf(PreOrderAll(cs[1..])));
    }
  }

  /** Smallest and largest coordinates of a non-empty corner list. */
  function Lows(s: seq<Vec3>): Vec3
    requires |s| > 0
  {
    Vec3(MinAlong(s, 0), MinAlong(s, 1), MinAlong(s, 2))
  }

  function Highs(s: seq<Vec3>): Vec3
    requires |s| > 0
  {
    Vec3(MaxAlong(s, 0), MaxAlong(s, 1), MaxAlong(s, 2))
  }

  /** Folding a non-empty corner list gives its smallest and largest
      coordinates on every axis, merged with the bounds it started from. */
  lemma {:induction false} FoldBoxBounds(acc: Option<Box>, s: seq<Vec3>)
    requires |s| > 0
    ensures FoldBox(acc, s) == Some(match acc
                                    case None => Box(Lows(s), Highs(s))
                                    case Some(b) => Box(MinPoint(b.lo, Lows(s)), MaxPoint(b.hi, Highs(s))))
    decreases |s|
  {
    var t := s[1..];
    if |t| == 0 {
      assert Lows(s) == s[0] && Highs(s) == s[0];
    } else {
      FoldBoxBounds(Some(Grow(acc, s[0])), t);
      assert Lows(s) == MinPoint(s[0], Lows(t));
      assert Highs(s) == MaxPoint(s[0], Highs(t));
    }
  }

  /** The hierarchy box is the tightest box around every corner of every
      node of the tree: it holds them all, each of its bounds is the
      coordinate of one of them, and its lower corner is below its upper
      one on every axis. */
  lemma HierarchyBoxTight(n: Node)
    ensures var b := HierarchyBox(n);
            && Tight(b, CornersOf(PreOrder(n)))
            && b.lo.x <= b.hi.x && b.lo.y <= b.hi.y && b.lo.z <= b.hi.z
  {
    var s := CornersOf(PreOrder(n));
    ProcessObjectFolds(None, n);
    CornersOfAppend([n], PreOrderAll(n.children));
    assert |s| > 0 by {
      assert [n][1..] == [];
    }
    FoldBoxBounds(None, s);
    var b := HierarchyBox(n);
    assert b == Box(Lows(s), Highs(s));
    forall axis | 0 <= axis < 3
      ensures (exists k :: 0 <= k < |s| && Coord(s[k], axis) == Coord(b.lo, axis))
      ensures (exists k :: 0 <= k < |s| && Coord(s[k], axis) == Coord(b.hi, axis))
    {
      ExtremesAttained(s, axis);
    }
    forall k | 0 <= k < |s| ensures Contains(b, s[k]) {
      forall axis | 0 <= axis < 3 ensures Coord(b.lo, axis) <= Coord(s[k], axis) <= Coord(b.hi, axis) {
      }
    }
  }

  /** Every corner of every node of the tree is among the corners the box
      is built from. */
  lemma {:induction false} CornersOfHolds(s: seq<Node>, k: nat, j: nat)
    requires k < |s| && j < |s[k].corners|
    ensures s[k].corners[j] in CornersOf(s)
    decreases k
  {
    if k > 0 {
      CornersOfHolds(s[1..], k - 1, j);
    }
  }

  /** Every corner of every node of the tree lies inside the hierarchy box. */
  lemma HierarchyBoxHoldsEveryNode(n: Node)
    ensures forall k, j :: 0 <= k < |PreOrder(n)| && 0 <= j < |PreOrder(n)[k].corners| ==>
              Contains(HierarchyBox(n), PreOrder(n)[k].corners[j])
  {
    var s := CornersOf(PreOrder(n));
    HierarchyBoxTight(n);
    forall k, j | 0 <= k < |PreOrder(n)| && 0 <= j < |PreOrder(n)[k].corners|
      ensures Contains(HierarchyBox(n), PreOrder(n)[k].corners[j])
    {
      CornersOfHolds(PreOrder(n), k, j);
      var i :| 0 <= i < |s| && s[i] == PreOrder(n)[k].corners[j];
    }
  }

  // ---------------------------------------------------------------------
  // Joining and scaling

  /** What `join_objects_in_hierarchy` does. */
  datatype JoinPlan =
    | NoMeshes                                         // "No meshes found to set as active."
    | ActiveNotMesh                                    // "Active object is not a valid mesh."
    | Activate(active: Node, selected: seq<Node>, join: bool)

  function JoinObjectsInHierarchy(n: Node): JoinPlan {
    var meshes := GetMeshes(n);
    if |meshes| == 0 then NoMeshes
    else if meshes[0].kind != Mesh then ActiveNotMesh
    else Activate(meshes[0], meshes, |meshes| > 1)
  }

  /** Nothing happens without meshes; otherwise the first mesh in pre-order
      becomes active, every mesh is selected, and `join` runs exactly when
      there are at least two. The "not a valid mesh" branch is never taken. */
  lemma JoinDecision(n: Node)
    ensures var plan := JoinObjectsInHierarchy(n);
            var meshes := MeshesOf(PreOrder(n));
            && !plan.ActiveNotMesh?
            && (plan == NoMeshes <==> forall k :: 0 <= k < |PreOrder(n)| ==> PreOrder(n)[k].kind != Mesh)
            && (plan.Activate? ==>
                  && |meshes| > 0
                  && plan.active == meshes[0] && plan.active.kind == Mesh
                  && plan.selected == meshes
                  && (plan.join <==> |meshes| >= 2))
  {
    GetMeshesIsPreOrder(n);
    NoMeshesIffNone(PreOrder(n));
  }

  lemma {:induction false} NoMeshesIffNone(s: seq<Node>)
    ensures |MeshesOf(s)| == 0 <==> forall k :: 0 <= k < |s| ==> s[k].kind != Mesh
    decreases |s|
  {
    if |s| > 0 {
      NoMeshesIffNone(s[1..]);
      assert forall k :: 1 <= k < |s| ==> s[k] == s[1..][k - 1];
    }
  }

  /** `max(bbox_dimensions)`: the largest side of a box. */
  function MaxDimension(b: Box): real {
    Max(Max(b.hi.x - b.lo.x, b.hi.y - b.lo.y), b.hi.z - b.lo.z)
  }

  datatype ScaleError = ZeroDivision

  /** `scale = scale_factor / max_dimension` in `normalize_object_scale`;
      a zero largest side raises `ZeroDivisionError`. */
  function NormalizeScale(n: Node, scaleFactor: real): (r: Result<real, ScaleError>)
    ensures r.Ok? <==> MaxDimension(HierarchyBox(n)) != 0.0
    ensures r.Ok? ==> r.value * MaxDimension(HierarchyBox(n)) == scaleFactor
  {
    var d := MaxDimension(HierarchyBox(n));
    if d == 0.0 then Err(ZeroDivision) else Ok(scaleFactor / d)
  }

  /** The ratio is refused exactly when every corner of the hierarchy is
      the same point; otherwise it is positive for a positive factor. */
  lemma ScaleRefusedIffPoint(n: Node, scaleFactor: real)
    ensures var s := CornersOf(PreOrder(n));
            && |s| > 0
            && (NormalizeScale(n, scaleFactor).Err? <==> forall k :: 0 <= k < |s| ==> s[k] == s[0])
            && (scaleFactor > 0.0 && NormalizeScale(n, scaleFactor).Ok? ==> NormalizeScale(n, scaleFactor).value > 0.0)
  {
    var s := CornersOf(PreOrder(n));
    var b := HierarchyBox(n);
    HierarchyBoxTight(n);
    FlatIffPoint(b, s);
  }

  /** A tight box around a non-empty point list has largest side 0 exactly
      when all the points coincide. */
  lemma FlatIffPoint(b: Box, s: seq<Vec3>)
    requires |s| > 0 && Tight(b, s)
    requires b.lo.x <= b.hi.x && b.lo.y <= b.hi.y && b.lo.z <= b.hi.z
    ensures MaxDimension(b) == 0.0 <==> forall k :: 0 <= k < |s| ==> s[k] == s[0]
  {
    if MaxDimension(b) == 0.0 {
      assert b.lo == b.hi;
      forall k | 0 <= k < |s| ensures s[k] == s[0] {
        assert Contains(b, s[k]) && Contains(b, s[0]);
        assert Coord(s[k], 0) == Coord(b.lo, 0) && Coord(s[k], 1) == Coord(b.lo, 1) && Coord(s[k], 2) == Coord(b.lo, 2);
        assert Coord(s[0], 0) == Coord(b.lo, 0) && Coord(s[0], 1) == Coord(b.lo, 1) && Coord(s[0], 2) == Coord(b.lo, 2);
      }
    }
    if forall k :: 0 <= k < |s| ==> s[k] == s[0] {
      forall axis | 0 <= axis < 3 ensures Coord(b.lo, axis) == Coord(b.hi, axis) {
        var i :| 0 <= i < |s| && Coord(s[i], axis) == Coord(b.lo, axis);
        var j :| 0 <= j < |s| && Coord(s[j], axis) == Coord(b.hi, axis);
        assert s[i] == s[0] && s[j] == s[0];
      }
      assert Coord(b.lo, 0) == Coord(b.hi, 0) && Coord(b.lo, 1) == Coord(b.hi, 1) && Coord(b.lo, 2) == Coord(b.hi, 2);
    }
  }
}
