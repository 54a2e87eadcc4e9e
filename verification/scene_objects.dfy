/** Scene-wide rules of `simian/object.py`: which objects the two deletion
    routines remove, locking and unlocking selection, and which ray-cast
    hit gives the terrain height. The scene's objects are a list in scene
    order; parents and children do not matter to these rules. */
module SceneObjects {
  import opened Outcomes
  import opened Geometry
  import opened Hierarchy

  /** The elements of `s` that `doomed` does not pick, in order. */
  function Without<T>(s: seq<T>, doomed: T -> bool): seq<T>
    decreases |s|
  {
    if |s| == 0 then [] else (if doomed(s[0]) then [] else [s[0]]) + Without(s[1..], doomed)
  }

  /** Removal takes out every picked element and keeps every other one with
      its multiplicity. */
  lemma {:induction false} WithoutKeepsTheRest<T>(s: seq<T>, doomed: T -> bool)
    ensures forall x :: multiset(Without(s, doomed))[x] == if doomed(x) then 0 else multiset(s)[x]
    decreases |s|
  {
    if |s| > 0 {
      WithoutKeepsTheRest(s[1..], doomed);
      assert s == [s[0]] + s[1..];
      assert multiset(s) == multiset([s[0]]) + multiset(s[1..]);
    }
  }

  /** A view-layer collection and its `hide_viewport` flag. */
  datatype Collection = Collection(name: string, hideViewport: bool)

  datatype Scene = Scene(objects: seq<Node>, collections: seq<Collection>)

  /** The objects `delete_invisible_objects` selects after deselecting all:
      selectable, and hidden in the viewport or in renders. */
  predicate InvisibleTarget(o: Node) {
    !o.hideSelect && (o.hideViewport || o.hideRender)
  }

  /** `delete_invisible_objects()`: the selected objects are deleted, then
      every collection hidden in the viewport is removed. */
  function DeleteInvisibleObjects(scene: Scene): Scene {
    Scene(Without(scene.objects, InvisibleTarget),
          Without(scene.collections, (c: Collection) => c.hideViewport))
  }

  /** Exactly the selectable invisible objects and the viewport-hidden
      collections go; every other object and collection stays as it was. */
  lemma DeleteInvisibleRemovesTargets(scene: Scene)
    ensures var after := DeleteInvisibleObjects(scene);
            && (forall o :: multiset(after.objects)[o] == if InvisibleTarget(o) then 0 else multiset(scene.objects)[o])
            && (forall c :: multiset(after.collections)[c] == if c.hideViewport then 0 else multiset(scene.collections)[c])
  {
    WithoutKeepsTheRest(scene.objects, InvisibleTarget);
    WithoutKeepsTheRest(scene.collections, (c: Collection) => c.hideViewport);
  }

  /** The objects `delete_all_empties` removes: empties that can be
      selected. */
  predicate EmptyTarget(o: Node) {
    o.kind == Empty && !o.hideSelect
  }

  /** `delete_all_empties()` over the file's objects. */
  function DeleteAllEmpties(objects: seq<Node>): seq<Node> {
    Without(objects, EmptyTarget)
  }

  lemma DeleteAllEmptiesRemovesTargets(objects: seq<Node>)
    ensures forall o :: multiset(DeleteAllEmpties(objects))[o] == if EmptyTarget(o) then 0 else multiset(objects)[o]
  {
    WithoutKeepsTheRest(objects, EmptyTarget);
  }

  /** `lock_all_objects()`: every scene object becomes unselectable; the
      returned list names every object, in scene order. */
  function LockAllObjects(objects: seq<Node>): (seq<Node>, seq<nat>) {
    (seq(|objects|, k requires 0 <= k < |objects| => objects[k].(hideSelect := true)),
     seq(|objects|, k => k))
  }

  /** `unlock_objects(objs)`: the listed objects become selectable again. */
  function UnlockObjects(objects: seq<Node>, listed: seq<nat>): (r: seq<Node>)
    requires forall j :: 0 <= j < |listed| ==> listed[j] < |objects|
    ensures |r| == |objects|
    ensures forall k :: 0 <= k < |objects| ==>
              r[k] == if k in listed then objects[k].(hideSelect := false) else objects[k]
    decreases |listed|
  {
    if |listed| == 0 then objects
    else
      var k := listed[0];
      var r := UnlockObjects(objects[k := objects[k].(hideSelect := false)], listed[1..]);
      assert forall j :: 0 <= j < |listed| ==> listed[j] == k || listed[j] in listed[1..];
      r
  }

  /** Locking then unlocking the returned list leaves every object
      selectable, whatever its flag was before, and changes nothing else. */
  lemma LockThenUnlock(objects: seq<Node>)
    ensures var (locked, list) := LockAllObjects(objects);
            var r := UnlockObjects(locked, list);
            && |r| == |objects|
            && forall k :: 0 <= k < |objects| ==> r[k] == objects[k].(hideSelect := false)
  {
    var (locked, list) := LockAllObjects(objects);
    forall k | 0 <= k < |objects|
      ensures k in list && locked[k].(hideSelect := false) == objects[k].(hideSelect := false)
    {
      assert list[k] == k;
    }
  }

  // ---------------------------------------------------------------------
  // Terrain height

  const CoarseTerrain: string := "OpaqueTerrain"
  const FineTerrain: string := "OpaqueTerrain_fine"

  /** What one `scene.ray_cast` reports: nothing, or the name of the object
      hit and the hit location. */
  datatype RayHit = Miss | Hit(objectName: string, location: Vec3)

  predicate IsTerrain(o: Node) {
    o.name == CoarseTerrain || o.name == FineTerrain
  }

  /** The loop of `get_terrain_height` over the terrain objects: hidden ones
      are skipped; each other one casts the ray (reply `cast(k)` for the
      k-th cast). A fine hit is taken and ends the loop; a coarse hit is
      taken only when nothing was found yet. */
  function HitLoop(terrain: seq<Node>, cast: nat -> RayHit, k: nat, found: Option<Vec3>): Option<Vec3>
    decreases |terrain|
  {
    if |terrain| == 0 then found
    else if terrain[0].hidden then HitLoop(terrain[1..], cast, k, found)
    else
      match cast(k)
      case Hit(name, at) =>
        if name == FineTerrain then Some(at)
        else if name == CoarseTerrain && found.None? then HitLoop(terrain[1..], cast, k + 1, Some(at))
        else HitLoop(terrain[1..], cast, k + 1, found)
      case Miss => HitLoop(terrain[1..], cast, k + 1, found)
  }

  /** `get_terrain_height(location)`: the z of the chosen hit, 0.0 without
      one. The ray itself is fixed by the location and lives in `cast`. */
  function TerrainHeight(objects: seq<Node>, cast: nat -> RayHit): real {
    match HitLoop(Without(objects, (o: Node) => !IsTerrain(o)), cast, 0, None)
    case None => 0.0
    case Some(at) => at.z
  }

  /** The number of ray casts: one per visible terrain object. */
  function Casts(terrain: seq<Node>): nat
    decreases |terrain|
  {
    if |terrain| == 0 then 0 else (if terrain[0].hidden then 0 else 1) + Casts(terrain[1..])
  }

  /** The location of the first reply among `replies` that hits `name`. */
  function FirstHit(replies: seq<RayHit>, name: string): Option<Vec3>
    decreases |replies|
  {
    if |replies| == 0 then None
    else if replies[0].Hit? && replies[0].objectName == name then Some(replies[0].location)
    else FirstHit(replies[1..], name)
  }

  /** The replies of casts `k .. k + n`. */
  function Replies(cast: nat -> RayHit, k: nat, n: nat): seq<RayHit> {
    seq(n, j requires 0 <= j < n => cast(k + j))
  }

  /** The hit preference, stated over the replies alone: the first fine hit
      wins; failing that, what was found before; failing that, the first
      coarse hit. */
  lemma {:induction false} HitLoopPrefers(terrain: seq<Node>, cast: nat -> RayHit, k: nat, found: Option<Vec3>)
    ensures var replies := Replies(cast, k, Casts(terrain));
            HitLoop(terrain, cast, k, found)
              == if FirstHit(replies, FineTerrain).Some? then FirstHit(replies, FineTerrain)
                 else if found.Some? then found
                 else FirstHit(replies, CoarseTerrain)
    decreases |terrain|
  {
    if |terrain| > 0 {
      var rest := terrain[1..];
      if terrain[0].hidden {
        HitLoopPrefers(rest, cast, k, found);
        assert Replies(cast, k, Casts(terrain)) == Replies(cast, k, Casts(rest));
      } else {
        var replies := Replies(cast, k, Casts(terrain));
        var later := Replies(cast, k + 1, Casts(rest));
        assert replies == [cast(k)] + later;
        assert replies[1..] == later;
        match cast(k)
        case Hit(name, at) =>
          if name == CoarseTerrain && found.None? {
            HitLoopPrefers(rest, cast, k + 1, Some(at));
          } else if name != FineTerrain {
            HitLoopPrefers(rest, cast, k + 1, found);
          }
        case Miss =>
          HitLoopPrefers(rest, cast, k + 1, found);
      }
    }
  }

  /** The terrain height is the z of the first hit on the fine terrain, or
      else of the first hit on the coarse terrain, or 0.0 when no ray hits
      either. */
  lemma TerrainHeightPrefersFine(objects: seq<Node>, cast: nat -> RayHit)
    ensures var terrain := Without(objects, (o: Node) => !IsTerrain(o));
            var replies := Replies(cast, 0, Casts(terrain));
            TerrainHeight(objects, cast)
              == if FirstHit(replies, FineTerrain).Some? then FirstHit(replies, FineTerrain).value.z
                 else if FirstHit(replies, CoarseTerrain).Some? then FirstHit(replies, CoarseTerrain).value.z
                 else 0.0
  {
    HitLoopPrefers(Without(objects, (o: Node) => !IsTerrain(o)), cast, 0, None);
  }
}
