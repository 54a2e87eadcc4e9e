/** `simian/position.py`: the largest footprint of a set of objects and the
    3×3 placement grid. */
module Position {
  import opened Outcomes
  import opened Geometry

  /** Width and height of a bounding box: its extents along x and y. The
      depth along z is not looked at. */
  function Width(c: Corners): real { Extent(c, 0) }
  function Height(c: Corners): real { Extent(c, 1) }

  /** `find_largest_length`: the running maximum of `max(width, height)`
      over the objects' bounding boxes, starting from 0. */
  function FindLargestLength(objects: seq<Corners>): (r: real)
    ensures r >= 0.0
    decreases |objects|
  {
    if |objects| == 0 then 0.0
    else
      var last := objects[|objects| - 1];
      Max(FindLargestLength(objects[..|objects| - 1]), Max(Width(last), Height(last)))
  }

  /** The largest length bounds the width and the height of every object,
      and is either 0 (no objects, or only flat ones) or one of them. */
  lemma {:induction false} LargestLengthIsLargest(objects: seq<Corners>)
    ensures var r := FindLargestLength(objects);
            && (forall k :: 0 <= k < |objects| ==> Width(objects[k]) <= r && Height(objects[k]) <= r)
            && (r == 0.0 || exists k :: 0 <= k < |objects| && (r == Width(objects[k]) || r == Height(objects[k])))
    decreases |objects|
  {
    if |objects| > 0 {
      var n := |objects| - 1;
      var init := objects[..n];
      LargestLengthIsLargest(init);
      var sofar := FindLargestLength(init);
      var r := FindLargestLength(objects);
      forall k | 0 <= k < |objects| ensures Width(objects[k]) <= r && Height(objects[k]) <= r {
        if k < n {
          assert objects[k] == init[k];
        }
      }
      if r != 0.0 && r == sofar {
        var k :| 0 <= k < n && (sofar == Width(init[k]) || sofar == Height(init[k]));
        assert objects[k] == init[k];
      }
    }
  }

  /** The largest length of two lists of objects together is the larger of
      their largest lengths: the order in which objects come does not
      matter. */
  lemma {:induction false} FindLargestLengthAppend(a: seq<Corners>, b: seq<Corners>)
    ensures FindLargestLength(a + b) == Max(FindLargestLength(a), FindLargestLength(b))
    decreases |b|
  {
    if |b| == 0 {
      assert a + b == a;
    } else {
      var bInit := b[..|b| - 1];
      assert (a + b)[..|a + b| - 1] == a + bInit;
      FindLargestLengthAppend(a, bInit);
    }
  }

  /** The placement lookup table of `place_objects_on_grid`: code to
      (column, row) of the 3×3 grid, row 1 on top. */
  function Lookup(code: int): (cell: Option<(int, int)>)
    ensures cell.Some? <==> 0 <= code <= 8
    ensures cell.Some? ==> cell.value == (code % 3 - 1, 1 - code / 3)
  {
    if code == 0 then Some((-1, 1))
    else if code == 1 then Some((0, 1))
    else if code == 2 then Some((1, 1))
    else if code == 3 then Some((-1, 0))
    else if code == 4 then Some((0, 0))
    else if code == 5 then Some((1, 0))
    else if code == 6 then Some((-1, -1))
    else if code == 7 then Some((0, -1))
    else if code == 8 then Some((1, -1))
    else None
  }

  /** The value of an object's `placement` property: a single integer, or a
      sequence of integers. */
  datatype Placement = Code(n: int) | Codes(items: seq<int>)

  /** A scene object as the grid sees it: its `placement` property (`None`
      when absent) and its location. */
  datatype GridObject = GridObject(placement: Option<Placement>, location: Vec3)

  /** Why placing one object fails. */
  datatype GridError =
    | NotSubscriptable          // `placement[0]` on an integer
    | IndexError(index: nat)    // the sequence is shorter than `index + 1`
    | KeyError(code: int)       // the code is not in the lookup table
    | TupleAddFloat             // `(col, row) + 0.1`: a tuple plus a float

  /** Placing one object with a placement. The right-hand side of line 64 is
      evaluated left to right: `placement[0]`, its lookup, `placement[1]`,
      its lookup; the padding is then added to a tuple, which Python
      rejects, so no outcome is a location. */
  function PlaceOne(p: Placement): (e: GridError)
    ensures p.Code? ==> e == NotSubscriptable
    ensures p.Codes? && |p.items| == 0 ==> e == IndexError(0)
    ensures p.Codes? && |p.items| >= 1 && Lookup(p.items[0]).None? ==> e == KeyError(p.items[0])
    ensures p.Codes? && |p.items| == 1 && Lookup(p.items[0]).Some? ==> e == IndexError(1)
    ensures p.Codes? && |p.items| >= 2 && Lookup(p.items[0]).Some? && Lookup(p.items[1]).None? ==>
              e == KeyError(p.items[1])
    ensures e == TupleAddFloat <==>
              p.Codes? && |p.items| >= 2 && Lookup(p.items[0]).Some? && Lookup(p.items[1]).Some?
  {
    match p
    case Code(_) => NotSubscriptable
    case Codes(items) =>
      if |items| < 1 then IndexError(0)
      else if Lookup(items[0]).None? then KeyError(items[0])
      else if |items| < 2 then IndexError(1)
      else if Lookup(items[1]).None? then KeyError(items[1])
      else TupleAddFloat
  }

  /** The object is one the loop acts on: truthy, with a placement. */
  predicate Placed(obj: Option<GridObject>) {
    obj.Some? && obj.value.placement.Some?
  }

  /** `place_objects_on_grid(objects, largest_length)`: `None` entries and
      objects without a placement are skipped; the first placed object
      raises. */
  function PlaceObjectsOnGrid(objects: seq<Option<GridObject>>, largestLength: real)
    : Result<seq<Option<GridObject>>, GridError>
    decreases |objects|
  {
    if |objects| == 0 then Ok(objects)
    else if Placed(objects[0]) then Err(PlaceOne(objects[0].value.placement.value))
    else
      match PlaceObjectsOnGrid(objects[1..], largestLength)
      case Err(e) => Err(e)
      case Ok(rest) => Ok([objects[0]] + rest)
  }

  /** The index of the first object the loop acts on, or the length of the
      list when it acts on none. */
  function FirstPlaced(objects: seq<Option<GridObject>>): (k: nat)
    ensures k <= |objects|
    ensures forall j :: 0 <= j < k ==> !Placed(objects[j])
    ensures k < |objects| ==> Placed(objects[k])
    decreases |objects|
  {
    if |objects| == 0 || Placed(objects[0]) then 0 else 1 + FirstPlaced(objects[1..])
  }

  /** The grid leaves the objects as they are exactly when none has a
      placement; otherwise it fails with the error of the first placed
      object, and no location is ever written. */
  lemma {:induction false} PlaceObjectsOutcome(objects: seq<Option<GridObject>>, largestLength: real)
    ensures var r := PlaceObjectsOnGrid(objects, largestLength);
            var k := FirstPlaced(objects);
            && (r.Ok? <==> k == |objects|)
            && (r.Ok? ==> r.value == objects)
            && (r.Err? ==> r.error == PlaceOne(objects[k].value.placement.value))
    decreases |objects|
  {
    if |objects| > 0 && !Placed(objects[0]) {
      PlaceObjectsOutcome(objects[1..], largestLength);
      if PlaceObjectsOnGrid(objects[1..], largestLength).Ok? {
        assert [objects[0]] + objects[1..] == objects;
      }
    }
  }
}
