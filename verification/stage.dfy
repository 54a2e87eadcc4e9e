/** `simian/scene.py`: the texture cache of `download_texture` and the node
    plan `apply_stage_material` builds for the stage material. The disk is
    the set of paths that exist; a fetch is recorded as the URL asked for
    and the path written, its content is not modelled. Whether
    `requests.get(url)` returns is the parameter `get`. A call that raises
    leaves behind what it did before the error: the nodes and links made,
    and the textures fetched and written to disk. */
module Stage {
  import opened Outcomes
  import opened JsonValues

  // ---------------------------------------------------------------------
  // Paths

  predicate StartsWithSlash(s: string) {
    |s| > 0 && s[0] == '/'
  }

  /** `os.path.join(a, b)` on POSIX: an absolute `b` replaces `a`; otherwise
      a '/' goes between them unless `a` is empty or already ends in one. */
  function PathJoin(a: string, b: string): string {
    if StartsWithSlash(b) then b
    else if |a| == 0 || a[|a| - 1] == '/' then a + b
    else a + "/" + b
  }

  /** The cache path of a texture: `materials/<material>/<texture>.jpg`. */
  function LocalPath(material: string, texture: string): string {
    PathJoin(PathJoin("materials", material), texture + ".jpg")
  }

  /** For a plain material name the cache path is spelled out, and the
      texture file name always ends it. */
  lemma LocalPathLayout(material: string, texture: string)
    requires |material| > 0 && !StartsWithSlash(material) && material[|material| - 1] != '/'
    requires !StartsWithSlash(texture)
    ensures LocalPath(material, texture) == "materials/" + material + "/" + texture + ".jpg"
  {
    var d := PathJoin("materials", material);
    assert d == "materials/" + material;
    assert d[|d| - 1] == material[|material| - 1];
    var name := texture + ".jpg";
    assert !StartsWithSlash(name) by {
      if |texture| == 0 {
        assert name[0] == '.';
      } else {
        assert name[0] == texture[0];
      }
    }
    assert PathJoin(d, name) == d + "/" + name;
  }

  /** The directory part a relative texture name is appended to. */
  function MaterialDir(material: string): string {
    var d := PathJoin("materials", material);
    if |d| == 0 || d[|d| - 1] == '/' then d else d + "/"
  }

  /** Two different relative texture names of one material are cached at two
      different paths. */
  lemma LocalPathsDiffer(material: string, t1: string, t2: string)
    requires !StartsWithSlash(t1) && !StartsWithSlash(t2) && t1 != t2
    ensures LocalPath(material, t1) != LocalPath(material, t2)
  {
    RelativeJoin(material, t1);
    RelativeJoin(material, t2);
    if LocalPath(material, t1) == LocalPath(material, t2) {
      Cancel(MaterialDir(material), t1, t2, ".jpg");
    }
  }

  /** A common prefix and suffix cancel. */
  lemma Cancel(d: string, a: string, b: string, e: string)
    requires d + a + e == d + b + e
    ensures a == b
  {
    var p := d + a + e;
    assert p[|d|..|p| - |e|] == a;
    assert (d + b + e)[|d|..|p| - |e|] == b;
  }

  lemma RelativeJoin(material: string, texture: string)
    requires !StartsWithSlash(texture)
    ensures LocalPath(material, texture) == MaterialDir(material) + texture + ".jpg"
  {
    var name := texture + ".jpg";
    assert !StartsWithSlash(name) by {
      if |texture| == 0 {
        assert name[0] == '.';
      } else {
        assert name[0] == texture[0];
      }
    }
  }

  // ---------------------------------------------------------------------
  // The texture cache

  /** One `requests.get(url)` whose content was written to `path`. */
  datatype Fetch = Fetch(url: Json, path: string)

  /** What `download_texture` returns and does: the local path, the fetch it
      made if any, and the disk afterwards. */
  datatype Download = Download(path: string, fetched: Option<Fetch>, disk: set<string>)

  /** `download_texture(url, material_name, texture_name)`: fetch only when
      the cache path does not exist yet. The fetch raises when `get(url)`
      does not hold: without a network, or for a URL with no scheme, as a
      JSON null becomes "None". */
  function DownloadTexture(url: Json, material: string, texture: string, disk: set<string>,
                           get: Json -> bool): (d: Result<Download, StageError>)
    ensures d.Err? <==> LocalPath(material, texture) !in disk && !get(url)
    ensures d.Err? ==> d.error == FetchFailed(url)
    ensures d.Ok? ==>
              && d.value.path == LocalPath(material, texture)
              && (d.value.fetched.Some? <==> d.value.path !in disk)
              && (d.value.fetched.Some? ==> d.value.fetched.value == Fetch(url, d.value.path))
              && d.value.disk == disk + {d.value.path}
  {
    var path := LocalPath(material, texture);
    if path in disk then Ok(Download(path, None, disk))
    else if get(url) then Ok(Download(path, Some(Fetch(url, path)), disk + {path}))
    else Err(FetchFailed(url))
  }

  /** The cache is sticky: after a call that returned, a second call for the
      same material and texture returns too, whatever URL it is given and
      whatever the network does, fetches nothing and gives the same path. */
  lemma SecondDownloadIsCached(url1: Json, url2: Json, material: string, texture: string, disk: set<string>,
                               get1: Json -> bool, get2: Json -> bool)
    ensures var first := DownloadTexture(url1, material, texture, disk, get1);
            first.Ok? ==>
              var second := DownloadTexture(url2, material, texture, first.value.disk, get2);
              && second.Ok?
              && second.value.fetched.None?
              && second.value.path == first.value.path
              && second.value.disk == first.value.disk
  {
  }

  // ---------------------------------------------------------------------
  // The node plan

  /** The shader node types the plan creates; an image node carries the
      path of the image loaded into it. */
  datatype NodeType =
    | OutputMaterial | BsdfPrincipled | TexCoord | Mapping
    | TexImage(image: string) | NormalMap | DisplacementNode

  /** A named socket of the node at an index of the node list. */
  datatype Socket = Socket(node: nat, name: string)

  datatype Link = Link(from: Socket, to: Socket)

  datatype Graph = Graph(nodes: seq<NodeType>, links: seq<Link>)

  /** Node indices of the four nodes made first. */
  const OutputNode: nat := 0
  const PrincipledNode: nat := 1
  const TexCoordNode: nat := 2
  const MappingNode: nat := 3

  /** The graph right after the clearing loop and the first link. */
  const BaseGraph: Graph :=
    Graph([OutputMaterial, BsdfPrincipled, TexCoord, Mapping],
          [Link(Socket(TexCoordNode, "UV"), Socket(MappingNode, "Vector"))])

  const SurfaceLink: Link := Link(Socket(PrincipledNode, "BSDF"), Socket(OutputNode, "Surface"))

  /** A node an image passes through before reaching its destination, with
      the socket it takes the colour on and the socket it feeds on. */
  datatype Bridge = Bridge(kind: NodeType, input: string, output: string)

  /** One row of the map table: the key in `maps`, the texture file name,
      an optional bridge node, and the destination socket. */
  datatype Slot = Slot(key: string, texture: string, bridge: Option<Bridge>, dest: Socket)

  /** The map table, row by row in the order the keys are processed. */
  const MapTable: seq<Slot> := [
    Slot("Diffuse", "Diffuse", None, Socket(PrincipledNode, "Base Color")),
    Slot("nor_gl", "Normal", Some(Bridge(NormalMap, "Color", "Normal")), Socket(PrincipledNode, "Normal")),
    Slot("rough_ao", "RoughAO", None, Socket(PrincipledNode, "Roughness")),
    Slot("AO", "AO", None, Socket(PrincipledNode, "Base Color")),
    Slot("Displacement", "Displacement", Some(Bridge(DisplacementNode, "Height", "Displacement")),
         Socket(OutputNode, "Displacement")),
    Slot("Rough", "Rough", None, Socket(PrincipledNode, "Roughness"))]

  /** The nodes one present slot adds, given the path of its image. */
  function SlotNodes(slot: Slot, path: string): seq<NodeType> {
    [TexImage(path)] + if slot.bridge.Some? then [slot.bridge.value.kind] else []
  }

  /** The links one present slot adds when its image node gets index `t`
      (and its bridge node, if any, index `t + 1`). */
  function SlotLinks(slot: Slot, t: nat): seq<Link> {
    [Link(Socket(MappingNode, "Vector"), Socket(t, "Vector"))]
    + match slot.bridge
      case None => [Link(Socket(t, "Color"), slot.dest)]
      case Some(b) => [Link(Socket(t, "Color"), Socket(t + 1, b.input)), Link(Socket(t + 1, b.output), slot.dest)]
  }

  function AddSlot(g: Graph, slot: Slot, path: string): Graph {
    Graph(g.nodes + SlotNodes(slot, path), g.links + SlotLinks(slot, |g.nodes|))
  }

  /** Why `apply_stage_material` raises. */
  datatype StageError =
    | NotADict              // `stage_material.get` on a value that is not a dict
    | KeyError(key: string) // `stage_material['maps']` without a 'maps' key
    | NotIterable           // `key in maps` on a number, boolean or None
    | NotSubscriptable      // `maps[key]` on a list or string that holds the key
    | NameNotAString        // `os.path.join` given a material name that is not a string
    | FetchFailed(url: Json) // `requests.get(url)` raised

  /** `key` occurs in `s` as a substring. */
  predicate Occurs(key: string, s: string)
    decreases |s|
  {
    |s| >= |key| && (s[..|key|] == key || Occurs(key, s[1..]))
  }

  /** Python's `key in maps` for every JSON value `maps` can be. */
  function Contains(maps: Json, key: string): Result<bool, StageError> {
    match maps
    case Obj(fields) => Ok(key in fields)
    case Arr(items) => Ok(Str(key) in items)
    case Str(s) => Ok(Occurs(key, s))
    case _ => Err(NotIterable)
  }

  /** The work done so far: the graph, the fetches in order, the disk. */
  datatype Progress = Progress(graph: Graph, fetches: seq<Fetch>, disk: set<string>)

  /** A call that raised: the error, and the work done before it. */
  datatype Failure = Failure(error: StageError, left: Progress)

  /** The work a call leaves behind, whether it returned or raised. */
  function WorkDone(r: Result<Progress, Failure>): Progress {
    if r.Ok? then r.value else r.error.left
  }

  /** The paths a list of fetches wrote. */
  function Paths(fs: seq<Fetch>): set<string>
    decreases |fs|
  {
    if |fs| == 0 then {} else {fs[0].path} + Paths(fs[1..])
  }

  /** The six `if key in maps` blocks: rows `i ..` of the table. A row
      that raises does so before it makes any node, so it leaves the work
      of the rows before it. */
  function PlanRows(slots: seq<Slot>, i: nat, maps: Json, name: Json, p: Progress,
                    get: Json -> bool): Result<Progress, Failure>
    requires i <= |slots|
    decreases |slots| - i
  {
    if i == |slots| then Ok(p)
    else
      var slot := slots[i];
      match Contains(maps, slot.key)
      case Err(e) => Err(Failure(e, p))
      case Ok(present) =>
        if !present then PlanRows(slots, i + 1, maps, name, p, get)
        else if !maps.Obj? then Err(Failure(NotSubscriptable, p))
        else if !name.Str? then Err(Failure(NameNotAString, p))
        else
          match TakeSlot(slot, maps.fields[slot.key], name.s, p, get)
          case Err(e) => Err(Failure(e, p))
          case Ok(q) => PlanRows(slots, i + 1, maps, name, q, get)
  }

  /** One present slot: download its texture, then add its nodes and links. */
  function TakeSlot(slot: Slot, url: Json, name: string, p: Progress, get: Json -> bool): Result<Progress, StageError> {
    match DownloadTexture(url, name, slot.texture, p.disk, get)
    case Err(e) => Err(e)
    case Ok(d) =>
      var fetched := if d.fetched.Some? then [d.fetched.value] else [];
      Ok(Progress(AddSlot(p.graph, slot, d.path), p.fetches + fetched, d.disk))
  }

  /** What a present slot does once its texture is on disk or its fetch
      returned. */
  function Store(slot: Slot, url: Json, name: string, p: Progress): Progress {
    var path := LocalPath(name, slot.texture);
    var fetched := if path in p.disk then [] else [Fetch(url, path)];
    Progress(AddSlot(p.graph, slot, path), p.fetches + fetched, p.disk + {path})
  }

  /** `combination.get('stage_material', {})`. */
  function StageMaterial(combination: map<string, Json>): Json {
    if "stage_material" in combination then combination["stage_material"] else Obj(map[])
  }

  /** `stage_material.get('name', 'DefaultMaterial')`. */
  function MaterialName(fields: map<string, Json>): Json {
    if "name" in fields then fields["name"] else Str("DefaultMaterial")
  }

  /** Where a stage material that is not a dict stops: before the
      material is created, so no node is made. */
  const NoNodes: Graph := Graph([], [])

  /** `apply_stage_material(stage, combination)` after the node tree is
      cleared: the nodes and links made, the textures fetched, and the
      disk afterwards, also when the call raises. */
  function ApplyStageMaterial(combination: map<string, Json>, disk: set<string>, get: Json -> bool): Result<Progress, Failure> {
    var material := StageMaterial(combination);
    if !material.Obj? then Err(Failure(NotADict, Progress(NoNodes, [], disk)))
    else if "maps" !in material.fields then Err(Failure(KeyError("maps"), Progress(BaseGraph, [], disk)))
    else
      match PlanRows(MapTable, 0, material.fields["maps"], MaterialName(material.fields), Progress(BaseGraph, [], disk), get)
      case Err(f) => Err(f)
      case Ok(p) => Ok(p.(graph := p.graph.(links := p.graph.links + [SurfaceLink])))
  }

  // ---------------------------------------------------------------------
  // Errors

  /** Without a 'maps' entry the call fails with a key error once the four
      first nodes and their link are made, also when the combination has no
      stage material at all; a stage material that is not a dict fails on
      `.get` before any node is made; with a dict of maps and a string name
      (or none) the call returns exactly when every fetch it makes returns,
      and otherwise it fails on a URL whose fetch raised. */
  lemma StageMaterialErrors(combination: map<string, Json>, disk: set<string>, get: Json -> bool)
    ensures "stage_material" !in combination ==>
              ApplyStageMaterial(combination, disk, get) == Err(Failure(KeyError("maps"), Progress(BaseGraph, [], disk)))
    ensures var material := StageMaterial(combination);
            material.Obj? && "maps" !in material.fields ==>
              ApplyStageMaterial(combination, disk, get) == Err(Failure(KeyError("maps"), Progress(BaseGraph, [], disk)))
    ensures var material := StageMaterial(combination);
            !material.Obj? ==> ApplyStageMaterial(combination, disk, get) == Err(Failure(NotADict, Progress(NoNodes, [], disk)))
    ensures var material := StageMaterial(combination);
            material.Obj? && "maps" in material.fields && material.fields["maps"].Obj?
            && MaterialName(material.fields).Str?
            ==> var r := ApplyStageMaterial(combination, disk, get);
                && (r.Ok? <==> Fetchable(MapTable, 0, material.fields["maps"].fields, MaterialName(material.fields).s,
                                         Progress(BaseGraph, [], disk), get))
                && (r.Err? ==> r.error.error.FetchFailed? && !get(r.error.error.url))
  {
    var material := StageMaterial(combination);
    if material.Obj? && "maps" in material.fields && material.fields["maps"].Obj? && MaterialName(material.fields).Str? {
      PlanRowsBuilds(MapTable, 0, material.fields["maps"].fields, MaterialName(material.fields).s,
                     Progress(BaseGraph, [], disk), get);
    }
  }

  /** What row `i` does with a dict of maps and a string name, when its
      texture is on disk or its fetch returns. */
  function Advance(slots: seq<Slot>, i: nat, fields: map<string, Json>, name: string, p: Progress): Progress
    requires i < |slots|
  {
    if slots[i].key in fields then Store(slots[i], fields[slots[i].key], name, p) else p
  }

  /** Rows `i ..` with a dict of maps and a string name, when every fetch
      returns. */
  function Build(slots: seq<Slot>, i: nat, fields: map<string, Json>, name: string, p: Progress): Progress
    requires i <= |slots|
    decreases |slots| - i
  {
    if i == |slots| then p else Build(slots, i + 1, fields, name, Advance(slots, i, fields, name, p))
  }

  /** Every fetch rows `i ..` make returns: each present row whose texture
      is not on disk by its turn has a URL `get` accepts. */
  predicate Fetchable(slots: seq<Slot>, i: nat, fields: map<string, Json>, name: string, p: Progress, get: Json -> bool)
    requires i <= |slots|
    decreases |slots| - i
  {
    || i == |slots|
    || (&& (slots[i].key in fields && LocalPath(name, slots[i].texture) !in p.disk ==> get(fields[slots[i].key]))
        && Fetchable(slots, i + 1, fields, name, Advance(slots, i, fields, name, p), get))
  }

  /** With a dict of maps and a string name the rows return exactly when
      every fetch returns, and then do what `Build` does; otherwise they
      fail on a URL whose fetch raised. */
  lemma {:induction false} PlanRowsBuilds(slots: seq<Slot>, i: nat, fields: map<string, Json>, name: string, p: Progress,
                                          get: Json -> bool)
    requires i <= |slots|
    ensures var r := PlanRows(slots, i, Obj(fields), Str(name), p, get);
            && (r.Ok? <==> Fetchable(slots, i, fields, name, p, get))
            && (r.Ok? ==> r.value == Build(slots, i, fields, name, p))
            && (r.Err? ==> r.error.error.FetchFailed? && !get(r.error.error.url))
    decreases |slots| - i
  {
    if i < |slots| {
      var key := slots[i].key;
      if key in fields {
        var t := TakeSlot(slots[i], fields[key], name, p, get);
        if t.Ok? {
          assert t.value == Advance(slots, i, fields, name, p);
        }
      }
      PlanRowsBuilds(slots, i + 1, fields, name, Advance(slots, i, fields, name, p), get);
    }
  }

  lemma {:induction false} PathsAppend(a: seq<Fetch>, b: seq<Fetch>)
    ensures Paths(a + b) == Paths(a) + Paths(b)
    decreases |a|
  {
    if |a| == 0 {
      assert a + b == b;
    } else {
      assert (a + b)[0] == a[0];
      assert (a + b)[1..] == a[1..] + b;
      PathsAppend(a[1..], b);
    }
  }

  /** Rows `i ..` only append to the fetches, each of a path that was not
      on disk and by a URL whose fetch returned, and whether they return or
      raise they leave the disk as it was plus the paths they fetched. */
  lemma {:induction false} PlanRowsFetches(slots: seq<Slot>, i: nat, maps: Json, name: Json, p: Progress,
                                           get: Json -> bool)
    requires i <= |slots|
    ensures var q := WorkDone(PlanRows(slots, i, maps, name, p, get));
            && |p.fetches| <= |q.fetches|
            && q.fetches[..|p.fetches|] == p.fetches
            && q.disk == p.disk + Paths(q.fetches[|p.fetches|..])
            && (forall k :: |p.fetches| <= k < |q.fetches| ==> q.fetches[k].path !in p.disk && get(q.fetches[k].url))
    decreases |slots| - i
  {
    var q := WorkDone(PlanRows(slots, i, maps, name, p, get));
    if q == p || i == |slots| {
      assert q.fetches[|p.fetches|..] == [];
    } else {
      var slot := slots[i];
      var present := Contains(maps, slot.key).value;
      if !present {
        PlanRowsFetches(slots, i + 1, maps, name, p, get);
      } else {
        var t := TakeSlot(slot, maps.fields[slot.key], name.s, p, get);
        var q1 := t.value;
        PlanRowsFetches(slots, i + 1, maps, name, q1, get);
        assert q == WorkDone(PlanRows(slots, i + 1, maps, name, q1, get));
        var fetched := q1.fetches[|p.fetches|..];
        assert q1.fetches == p.fetches + fetched;
        assert q1.disk == p.disk + Paths(fetched);
        assert q.fetches == q1.fetches + q.fetches[|q1.fetches|..];
        assert q.fetches[|p.fetches|..] == fetched + q.fetches[|q1.fetches|..];
        PathsAppend(fetched, q.fetches[|q1.fetches|..]);
      }
    }
  }

  /** Whether the call returns or raises, it leaves the disk as it was plus
      the paths of the textures it fetched; each was not on disk before and
      was fetched by a URL whose fetch returned. */
  lemma CallKeepsFetches(combination: map<string, Json>, disk: set<string>, get: Json -> bool)
    ensures var q := WorkDone(ApplyStageMaterial(combination, disk, get));
            && q.disk == disk + Paths(q.fetches)
            && (forall k :: 0 <= k < |q.fetches| ==> q.fetches[k].path !in disk && get(q.fetches[k].url))
  {
    var material := StageMaterial(combination);
    if material.Obj? && "maps" in material.fields {
      var p := Progress(BaseGraph, [], disk);
      PlanRowsFetches(MapTable, 0, material.fields["maps"], MaterialName(material.fields), p, get);
      var q := WorkDone(ApplyStageMaterial(combination, disk, get));
      assert q.fetches[|p.fetches|..] == q.fetches;
    }
  }

  /** A diffuse texture that is fetched, then a normal map whose fetch
      raises: the call fails on the second URL, and the diffuse texture
      stays on disk with its image node in the graph. */
  lemma PartialFetchKept(u1: Json, u2: Json, get: Json -> bool)
    requires get(u1) && !get(u2)
    ensures var maps := Obj(map["Diffuse" := u1, "nor_gl" := u2]);
            var r := ApplyStageMaterial(map["stage_material" := Obj(map["maps" := maps])], {}, get);
            && r.Err?
            && r.error.error == FetchFailed(u2)
            && r.error.left.fetches == [Fetch(u1, "materials/DefaultMaterial/Diffuse.jpg")]
            && r.error.left.disk == {"materials/DefaultMaterial/Diffuse.jpg"}
            && r.error.left.graph == AddSlot(BaseGraph, MapTable[0], "materials/DefaultMaterial/Diffuse.jpg")
  {
    var maps := Obj(map["Diffuse" := u1, "nor_gl" := u2]);
    var d := "materials/DefaultMaterial/Diffuse.jpg";
    var p1 := Progress(AddSlot(BaseGraph, MapTable[0], d), [Fetch(u1, d)], {d});
    DiffuseThenNormal(maps.fields, get);
    assert PlanRows(MapTable, 0, maps, Str("DefaultMaterial"), Progress(BaseGraph, [], {}), get)
        == Err(Failure(FetchFailed(u2), p1));
  }

  /** The two rows of `PartialFetchKept`, one at a time. */
  lemma DiffuseThenNormal(fields: map<string, Json>, get: Json -> bool)
    requires "Diffuse" in fields && "nor_gl" in fields
    requires get(fields["Diffuse"]) && !get(fields["nor_gl"])
    ensures var d := "materials/DefaultMaterial/Diffuse.jpg";
            var p1 := Progress(AddSlot(BaseGraph, MapTable[0], d), [Fetch(fields["Diffuse"], d)], {d});
            && PlanRows(MapTable, 0, Obj(fields), Str("DefaultMaterial"), Progress(BaseGraph, [], {}), get)
               == PlanRows(MapTable, 1, Obj(fields), Str("DefaultMaterial"), p1, get)
            && PlanRows(MapTable, 1, Obj(fields), Str("DefaultMaterial"), p1, get)
               == Err(Failure(FetchFailed(fields["nor_gl"]), p1))
  {
    var d := "materials/DefaultMaterial/Diffuse.jpg";
    var p0 := Progress(BaseGraph, [], {});
    var p1 := Progress(AddSlot(BaseGraph, MapTable[0], d), [Fetch(fields["Diffuse"], d)], {d});
    DefaultPaths();
    assert MapTable[0].texture == "Diffuse" && MapTable[1].texture == "Normal";
    assert p0.fetches + [Fetch(fields["Diffuse"], d)] == [Fetch(fields["Diffuse"], d)];
    assert p0.disk + {d} == {d};
    assert TakeSlot(MapTable[0], fields["Diffuse"], "DefaultMaterial", p0, get) == Ok(p1);
    assert TakeSlot(MapTable[1], fields["nor_gl"], "DefaultMaterial", p1, get) == Err(FetchFailed(fields["nor_gl"]));
  }

  /** The diffuse and normal cache paths of `DefaultMaterial`, spelled out;
      they differ. */
  lemma DefaultPaths()
    ensures LocalPath("DefaultMaterial", "Diffuse") == "materials/DefaultMaterial/Diffuse.jpg"
    ensures LocalPath("DefaultMaterial", "Normal") == "materials/DefaultMaterial/Normal.jpg"
    ensures "materials/DefaultMaterial/Diffuse.jpg" != "materials/DefaultMaterial/Normal.jpg"
  {
    DefaultMaterialLayout("Diffuse");
    DefaultMaterialLayout("Normal");
    assert "materials/DefaultMaterial/" + "Diffuse" + ".jpg" == "materials/DefaultMaterial/Diffuse.jpg";
    assert "materials/DefaultMaterial/" + "Normal" + ".jpg" == "materials/DefaultMaterial/Normal.jpg";
    assert "materials/DefaultMaterial/Diffuse.jpg"[26] != "materials/DefaultMaterial/Normal.jpg"[26];
  }


  /** Rows whose textures are all on disk fetch nothing, so no fetch can
      fail, and they leave the disk as it was. */
  lemma {:induction false} WarmRowsFetchNothing(slots: seq<Slot>, i: nat, fields: map<string, Json>, name: string,
                                                p: Progress, get: Json -> bool)
    requires i <= |slots|
    requires forall k :: i <= k < |slots| && slots[k].key in fields ==> LocalPath(name, slots[k].texture) in p.disk
    ensures Fetchable(slots, i, fields, name, p, get)
    ensures Build(slots, i, fields, name, p).fetches == p.fetches
    ensures Build(slots, i, fields, name, p).disk == p.disk
    decreases |slots| - i
  {
    if i < |slots| {
      var q := Advance(slots, i, fields, name, p);
      assert q.fetches == p.fetches && q.disk == p.disk;
      WarmRowsFetchNothing(slots, i + 1, fields, name, q, get);
    }
  }

  /** After rows `i ..`, the texture of every present row is on disk, and
      nothing that was on disk is gone. */
  lemma {:induction false} BuildCaches(slots: seq<Slot>, i: nat, fields: map<string, Json>, name: string, p: Progress)
    requires i <= |slots|
    ensures p.disk <= Build(slots, i, fields, name, p).disk
    ensures forall k :: i <= k < |slots| && slots[k].key in fields ==>
              LocalPath(name, slots[k].texture) in Build(slots, i, fields, name, p).disk
    decreases |slots| - i
  {
    if i < |slots| {
      BuildCaches(slots, i + 1, fields, name, Advance(slots, i, fields, name, p));
    }
  }

  /** A maps value that is not a dict fails as soon as it holds one of the
      table's keys; a number, boolean or null fails on the first `in`. */
  lemma MapsNotADict(combination: map<string, Json>, disk: set<string>, get: Json -> bool)
    requires StageMaterial(combination).Obj?
    requires "maps" in StageMaterial(combination).fields
    ensures var maps := StageMaterial(combination).fields["maps"];
            && (maps.Null? || maps.Bool? || maps.Num? ==>
                  ApplyStageMaterial(combination, disk, get) == Err(Failure(NotIterable, Progress(BaseGraph, [], disk))))
            && (maps.Arr? && Str("Diffuse") in maps.items ==>
                  ApplyStageMaterial(combination, disk, get) == Err(Failure(NotSubscriptable, Progress(BaseGraph, [], disk))))
  {
  }

  // ---------------------------------------------------------------------
  // The cache across calls

  /** A stage material that is a dict, with a dict of maps and a string
      name or none. */
  predicate PlainMaterial(combination: map<string, Json>) {
    && StageMaterial(combination).Obj?
    && "maps" in StageMaterial(combination).fields
    && StageMaterial(combination).fields["maps"].Obj?
    && MaterialName(StageMaterial(combination).fields).Str?
  }

  /** When every texture the maps name is already cached, the call fetches
      nothing and returns, whatever the network does. */
  lemma WarmCacheNeverFetches(combination: map<string, Json>, disk: set<string>, get: Json -> bool)
    requires PlainMaterial(combination)
    requires var material := StageMaterial(combination).fields;
             forall k :: 0 <= k < |MapTable| && MapTable[k].key in material["maps"].fields ==>
               LocalPath(MaterialName(material).s, MapTable[k].texture) in disk
    ensures var r := ApplyStageMaterial(combination, disk, get);
            r.Ok? && r.value.fetches == [] && r.value.disk == disk
  {
    var material := StageMaterial(combination).fields;
    var p := Progress(BaseGraph, [], disk);
    PlanRowsBuilds(MapTable, 0, material["maps"].fields, MaterialName(material).s, p, get);
    WarmRowsFetchNothing(MapTable, 0, material["maps"].fields, MaterialName(material).s, p, get);
  }

  /** A second call on the disk a returned call left behind fetches
      nothing and returns, whatever the network does, with the same nodes
      and links. */
  lemma SecondPlanIsCached(combination: map<string, Json>, disk: set<string>, get1: Json -> bool, get2: Json -> bool)
    requires PlainMaterial(combination)
    ensures var first := ApplyStageMaterial(combination, disk, get1);
            first.Ok? ==>
              var second := ApplyStageMaterial(combination, first.value.disk, get2);
              && second.Ok?
              && second.value.fetches == []
              && second.value.disk == first.value.disk
              && second.value.graph == first.value.graph
  {
    var material := StageMaterial(combination).fields;
    var fields := material["maps"].fields;
    var name := MaterialName(material).s;
    var p := Progress(BaseGraph, [], disk);
    PlanRowsBuilds(MapTable, 0, fields, name, p, get1);
    var first := ApplyStageMaterial(combination, disk, get1);
    if first.Ok? {
      BuildCaches(MapTable, 0, fields, name, p);
      var warm := Build(MapTable, 0, fields, name, p).disk;
      WarmCacheNeverFetches(combination, warm, get2);
      PlanRowsBuilds(MapTable, 0, fields, name, Progress(BaseGraph, [], warm), get2);
      SameGraph(MapTable, 0, fields, name, p, Progress(BaseGraph, [], warm));
    }
  }

  /** The nodes and links the rows make do not depend on the disk. */
  lemma {:induction false} SameGraph(slots: seq<Slot>, i: nat, fields: map<string, Json>, name: string, p: Progress, q: Progress)
    requires i <= |slots| && p.graph == q.graph
    ensures Build(slots, i, fields, name, p).graph == Build(slots, i, fields, name, q).graph
    decreases |slots| - i
  {
    if i < |slots| {
      SameGraph(slots, i + 1, fields, name, Advance(slots, i, fields, name, p), Advance(slots, i, fields, name, q));
    }
  }

  // ---------------------------------------------------------------------
  // Unrecognised keys

  /** Two maps dicts agree on rows `i ..` of the table. */
  predicate AgreeFrom(slots: seq<Slot>, i: nat, f1: map<string, Json>, f2: map<string, Json>)
    requires i <= |slots|
  {
    forall k :: i <= k < |slots| ==>
      (slots[k].key in f1 <==> slots[k].key in f2)
      && (slots[k].key in f1 ==> f1[slots[k].key] == f2[slots[k].key])
  }

  /** Keys outside the table are ignored: maps that agree on the six keys
      give the same outcome. */
  lemma {:induction false} PlanIgnoresOtherKeys(slots: seq<Slot>, i: nat, f1: map<string, Json>, f2: map<string, Json>,
                                                name: Json, p: Progress, get: Json -> bool)
    requires i <= |slots|
    requires AgreeFrom(slots, i, f1, f2)
    ensures PlanRows(slots, i, Obj(f1), name, p, get) == PlanRows(slots, i, Obj(f2), name, p, get)
    decreases |slots| - i
  {
    if i < |slots| {
      var key := slots[i].key;
      assert Contains(Obj(f1), key) == Contains(Obj(f2), key);
      if key in f1 && name.Str? {
        var t := TakeSlot(slots[i], f1[key], name.s, p, get);
        if t.Ok? {
          PlanIgnoresOtherKeys(slots, i + 1, f1, f2, name, t.value, get);
        }
      } else if key !in f1 {
        PlanIgnoresOtherKeys(slots, i + 1, f1, f2, name, p, get);
      }
    }
  }

  lemma ApplyIgnoresOtherKeys(c1: map<string, Json>, c2: map<string, Json>, disk: set<string>, get: Json -> bool)
    requires StageMaterial(c1).Obj? && StageMaterial(c2).Obj?
    requires "maps" in StageMaterial(c1).fields && "maps" in StageMaterial(c2).fields
    requires StageMaterial(c1).fields["maps"].Obj? && StageMaterial(c2).fields["maps"].Obj?
    requires MaterialName(StageMaterial(c1).fields) == MaterialName(StageMaterial(c2).fields)
    requires AgreeFrom(MapTable, 0, StageMaterial(c1).fields["maps"].fields, StageMaterial(c2).fields["maps"].fields)
    ensures ApplyStageMaterial(c1, disk, get) == ApplyStageMaterial(c2, disk, get)
  {
    PlanIgnoresOtherKeys(MapTable, 0, StageMaterial(c1).fields["maps"].fields, StageMaterial(c2).fields["maps"].fields,
                         MaterialName(StageMaterial(c1).fields), Progress(BaseGraph, [], disk), get);
  }

  // ---------------------------------------------------------------------
  // What the plan makes, stated over the present rows

  /** A table row, kept when the maps dict holds its key. */
  function Keep(slot: Slot, fields: map<string, Json>): seq<Slot> {
    if slot.key in fields then [slot] else []
  }

  /** Rows `i ..` whose key the maps dict holds, in table order. */
  function PresentFrom(slots: seq<Slot>, i: nat, fields: map<string, Json>): seq<Slot>
    requires i <= |slots|
    decreases |slots| - i
  {
    if i == |slots| then [] else Keep(slots[i], fields) + PresentFrom(slots, i + 1, fields)
  }

  /** The nodes a list of present slots adds, in order. */
  function AddedNodes(ps: seq<Slot>, name: string): seq<NodeType>
    decreases |ps|
  {
    if |ps| == 0 then [] else SlotNodes(ps[0], LocalPath(name, ps[0].texture)) + AddedNodes(ps[1..], name)
  }

  /** The paths of the images in a node list, in order. */
  function ImagePaths(nodes: seq<NodeType>): seq<string>
    decreases |nodes|
  {
    if |nodes| == 0 then []
    else (if nodes[0].TexImage? then [nodes[0].image] else []) + ImagePaths(nodes[1..])
  }

  /** How many nodes of a kind without payload a node list holds. */
  function CountKind(nodes: seq<NodeType>, kind: NodeType): nat
    decreases |nodes|
  {
    if |nodes| == 0 then 0 else (if nodes[0] == kind then 1 else 0) + CountKind(nodes[1..], kind)
  }

  /** Whether a slot bridges through a node of `kind`. */
  predicate BridgesVia(slot: Slot, kind: NodeType) {
    slot.bridge.Some? && slot.bridge.value.kind == kind
  }

  /** How many present slots bridge through a node of `kind`. */
  function CountBridges(ps: seq<Slot>, kind: NodeType): nat
    decreases |ps|
  {
    if |ps| == 0 then 0 else (if BridgesVia(ps[0], kind) then 1 else 0) + CountBridges(ps[1..], kind)
  }

  /** The cache paths of the present slots' textures, in order. */
  function TexturePaths(ps: seq<Slot>, name: string): seq<string>
    decreases |ps|
  {
    if |ps| == 0 then [] else [LocalPath(name, ps[0].texture)] + TexturePaths(ps[1..], name)
  }

  /** No slot of the list bridges through an image node. */
  predicate NoImageBridges(ps: seq<Slot>)
    decreases |ps|
  {
    |ps| == 0 || ((ps[0].bridge.Some? ==> !ps[0].bridge.value.kind.TexImage?) && NoImageBridges(ps[1..]))
  }

  lemma {:induction false} ImagePathsAppend(a: seq<NodeType>, b: seq<NodeType>)
    ensures ImagePaths(a + b) == ImagePaths(a) + ImagePaths(b)
    decreases |a|
  {
    if |a| == 0 {
      assert a + b == b;
    } else {
      assert (a + b)[0] == a[0];
      assert (a + b)[1..] == a[1..] + b;
      ImagePathsAppend(a[1..], b);
    }
  }

  lemma {:induction false} CountKindAppend(a: seq<NodeType>, b: seq<NodeType>, kind: NodeType)
    ensures CountKind(a + b, kind) == CountKind(a, kind) + CountKind(b, kind)
    decreases |a|
  {
    if |a| == 0 {
      assert a + b == b;
    } else {
      assert (a + b)[0] == a[0];
      assert (a + b)[1..] == a[1..] + b;
      CountKindAppend(a[1..], b, kind);
    }
  }

  /** One present slot adds one image, at its path, and its bridge node. */
  lemma SlotNodesContent(slot: Slot, path: string, kind: NodeType)
    requires slot.bridge.Some? ==> !slot.bridge.value.kind.TexImage?
    requires !kind.TexImage?
    ensures ImagePaths(SlotNodes(slot, path)) == [path]
    ensures CountKind(SlotNodes(slot, path), kind) == if BridgesVia(slot, kind) then 1 else 0
  {
    var nodes := SlotNodes(slot, path);
    assert nodes[0] == TexImage(path);
    if slot.bridge.Some? {
      var rest := nodes[1..];
      assert rest == [slot.bridge.value.kind];
      assert rest[1..] == [];
      assert ImagePaths(rest) == [];
      assert CountKind(rest, kind) == if slot.bridge.value.kind == kind then 1 else 0;
    } else {
      assert nodes[1..] == [];
    }
  }

  /** The added nodes hold one image per present slot, at that slot's cache
      path, in order. */
  lemma {:induction false} AddedImages(ps: seq<Slot>, name: string)
    requires NoImageBridges(ps)
    ensures ImagePaths(AddedNodes(ps, name)) == TexturePaths(ps, name)
    decreases |ps|
  {
    if |ps| > 0 {
      var first := SlotNodes(ps[0], LocalPath(name, ps[0].texture));
      AddedImages(ps[1..], name);
      ImagePathsAppend(first, AddedNodes(ps[1..], name));
      SlotNodesContent(ps[0], LocalPath(name, ps[0].texture), Mapping);
    }
  }

  /** The added nodes hold one bridge node per bridging present slot. */
  lemma {:induction false} AddedBridges(ps: seq<Slot>, name: string, kind: NodeType)
    requires NoImageBridges(ps)
    requires !kind.TexImage?
    ensures CountKind(AddedNodes(ps, name), kind) == CountBridges(ps, kind)
    decreases |ps|
  {
    if |ps| > 0 {
      var first := SlotNodes(ps[0], LocalPath(name, ps[0].texture));
      AddedBridges(ps[1..], name, kind);
      CountKindAppend(first, AddedNodes(ps[1..], name), kind);
      SlotNodesContent(ps[0], LocalPath(name, ps[0].texture), kind);
    }
  }

  /** Every row feeds the output or the principled node, and no bridge is
      an image node. */
  predicate Shaped(slots: seq<Slot>) {
    forall k :: 0 <= k < |slots| ==>
      slots[k].dest.node < MappingNode && (slots[k].bridge.Some? ==> !slots[k].bridge.value.kind.TexImage?)
  }

  lemma {:induction false} PresentNoImageBridges(slots: seq<Slot>, i: nat, fields: map<string, Json>)
    requires i <= |slots| && Shaped(slots)
    ensures NoImageBridges(PresentFrom(slots, i, fields))
    decreases |slots| - i
  {
    if i < |slots| {
      PresentNoImageBridges(slots, i + 1, fields);
      var ps := PresentFrom(slots, i, fields);
      if slots[i].key in fields {
        assert ps[0] == slots[i] && ps[1..] == PresentFrom(slots, i + 1, fields);
      } else {
        assert ps == PresentFrom(slots, i + 1, fields);
      }
    }
  }

  /** Counting bridges over rows `i ..`: the one row that bridges via `kind`
      counts when its key is present. */
  lemma {:induction false} PresentBridges(slots: seq<Slot>, i: nat, fields: map<string, Json>, kind: NodeType, row: nat)
    requires i <= |slots| && row < |slots|
    requires forall k :: 0 <= k < |slots| ==> (BridgesVia(slots[k], kind) <==> k == row)
    ensures CountBridges(PresentFrom(slots, i, fields), kind) == if i <= row && slots[row].key in fields then 1 else 0
    decreases |slots| - i
  {
    if i < |slots| {
      PresentBridges(slots, i + 1, fields, kind, row);
      var ps := PresentFrom(slots, i, fields);
      if slots[i].key in fields {
        assert ps[0] == slots[i] && ps[1..] == PresentFrom(slots, i + 1, fields);
      } else {
        assert ps == PresentFrom(slots, i + 1, fields);
      }
    }
  }

  /** Every link joins two nodes that exist, and every image node takes its
      coordinates from the mapping node. */
  predicate WellLinked(g: Graph) {
    && |g.nodes| > MappingNode
    && (forall l :: l in g.links ==> l.from.node < |g.nodes| && l.to.node < |g.nodes|)
    && (forall t :: 0 <= t < |g.nodes| && g.nodes[t].TexImage? ==>
          Link(Socket(MappingNode, "Vector"), Socket(t, "Vector")) in g.links)
  }

  lemma AddSlotKeepsLinks(g: Graph, slot: Slot, path: string)
    requires WellLinked(g)
    requires slot.dest.node < |g.nodes|
    requires slot.bridge.Some? ==> !slot.bridge.value.kind.TexImage?
    ensures WellLinked(AddSlot(g, slot, path))
  {
    var h := AddSlot(g, slot, path);
    var t := |g.nodes|;
    assert h.nodes[t] == TexImage(path);
    assert h.links == g.links + SlotLinks(slot, t);
    assert SlotLinks(slot, t)[0] in h.links;
    forall u | 0 <= u < |h.nodes| && h.nodes[u].TexImage?
      ensures Link(Socket(MappingNode, "Vector"), Socket(u, "Vector")) in h.links
    {
      if u < t {
        assert h.nodes[u] == g.nodes[u];
        assert Link(Socket(MappingNode, "Vector"), Socket(u, "Vector")) in g.links;
      }
    }
  }

  /** Rows `i ..` add the present rows' nodes after the nodes already
      made. */
  lemma {:induction false} BuildNodes(slots: seq<Slot>, i: nat, fields: map<string, Json>, name: string, p: Progress)
    requires i <= |slots|
    ensures Build(slots, i, fields, name, p).graph.nodes == p.graph.nodes + AddedNodes(PresentFrom(slots, i, fields), name)
    decreases |slots| - i
  {
    if i < |slots| {
      var q := Advance(slots, i, fields, name, p);
      BuildNodes(slots, i + 1, fields, name, q);
      AddedNodesStep(slots, i, fields, name);
      var tail := AddedNodes(PresentFrom(slots, i + 1, fields), name);
      if slots[i].key in fields {
        var added := SlotNodes(slots[i], LocalPath(name, slots[i].texture));
        assert q.graph.nodes == p.graph.nodes + added;
        assert (p.graph.nodes + added) + tail == p.graph.nodes + (added + tail);
      } else {
        assert [] + tail == tail;
      }
    }
  }

  /** The nodes of rows `i ..`: row `i`'s, if present, then the rest. */
  lemma AddedNodesStep(slots: seq<Slot>, i: nat, fields: map<string, Json>, name: string)
    requires i < |slots|
    ensures AddedNodes(PresentFrom(slots, i, fields), name)
              == (if slots[i].key in fields then SlotNodes(slots[i], LocalPath(name, slots[i].texture)) else [])
                 + AddedNodes(PresentFrom(slots, i + 1, fields), name)
  {
    var ps := PresentFrom(slots, i, fields);
    if slots[i].key in fields {
      assert ps[0] == slots[i] && ps[1..] == PresentFrom(slots, i + 1, fields);
    } else {
      assert ps == PresentFrom(slots, i + 1, fields);
    }
  }

  /** Rows `i ..` only add links after the ones already made. */
  lemma {:induction false} BuildKeepsLinks(slots: seq<Slot>, i: nat, fields: map<string, Json>, name: string, p: Progress)
    requires i <= |slots|
    ensures var r := Build(slots, i, fields, name, p);
            |r.graph.links| >= |p.graph.links| && r.graph.links[..|p.graph.links|] == p.graph.links
    decreases |slots| - i
  {
    if i < |slots| {
      var q := Advance(slots, i, fields, name, p);
      BuildKeepsLinks(slots, i + 1, fields, name, q);
      var r := Build(slots, i + 1, fields, name, q);
      assert q.graph.links[..|p.graph.links|] == p.graph.links;
      assert r.graph.links[..|p.graph.links|] == r.graph.links[..|q.graph.links|][..|p.graph.links|];
    }
  }

  /** Rows `i ..` keep the graph well linked. */
  lemma {:induction false} BuildWellLinked(slots: seq<Slot>, i: nat, fields: map<string, Json>, name: string, p: Progress)
    requires i <= |slots| && Shaped(slots)
    requires WellLinked(p.graph)
    ensures WellLinked(Build(slots, i, fields, name, p).graph)
    decreases |slots| - i
  {
    if i < |slots| {
      if slots[i].key in fields {
        AddSlotKeepsLinks(p.graph, slots[i], LocalPath(name, slots[i].texture));
      }
      BuildWellLinked(slots, i + 1, fields, name, Advance(slots, i, fields, name, p));
    }
  }

  /** The stage material's node plan, for a dict of maps and a string name:
      the four fixed nodes come first, then one image node per table key
      present, in table order, each loading that key's cache path. */
  lemma StagePlanNodes(combination: map<string, Json>, disk: set<string>, get: Json -> bool)
    requires PlainMaterial(combination)
    ensures var material := StageMaterial(combination).fields;
            var r := ApplyStageMaterial(combination, disk, get);
            r.Ok? ==>
            && |r.value.graph.nodes| >= 4
            && r.value.graph.nodes[..4] == [OutputMaterial, BsdfPrincipled, TexCoord, Mapping]
            && ImagePaths(r.value.graph.nodes)
                 == TexturePaths(PresentFrom(MapTable, 0, material["maps"].fields), MaterialName(material).s)
  {
    var material := StageMaterial(combination).fields;
    var fields := material["maps"].fields;
    var name := MaterialName(material).s;
    PlanRowsBuilds(MapTable, 0, fields, name, Progress(BaseGraph, [], disk), get);
    BuildNodes(MapTable, 0, fields, name, Progress(BaseGraph, [], disk));
    var ps := PresentFrom(MapTable, 0, fields);
    MapTableRows();
    PresentNoImageBridges(MapTable, 0, fields);
    AddedImages(ps, name);
    ImagePathsAppend(BaseGraph.nodes, AddedNodes(ps, name));
  }

  /** Without a 'name' the images are loaded from the cache directory of
      `DefaultMaterial`. */
  lemma StagePlanDefaultName(combination: map<string, Json>, disk: set<string>, get: Json -> bool)
    requires StageMaterial(combination).Obj?
    requires "name" !in StageMaterial(combination).fields
    requires "maps" in StageMaterial(combination).fields
    requires StageMaterial(combination).fields["maps"].Obj?
    ensures var fields := StageMaterial(combination).fields["maps"].fields;
            var r := ApplyStageMaterial(combination, disk, get);
            r.Ok? ==> ImagePaths(r.value.graph.nodes) == TexturePaths(PresentFrom(MapTable, 0, fields), "DefaultMaterial")
  {
    StagePlanNodes(combination, disk, get);
  }

  /** The default material's cache directory, spelled out. */
  lemma DefaultMaterialLayout(texture: string)
    requires !StartsWithSlash(texture)
    ensures LocalPath("DefaultMaterial", texture) == "materials/DefaultMaterial/" + texture + ".jpg"
  {
    LocalPathLayout("DefaultMaterial", texture);
  }

  /** One normal-map node exactly when `nor_gl` is present, one displacement
      node exactly when `Displacement` is. */
  lemma StagePlanBridges(combination: map<string, Json>, disk: set<string>, get: Json -> bool)
    requires PlainMaterial(combination)
    ensures var fields := StageMaterial(combination).fields["maps"].fields;
            var r := ApplyStageMaterial(combination, disk, get);
            r.Ok? ==>
            && CountKind(r.value.graph.nodes, NormalMap) == (if "nor_gl" in fields then 1 else 0)
            && CountKind(r.value.graph.nodes, DisplacementNode) == (if "Displacement" in fields then 1 else 0)
  {
    var material := StageMaterial(combination).fields;
    var fields := material["maps"].fields;
    var name := MaterialName(material).s;
    MapTableRows();
    PlanRowsBuilds(MapTable, 0, fields, name, Progress(BaseGraph, [], disk), get);
    RowBridgeCount(MapTable, fields, name, disk, NormalMap, 1);
    RowBridgeCount(MapTable, fields, name, disk, DisplacementNode, 4);
  }

  /** The bridge nodes of one kind that a table builds, when exactly one row
      bridges through that kind. */
  lemma RowBridgeCount(slots: seq<Slot>, fields: map<string, Json>, name: string, disk: set<string>, kind: NodeType, row: nat)
    requires Shaped(slots) && row < |slots| && (kind == NormalMap || kind == DisplacementNode)
    requires forall k :: 0 <= k < |slots| ==> (BridgesVia(slots[k], kind) <==> k == row)
    ensures CountKind(Build(slots, 0, fields, name, Progress(BaseGraph, [], disk)).graph.nodes, kind)
              == if slots[row].key in fields then 1 else 0
  {
    BuildNodes(slots, 0, fields, name, Progress(BaseGraph, [], disk));
    AddedRowBridges(slots, fields, name, kind, row);
  }

  lemma AddedRowBridges(slots: seq<Slot>, fields: map<string, Json>, name: string, kind: NodeType, row: nat)
    requires Shaped(slots) && row < |slots| && (kind == NormalMap || kind == DisplacementNode)
    requires forall k :: 0 <= k < |slots| ==> (BridgesVia(slots[k], kind) <==> k == row)
    ensures CountKind(BaseGraph.nodes + AddedNodes(PresentFrom(slots, 0, fields), name), kind)
              == if slots[row].key in fields then 1 else 0
  {
    var added := AddedNodes(PresentFrom(slots, 0, fields), name);
    PresentNoImageBridges(slots, 0, fields);
    PresentBridges(slots, 0, fields, kind, row);
    AddedBridges(PresentFrom(slots, 0, fields), name, kind);
    CountKindAppend(BaseGraph.nodes, added, kind);
    assert CountKind(BaseGraph.nodes, kind) == 0;
  }

  /** The map table is shaped; only row 1 (`nor_gl`) bridges through a
      normal map and only row 4 (`Displacement`) through a displacement
      node. */
  lemma MapTableRows()
    ensures Shaped(MapTable) && |MapTable| == 6
    ensures forall k :: 0 <= k < |MapTable| ==> (BridgesVia(MapTable[k], NormalMap) <==> k == 1)
    ensures forall k :: 0 <= k < |MapTable| ==> (BridgesVia(MapTable[k], DisplacementNode) <==> k == 4)
    ensures MapTable[1].key == "nor_gl" && MapTable[4].key == "Displacement"
  {
  }

  /** The links of the plan: the UV link comes first and the BSDF-to-surface
      link last; every link joins nodes that exist, and every image node is
      fed by the mapping node. */
  lemma StagePlanLinks(combination: map<string, Json>, disk: set<string>, get: Json -> bool)
    requires PlainMaterial(combination)
    ensures var r := ApplyStageMaterial(combination, disk, get);
            r.Ok? ==>
            && |r.value.graph.links| >= 2
            && r.value.graph.links[0] == Link(Socket(TexCoordNode, "UV"), Socket(MappingNode, "Vector"))
            && r.value.graph.links[|r.value.graph.links| - 1] == SurfaceLink
            && WellLinked(r.value.graph)
  {
    var material := StageMaterial(combination).fields;
    var fields := material["maps"].fields;
    var name := MaterialName(material).s;
    var p := Progress(BaseGraph, [], disk);
    PlanRowsBuilds(MapTable, 0, fields, name, p, get);
    BuildKeepsLinks(MapTable, 0, fields, name, p);
    MapTableRows();
    BuildWellLinked(MapTable, 0, fields, name, p);
    var q := Build(MapTable, 0, fields, name, p);
    assert q.graph.links[0] == BaseGraph.links[0];
    var g := q.graph.(links := q.graph.links + [SurfaceLink]);
    forall l | l in g.links ensures l.from.node < |g.nodes| && l.to.node < |g.nodes| {
      if l !in q.graph.links {
        assert l == SurfaceLink;
      }
    }
  }
}
