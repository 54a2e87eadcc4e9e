/** `load_object` in `simian/object.py`: the importer is picked from the
    file extension and called with a keyword shape that depends on it. The
    Blender operators themselves are names here; what they import is not
    modelled. */
module Importers {
  import opened Outcomes

  /** The index of the last '.' among the first `n` characters, or -1 when
      there is none. */
  function LastDot(path: string, n: nat): (d: int)
    requires n <= |path|
    ensures -1 <= d < n
    ensures d >= 0 ==> path[d] == '.'
    ensures forall k :: d < k < n ==> path[k] != '.'
    decreases n
  {
    if n == 0 then -1 else if path[n - 1] == '.' then n - 1 else LastDot(path, n - 1)
  }

  /** The text after the last '.', or the whole path when it has none:
      `path.split(".")[-1]`. */
  function LastSegment(path: string): string {
    path[LastDot(path, |path|) + 1..]
  }

  /** The segment holds no '.', and it is either the whole path, which then
      has none either, or what follows a '.' in it. */
  lemma SegmentSplitsPath(path: string)
    ensures var seg := LastSegment(path);
            && '.' !in seg
            && (|| ('.' !in path && seg == path)
                || (|seg| < |path| && path == path[..|path| - |seg| - 1] + "." + seg))
  {
    var d := LastDot(path, |path|);
    var seg := LastSegment(path);
    forall j | 0 <= j < |seg| ensures seg[j] != '.' {
      assert seg[j] == path[d + 1 + j];
    }
    if d >= 0 {
      assert path == path[..d] + [path[d]] + seg;
    } else {
      assert seg == path;
    }
  }

  /** ASCII lower-casing of one character. */
  function LowerChar(c: char): char {
    if 'A' <= c <= 'Z' then (c as int - 'A' as int + 'a' as int) as char else c
  }

  function Lower(s: string): (r: string)
    ensures |r| == |s| && forall k :: 0 <= k < |s| ==> r[k] == LowerChar(s[k])
  {
    seq(|s|, k requires 0 <= k < |s| => LowerChar(s[k]))
  }

  /** Lower-casing leaves no upper-case letter, keeps every other
      character, and so changes nothing the second time. */
  lemma LowerIsLowerCase(s: string)
    ensures forall k :: 0 <= k < |s| ==> !('A' <= Lower(s)[k] <= 'Z')
    ensures forall k :: 0 <= k < |s| && !('A' <= s[k] <= 'Z') ==> Lower(s)[k] == s[k]
    ensures Lower(Lower(s)) == Lower(s)
  {
  }

  /** The file extension `load_object` looks up. */
  function Extension(path: string): string {
    Lower(LastSegment(path))
  }

  /** Lower-casing never makes a '.', so the extension holds none either, and
      it has exactly the characters of the last segment up to case. */
  lemma ExtensionIsLastSegment(path: string)
    ensures var ext := Extension(path);
            && '.' !in ext
            && |ext| == |LastSegment(path)|
            && Lower(ext) == ext
  {
    var seg := LastSegment(path);
    var ext := Extension(path);
    SegmentSplitsPath(path);
    forall k | 0 <= k < |ext| ensures ext[k] != '.' && LowerChar(ext[k]) == ext[k] {
      assert seg[k] in seg;
    }
  }

  /** The Blender operators of `IMPORT_FUNCTIONS`. */
  datatype Operator =
    | ImportObj | ImportGltf | ImportUsd | ImportFbx | ImportStl | ImportUsda
    | ColladaImport | ImportPly | AlembicImport | Append

  /** `IMPORT_FUNCTIONS`: eleven extensions, glb and gltf sharing the glTF
      importer. */
  const ImportFunctions: map<string, Operator> := map[
    "obj" := ImportObj, "glb" := ImportGltf, "gltf" := ImportGltf, "usd" := ImportUsd,
    "fbx" := ImportFbx, "stl" := ImportStl, "usda" := ImportUsda, "dae" := ColladaImport,
    "ply" := ImportPly, "abc" := AlembicImport, "blend" := Append]

  /** The keyword arguments of one importer call. */
  datatype Arguments =
    | Directory(directory: string, link: bool)
    | FilePath(filepath: string)
    | FilePathMerged(filepath: string, mergeVertices: bool)

  datatype Call = Call(op: Operator, args: Arguments)

  /** Why loading fails: the extension is not a key of the table. */
  datatype LoadError = KeyError(extension: string)

  /** `load_object(object_path)`. The `is None` test never holds, since
      `split` always yields a string, so an unknown extension surfaces as
      the dictionary's key error. */
  function LoadObject(path: string): Result<Call, LoadError> {
    var ext := Extension(path);
    if ext !in ImportFunctions then Err(KeyError(ext))
    else
      var op := ImportFunctions[ext];
      if ext == "blend" then Ok(Call(op, Directory(path, false)))
      else if ext in {"glb", "gltf"} then Ok(Call(op, FilePathMerged(path, true)))
      else Ok(Call(op, FilePath(path)))
  }

  /** The path's extension decides everything: loading fails exactly for the
      extensions outside the table; the blend appender is the only operator
      called with a directory, never linking; the glTF importer alone merges
      vertices; and every call is given the path unchanged. */
  lemma LoadObjectCalls(path: string)
    ensures var ext := Extension(path);
            var r := LoadObject(path);
            && (r.Err? <==> ext !in ImportFunctions)
            && (r.Err? ==> r.error.extension == ext)
            && (r.Ok? ==> r.value.op == ImportFunctions[ext])
            && (r.Ok? ==> (r.value.args.Directory? <==> r.value.op == Append))
            && (r.Ok? ==> (r.value.args.FilePathMerged? <==> r.value.op == ImportGltf))
            && (r.Ok? && r.value.args.Directory? ==> r.value.args.directory == path && !r.value.args.link)
            && (r.Ok? && !r.value.args.Directory? ==> r.value.args.filepath == path)
            && (r.Ok? && r.value.args.FilePathMerged? ==> r.value.args.mergeVertices)
  {
    var ext := Extension(path);
    if ext in ImportFunctions {
      TableInverse(ext);
    }
  }

  /** Reading the table backwards: the appender is reached only from
      "blend", the glTF importer only from "glb" and "gltf". */
  lemma TableInverse(ext: string)
    requires ext in ImportFunctions
    ensures ImportFunctions[ext] == Append <==> ext == "blend"
    ensures ImportFunctions[ext] == ImportGltf <==> ext in {"glb", "gltf"}
  {
  }

  /** Upper-case extensions load like lower-case ones: `scene.GLB` and
      `scene.glb` make the same call apart from the path. */
  lemma LoadIgnoresCase(path: string, stem: string, raw: string)
    requires path == stem + "." + raw
    requires '.' !in raw
    ensures Extension(path) == Lower(raw)
    ensures LoadObject(path).Ok? <==> Lower(raw) in ImportFunctions
  {
    var d := LastDot(path, |path|);
    var dot := |stem|;
    assert path[dot] == '.';
    forall k | dot < k < |path| ensures path[k] != '.' {
      assert path[k] == raw[k - dot - 1];
    }
    assert LastSegment(path) == path[dot + 1..] == raw;
  }
}
