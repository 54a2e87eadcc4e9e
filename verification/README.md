# Simian decision logic in Dafny

Simian builds synthetic 3D scenes in Blender and has their captions
rewritten by a chat model. This project models the parts of it that decide
something, with the Blender, network and model calls passed in as parameters
or left out:

- **Caption batching and patching** (`scripts/openai_rephrase.py`). Module
  `CaptionText` covers the `", "` split and the newline strip of
  `rewrite_caption`. `CaptionFile` treats `combinations.json` as a JSON value,
  with reading the captions out and patching a run of captions in place.
  `Batching` covers the greedy token-budget loop of
  `rewrite_captions_in_batches`. The tokenizer is a function
  `cost: string -> nat`. The chat model samples at temperature 1, so it is an
  oracle from the number of the call, the context, the split captions and
  the completion limit to a reply string: two calls on the same batch may
  answer differently. The oracle answers none when the call raises or the
  reply message has no content, and the run then aborts with `CallFailed`.
  `json.loads` is a partial function from strings to JSON values.
- **Grid placement** (`simian/position.py`, module `Position`). It covers the
  largest-footprint fold and the 3×3 placement table, including the error
  that line 69 raises.
- **Object rules** (`simian/object.py`). `Importers` covers extension
  dispatch in `load_object`. `Hierarchy` works over an object tree with
  world-space corners: pre-order mesh collection, the hierarchy bounding
  box, the join decision and the scale ratio. `SceneObjects` covers the two
  deletion rules, lock and unlock, and the terrain-hit preference. The k-th
  ray cast's reply is a parameter.
- **Stage material** (`simian/scene.py`, module `Stage`). It covers the
  texture cache of `download_texture`, with the disk as a set of paths, and
  the node plan of `apply_stage_material`: which nodes and links are made,
  and which textures are fetched. Whether `requests.get(url)` returns is a
  predicate `get` on URLs; a fetch that raises ends the call with
  `FetchFailed`. A call that raises still leaves behind the nodes it made
  and the textures it wrote to disk before the error.

Shared modules:
- `Outcomes` holds `Option` and `Result`. Every Python exception the model
  keeps becomes an `Err`.
- `JsonValues` holds JSON values.
- `Geometry` holds points and boxes over `real`.

Where the code and its documentation disagree, the model follows the code:

- `place_objects_on_grid` never places anything.
  - The documented behaviour is cell centre = `(lookup[code] + 0.1) * largest_length`.
  - As written, line 69 adds a float to the looked-up tuple, so every object
    with a valid placement raises `TypeError`. `Position.PlaceOne` returns
    that error.
- The batch budget charges the context cost twice: once in
  `INPUT_TOKEN_LIMIT = (16385 - ctx) // 2` (line 85), and again in the
  admission test `running + cost + ctx + 1000 < INPUT_TOKEN_LIMIT` at line 98.
  The print at line 103 reports that doubled bound,
  `INPUT_TOKEN_LIMIT - ctx`. So a batch's captions cost less than
  `(16385 - ctx) // 2 - ctx - 1000`, and that is what
  `Batching.BatchWithinBudget` states.
- Batches cover every caption only when each caption fits on its own.
  - The documented rule: batches cover every caption exactly once.
  - As written, a caption that alone fails the admission test gives an empty
    batch, and `i` stops advancing. From then on every pass of the outer
    loop asks the model again about the empty batch and writes its reply at
    that caption. The loop ends only when such a pass raises. `Batching.RunFrom`
    stops at the first such pass with the outcome `Stuck`.
    `Batching.StuckPasses` carries the loop on for any number of further
    passes. `Batching.StuckLoopRunsOn` shows that it can go on forever.
- `load_object` never raises `ValueError`.
  - Its docstring says it does, for an unsupported extension.
  - The `is None` test at line 56 can never hold, so an unknown extension
    fails as the table lookup's `KeyError` instead.

## Model

| member | source | states |
|---|---|---|
| CaptionText.FirstSep | scripts/openai_rephrase.py:15 | the leftmost `", "` in the caption, or none exactly when the caption holds no separator |
| CaptionText.Split | scripts/openai_rephrase.py:15 | `caption.split(', ')` gives at least one part, and no part contains the separator |
| CaptionText.JoinSplit | scripts/openai_rephrase.py:15 | joining the split parts with `", "` gives the caption back |
| CaptionText.SplitJoin | scripts/openai_rephrase.py:15 | any non-empty list of separator-free parts is what splitting their join returns (the inverse direction) |
| CaptionText.SplitAll | scripts/openai_rephrase.py:15-16 | one part list per caption of the batch, each joining back to its caption |
| CaptionText.StripNewlines | scripts/openai_rephrase.py:32 | the cleaned reply holds no newline and is no longer than the raw one |
| CaptionText.StripNewlinesAppend | scripts/openai_rephrase.py:32 | removing newlines distributes over concatenation |
| CaptionText.StripNewlinesKeeps | scripts/openai_rephrase.py:32 | every non-newline character is kept with its count, no newline is left, and a reply without newlines is unchanged |
| CaptionFile.FirstNonRecord | scripts/openai_rephrase.py:46-47 | the first element of `combinations` that is not a dict, or none exactly when all are dicts |
| CaptionFile.ReadCaptions | scripts/openai_rephrase.py:40-50 | a well-formed document yields one caption (or null) per record, in record order; a non-dict document or a non-dict record fails |
| CaptionFile.PatchSpec | scripts/openai_rephrase.py:59-63 | the patch loop succeeds iff every slot `i .. i+len(r)` is a record; it then sets exactly those captions to `r` in order and keeps every other record; otherwise it fails at the first bad slot |
| CaptionFile.PatchAppend | scripts/openai_rephrase.py:59-63 | two writes to adjacent ranges equal one write of the concatenated replies |
| CaptionFile.ReplyItems | scripts/openai_rephrase.py:60-62 | what `len(r)` and `r[j]` see: a list as is, a string character by character, an empty dict as nothing; other replies fail |
| CaptionFile.WriteToFile | scripts/openai_rephrase.py:53-69 | a non-dict document or an unusable reply fails; an empty reply leaves the document's content as it was, except that a missing `combinations` becomes null |
| CaptionFile.WriteListReply | scripts/openai_rephrase.py:57-69 | a list reply is written iff it is empty or `i + len(r)` is within the records; the error is the index error at the first missing record; on success only the captions of records `i .. i+len(r)` change, to `r`, and the record count, other fields, other records and other entries are kept |
| CaptionFile.ReadAfterWrite | scripts/openai_rephrase.py:44-69 | reading the captions back after a write gives the reply in the patched range and the old captions elsewhere |
| Batching.GreedyEnd | scripts/openai_rephrase.py:94-104 | the inner loop stops between its start and the end of the list |
| Batching.GreedyEndSpec | scripts/openai_rephrase.py:94-104 | every caption taken passed the admission test against the captions taken before it, and the caption where the loop stopped failed it |
| Batching.BatchWithinBudget | scripts/openai_rephrase.py:84-104 | a non-empty batch costs less than `(16385 - ctx) // 2 - ctx - 1000` tokens |
| Batching.BatchTokens | scripts/openai_rephrase.py:94-104 | the captions of a non-empty batch, costed by the tokenizer, total fewer than `(16385 - ctx) // 2 - ctx - 1000` tokens |
| Batching.BatchMembersFit | scripts/openai_rephrase.py:98-104 | every caption of a batch passes the admission test on its own |
| Batching.EmptyBatchIffTooLong | scripts/openai_rephrase.py:94-99 | a batch is empty exactly when its first caption alone fails the admission test |
| Batching.Partition | scripts/openai_rephrase.py:89-110 | when every caption fits, the greedy batches are non-empty, contiguous from 0 to the end, and each ends where the admission test stops it |
| Batching.GatherContiguous | scripts/openai_rephrase.py:89-110 | contiguous batches hand over every caption of their range once, in order |
| Batching.PartitionCovers | scripts/openai_rephrase.py:89-110 | the greedy batches stay within the budget and concatenate to the whole caption list |
| Batching.GreedyChainIsPartition | scripts/openai_rephrase.py:89-110 | any contiguous chain of non-empty, greedily cut batches to the end is the greedy partition |
| Batching.ApplyRoundsExtend | scripts/openai_rephrase.py:109 | one more round writes its reply at its offset into the document the earlier rounds left |
| Batching.RunBatches | scripts/openai_rephrase.py:87-110 | the outer loop's outcome, rounds and final document are those of the recursive run |
| Batching.GatherBatch | scripts/openai_rephrase.py:90-104 | the inner loop ends at the greedy end, and every caption it took fits on its own |
| Batching.RoundsExtend | scripts/openai_rephrase.py:108-110 | a round that starts where the last one ended, is written at its start and is cut greedily keeps the rounds greedy |
| Batching.RunFollowsGreedy | scripts/openai_rephrase.py:89-110 | every run's rounds follow the greedy cut from 0, each written at its own first index, and all batches are non-empty except the last batch of a stuck run |
| Batching.RunWrites | scripts/openai_rephrase.py:108-109 | the final document is the start document with every round's reply written in order |
| Batching.RunCompleted | scripts/openai_rephrase.py:89-104 | a completed run reached the end of the list, and every caption fit on its own |
| Batching.RunGetsStuck | scripts/openai_rephrase.py:89-99 | a run gets stuck only at a caption that alone fails the admission test, after one empty round there |
| Batching.StuckPassesShape | scripts/openai_rephrase.py:89-110 | the passes of a stuck loop never complete. Each adds an empty round at the stuck caption, carrying its own call's reply. After `n` passes the loop is still stuck iff all `n` went through; otherwise it stopped at the first pass whose call failed, whose reply did not parse or whose write failed |
| Batching.StuckPassesFollowGreedy | scripts/openai_rephrase.py:89-110 | the stuck passes are greedy rounds of the same loop, and the document stays the result of all the rounds' writes |
| Batching.StuckRunContinues | scripts/openai_rephrase.py:89-110 | after a run gets stuck, no number of further passes completes it; the rounds keep following the greedy cut from 0, and the file stays equal to their writes |
| Batching.StuckLoopRunsOn | scripts/openai_rephrase.py:89-110 | if the model answers every empty batch with `[]` and the document is a dict, the loop is still stuck after any number of passes, so the Python loop does not end |
| Batching.RunAborted | scripts/openai_rephrase.py:108-109 | an aborted run stopped at the batch after its last round, with the error of that batch's rewrite (the call failed or the reply did not parse) or of writing its reply |
| Batching.RephraseAborted | scripts/openai_rephrase.py:18-33 | an aborted run ended on the batch after its last round: `CallFailed` iff the chat call raised or its content was `None`, `ReplyNotParsed` iff the content with newlines removed did not parse, and otherwise writing the parsed reply failed with that error |
| Batching.RunRoundsPrefix | scripts/openai_rephrase.py:89-110 | a run only appends to the rounds it started with |
| Batching.CompletedRunIsPartition | scripts/openai_rephrase.py:89-110 | a completed run went through exactly the greedy partition's batches, in order |
| Batching.CompletedRunCovers | scripts/openai_rephrase.py:89-110 | a completed run's batches run contiguously from caption 0 to the last caption; none is empty, each stays within the input budget, and together they hand over every caption once, in order |
| Batching.RewriteCaptionsInBatches | scripts/openai_rephrase.py:78-110 | the whole routine: greedy rounds written at their first index, the file equal to the rounds' writes, the greedy partition when it completes, the offending caption when it gets stuck; when it aborts, the batch after the last round and why: the chat call raised or gave no content, the cleaned reply did not parse, or writing it failed |
| Position.FindLargestLength | simian/position.py:14-37 | the largest length is never negative |
| Position.LargestLengthIsLargest | simian/position.py:21-34 | the largest length is at least the x and y extent of every object, and is 0 or one of them |
| Position.FindLargestLengthAppend | simian/position.py:15-34 | the largest length of two lists together is the larger of theirs, so object order does not matter |
| Position.Lookup | simian/position.py:58-62 | codes 0..8 map to `(code % 3 - 1, 1 - code // 3)`; any other code is missing |
| Position.PlaceOne | simian/position.py:64-70 | an integer placement is not subscriptable; an empty one is `IndexError` at 0; a first code outside the table is a `KeyError` of that code; a one-element placement with a valid code is `IndexError` at 1; a valid first and invalid second code is a `KeyError` of the second; and a placement ends in the tuple-plus-float error exactly when its first two codes are valid |
| Position.FirstPlaced | simian/position.py:52-56 | the loop skips every entry before this index (each is `None` or has no placement), and the entry at it, if any, is one it acts on |
| Position.PlaceObjectsOutcome | simian/position.py:52-72 | the objects are left untouched iff the loop acts on none of them; otherwise the error of the first object it acts on is raised, so no location is ever set |
| Geometry.MinAlong | simian/position.py:23 | the minimum is at most every corner's coordinate on that axis |
| Geometry.MaxAlong | simian/position.py:22 | the maximum is at least every corner's coordinate on that axis |
| Geometry.ExtremesAttained | simian/position.py:21-28 | both extremes are some corner's coordinate |
| Geometry.Extent | simian/position.py:21-28 | a width or height is never negative |
| Geometry.ExtentIsSpread | simian/position.py:21-28 | the extent is the largest distance between two corners along the axis, and is attained |
| Importers.LastDot | simian/object.py:55 | the last '.' of the path, or -1 when there is none |
| Importers.SegmentSplitsPath | simian/object.py:55 | `split(".")[-1]` holds no '.'; it is the whole dot-free path or what follows the last '.' |
| Importers.LowerIsLowerCase | simian/object.py:55 | `lower()` leaves no upper-case ASCII letter, keeps every other character, and changes nothing when applied again |
| Importers.ExtensionIsLastSegment | simian/object.py:55 | the extension is the last segment lower-cased: no '.', same length, already lower case |
| Importers.LoadObjectCalls | simian/object.py:55-67 | loading fails with a key error exactly for extensions outside the table; `blend` alone is called with a directory and `link=False`; `glb`/`gltf` alone merge vertices; every call gets the path unchanged |
| Importers.TableInverse | simian/object.py:27-39 | the appender is reached only from `blend`, the glTF importer only from `glb` and `gltf` |
| Importers.LoadIgnoresCase | simian/object.py:55-60 | the extension after the last '.' is looked up lower-cased, so `X.GLB` loads like `X.glb` |
| Hierarchy.PreOrder | simian/object.py:256-258 | the pre-order of a tree starts with its root |
| Hierarchy.MeshesOf | simian/object.py:249 | the meshes of a node list are all meshes and no more than the nodes |
| Hierarchy.MeshesOfAppend | simian/object.py:261 | collecting meshes distributes over concatenation |
| Hierarchy.GetMeshesIsPreOrder | simian/object.py:235-261 | `get_meshes_in_hierarchy` returns exactly the mesh nodes of the tree in pre-order |
| Hierarchy.GetMeshesAllIsPreOrder | simian/object.py:256-258 | the children's meshes are the mesh nodes of their subtrees in pre-order |
| Hierarchy.FoldBox | simian/object.py:127-130 | after at least one corner the bounds are set |
| Hierarchy.ProcessObject | simian/object.py:133-145 | processing a tree always sets the bounds |
| Hierarchy.ProcessChildren | simian/object.py:144-145 | processing the children keeps bounds that were set |
| Hierarchy.CornersOfAppend | simian/object.py:126-127 | the corners of two node lists are the corners of each, in order |
| Hierarchy.FoldBoxAppend | simian/object.py:127-130 | folding two corner lists is folding one after the other |
| Hierarchy.ProcessObjectFolds | simian/object.py:133-148 | the recursive traversal folds the corners of the tree in pre-order |
| Hierarchy.ProcessChildrenFolds | simian/object.py:144-145 | the children's traversal folds their subtrees' corners in pre-order |
| Hierarchy.FoldBoxBounds | simian/object.py:115-130 | folding corners gives their smallest and largest coordinate on every axis, merged with the starting bounds |
| Hierarchy.HierarchyBoxTight | simian/object.py:97-150 | the hierarchy box holds every corner of the tree, each bound is some corner's coordinate, and min <= max on every axis |
| Hierarchy.CornersOfHolds | simian/object.py:126-127 | every corner of every node is among the corners folded |
| Hierarchy.HierarchyBoxHoldsEveryNode | simian/object.py:97-150 | every corner of every node of the tree lies inside the hierarchy box |
| Hierarchy.JoinDecision | simian/object.py:428-459 | nothing happens iff the tree has no mesh; otherwise the first pre-order mesh is active, all meshes are selected, join runs iff there are two or more, and the "not a valid mesh" branch is never taken |
| Hierarchy.NoMeshesIffNone | simian/object.py:436 | the mesh list is empty iff no node is a mesh |
| Hierarchy.NormalizeScale | simian/object.py:222-227 | a zero largest side raises division by zero; otherwise the ratio times the largest side is the scale factor |
| Hierarchy.ScaleRefusedIffPoint | simian/object.py:222-227 | the ratio is refused exactly when every corner of the hierarchy is one point, and is positive for a positive factor |
| SceneObjects.WithoutKeepsTheRest | simian/object.py:570-575 | removal takes out every picked object and keeps every other one with its count |
| SceneObjects.DeleteInvisibleRemovesTargets | simian/object.py:80-94 | exactly the selectable objects hidden in the viewport or in renders are deleted, and exactly the viewport-hidden collections; all else stays |
| SceneObjects.DeleteAllEmptiesRemovesTargets | simian/object.py:570-575 | exactly the selectable empties are removed; all other objects stay |
| SceneObjects.UnlockObjects | simian/object.py:605-606 | exactly the listed objects become selectable, nothing else changes |
| SceneObjects.LockThenUnlock | simian/object.py:588-606 | locking then unlocking the returned list leaves every object selectable and otherwise unchanged |
| SceneObjects.HitLoopPrefers | simian/object.py:482-496 | the loop takes the first fine-terrain hit, else what it found before, else the first coarse-terrain hit |
| SceneObjects.TerrainHeightPrefersFine | simian/object.py:462-503 | the height is the z of the first fine hit, else of the first coarse hit, else 0.0 |
| Stage.LocalPathLayout | simian/scene.py:11-14 | for a plain material name the cache path is `materials/<material>/<texture>.jpg` |
| Stage.LocalPathsDiffer | simian/scene.py:14 | two different texture names of one material are cached at different paths |
| Stage.RelativeJoin | simian/scene.py:11-14 | a relative texture name is appended to the material's directory |
| Stage.DownloadTexture | simian/scene.py:6-21 | the call raises, naming the URL, iff the cache path is absent and the fetch raises; otherwise it returns the cache path, fetches the URL into it iff it was absent, and afterwards the path exists |
| Stage.SecondDownloadIsCached | simian/scene.py:16-19 | after a call that returned, a second call for the same material and texture returns the same path and fetches nothing, whatever its URL and whatever the network does |
| Stage.StageMaterialErrors | simian/scene.py:72-102 | no `maps` is a key error raised after the four first nodes and their link are made, also without any stage material; a non-dict stage material fails on `.get` before any node is made; a dict of maps with a string name returns iff every fetch it makes returns, and otherwise fails on a URL whose fetch raised |
| Stage.PlanRowsBuilds | simian/scene.py:101-157 | with a dict of maps and a string name the rows return iff every fetch they make returns, and then build the plan; otherwise the error names a URL whose fetch raised |
| Stage.WarmRowsFetchNothing | simian/scene.py:101-157 | rows whose textures are all on disk fetch nothing, cannot fail on a fetch, and leave the disk as it was |
| Stage.BuildCaches | simian/scene.py:101-157 | after the rows, every present key's texture is on disk and nothing on disk is gone |
| Stage.WarmCacheNeverFetches | simian/scene.py:67-160 | when every texture the maps name is already cached, the call returns without fetching, whatever the network does |
| Stage.SecondPlanIsCached | simian/scene.py:67-160 | a second call on the disk a returned call left behind returns without fetching and makes the same nodes and links |
| Stage.SameGraph | simian/scene.py:101-157 | the nodes and links the rows make do not depend on what is on disk |
| Stage.MapsNotADict | simian/scene.py:102-103 | a null, boolean or number `maps` fails at the first `in`; a list holding "Diffuse" fails at the subscript; either leaves only the four first nodes and their link |
| Stage.PathsAppend | simian/scene.py:17-19 | the paths written by two runs of fetches are those of each |
| Stage.PlanRowsFetches | simian/scene.py:101-157 | whether the rows return or raise, they only append fetches, each of a path not on disk before and by a URL whose fetch returned, and they leave the disk as it was plus the paths fetched |
| Stage.CallKeepsFetches | simian/scene.py:6-21 | whether the call returns or raises, the disk afterwards is the disk before plus the paths fetched, each new and each by a URL whose fetch returned |
| Stage.PartialFetchKept | simian/scene.py:101-113 | a diffuse fetch that returns and then a normal-map fetch that raises: the call fails naming the second URL, and the diffuse texture stays on disk with its image node and links |
| Stage.DiffuseThenNormal | simian/scene.py:101-113 | the two rows of that case: the diffuse row fetches and adds its nodes, the normal row then raises |
| Stage.DefaultPaths | simian/scene.py:11-14 | the default material's diffuse and normal cache paths, spelled out, differ |
| Stage.PlanIgnoresOtherKeys | simian/scene.py:101-157 | maps that agree on the table's keys give the same outcome |
| Stage.ApplyIgnoresOtherKeys | simian/scene.py:67-160 | keys outside the table do not change what the call does |
| Stage.ImagePathsAppend | simian/scene.py:105-106 | the images of two node lists are those of each, in order |
| Stage.CountKindAppend | simian/scene.py:116 | node counts add over concatenation |
| Stage.SlotNodesContent | simian/scene.py:105-116 | one present key adds one image, at its cache path, and its bridge node if it has one |
| Stage.AddedImages | simian/scene.py:101-157 | the present keys add one image node each, at its cache path, in table order |
| Stage.AddedBridges | simian/scene.py:116-145 | the present keys add one bridge node per key that bridges |
| Stage.PresentNoImageBridges | simian/scene.py:101-157 | no present key's bridge is an image node |
| Stage.PresentBridges | simian/scene.py:101-157 | the one row bridging through a kind counts iff its key is present |
| Stage.AddSlotKeepsLinks | simian/scene.py:105-108 | adding a key's nodes and links keeps every link between existing nodes and every image fed by the mapping node |
| Stage.BuildNodes | simian/scene.py:101-157 | the rows add the present keys' nodes after the nodes already made |
| Stage.AddedNodesStep | simian/scene.py:101-157 | the nodes of the rows are those of the first row, if present, then those of the rest |
| Stage.BuildKeepsLinks | simian/scene.py:101-157 | the rows only add links after the ones already made |
| Stage.BuildWellLinked | simian/scene.py:101-157 | the rows keep every link between existing nodes and every image fed by the mapping node |
| Stage.StagePlanNodes | simian/scene.py:90-157 | when the call returns: output, principled, tex-coord and mapping come first, then one image per present key, in table order, at that key's cache path |
| Stage.StagePlanDefaultName | simian/scene.py:73 | when the call returns without a name, the images are loaded from the `DefaultMaterial` cache directory |
| Stage.DefaultMaterialLayout | simian/scene.py:11-14 | the default cache path is `materials/DefaultMaterial/<texture>.jpg` |
| Stage.StagePlanBridges | simian/scene.py:111-148 | when the call returns: one normal-map node iff `nor_gl` is present, one displacement node iff `Displacement` is |
| Stage.RowBridgeCount | simian/scene.py:101-157 | the bridge nodes of one kind number one iff the one row bridging through it is present |
| Stage.AddedRowBridges | simian/scene.py:101-157 | the same count over the fixed nodes and the added ones |
| Stage.MapTableRows | simian/scene.py:101-157 | every row feeds the output or the principled node; only `nor_gl` bridges through a normal map, only `Displacement` through a displacement node |
| Stage.StagePlanLinks | simian/scene.py:98-160 | when the call returns: the UV link comes first and the BSDF-to-Surface link last; every link joins existing nodes; every image is fed by the mapping node |

## Left out

- Blender operators (`select_set`, `delete`, `join`, `mode_set`, importers,
  `transform_apply`, node creation): they are names or plan entries here. What
  they do to the scene beyond the modelled flags and lists is not modelled.
- `remove_small_geometry`, `apply_all_modifiers`,
  `apply_and_remove_armatures`, `remove_blendshapes_from_hierarchy`,
  `optimize_meshes_in_hierarchy`, `unparent_keep_transform`: these are
  sequences of Blender operators with no decision logic of their own.
- `set_pivot_to_bottom`: its arithmetic reads `obj.location` around
  `origin_set`, and what that gives is Blender's behaviour.
- `create_stage` (UV rescale with bmesh) and the node-clearing loop of
  `apply_stage_material`: the plan starts from an empty node tree.
- `matrix_world @ corner`: corners are taken as world-space input.
- `view_layer.update`, logging and prints.
- File I/O: `open`, `seek`, `truncate`, `json.dump` with indentation, and
  `makedirs`. The document and the set of existing paths are values, and
  these calls are taken to succeed.
- The OpenAI client, `tiktoken`, `requests.get`, `json.loads`, `json.dumps`:
  these are parameters. Every way the chat call can raise, and a reply whose
  content is `None`, is the one outcome `CallFailed`. Every way
  `requests.get` can raise is the one error `FetchFailed`. A fetch is
  recorded by its URL and path, and the downloaded bytes are not modelled.
- Batching.RewriteCaptionsInBatches: the token count `cost` is a total
  function. In `scripts/openai_rephrase.py`, `encoding.encode` (line 75)
  raises `ValueError` on text that contains a special token such as
  `<|endoftext|>`, for the context (line 83) and for a caption (line 96);
  that error is not modelled.
- Floating point: coordinates are `real`. There is no rounding, and the
  `inf` starting bounds become "no bounds yet" (`None`).
- Importers.LowerIsLowerCase: `Lower` lower-cases ASCII letters only,
  whereas Python's `str.lower` also maps other Unicode letters.
- SceneObjects.DeleteAllEmptiesRemovesTargets: states the intended removal.
  Python removes from `bpy.data.objects` while iterating over it, and how
  Blender's collection iterator behaves then is not modelled.
- Stage.DownloadTexture: the local path follows POSIX `os.path.join`.
  Windows separators are not modelled.
- Stage.StagePlanNodes: states the nodes and image paths of the plan.
  Over the whole plan, `Stage.CallKeepsFetches` states which paths the
  fetches write and that each was new; the exact list of URLs fetched, in
  order, follows from the per-call rule of `DownloadTexture` and is not
  restated.
- CaptionFile.ReadCaptions: every value is JSON, so a caption that is not a
  string is kept as the value it is, and the `print` is dropped.
- Batching.RewriteCaptionsInBatches: takes the captions as strings.
  `ReadCaptions` can hand on null or another non-string value, because
  `obj.get('caption')` at line 47 does not check the type. `estimate_tokens`
  then raises at line 96 once the inner loop reaches that caption, and the
  model does not follow such a run.
- Batching.RunFrom: stops at the first pass whose batch is empty, with the
  outcome `Stuck`, and so does `RewriteCaptionsInBatches`. `StuckPasses`
  gives the passes after it for any finite number of them. The unending
  loop itself is not a value of the model.
- JSON numbers are integers. The floats `json.loads` can produce are not
  modelled, because no modelled rule looks at a number's value.
