# Free-form deformation task: bookkeeping model

This project models the bookkeeping around the GPU free-form deformation task
in `ctrl::ffd::Task` (AnimeEffects). That task deforms or erases a 2D mesh
under a brush stroke, and its bookkeeping covers five things:

- the grid of shader variants, one per (brush type, hardness level), stored in a flat array;
- the output buffers, whose capacity only grows;
- the mesh, parameter and brush configuration, including the blur decision;
- the deformation pass and the per-block blur pass;
- the readback of results into host memory.

The model treats every GL call as an abstract event, appended to the task's
`log`. It keeps buffer element counts and drops buffer contents. Float
parameters appear only in sign tests.

There are two modules:

- `FfdResource` (`ffd_resource.dfy`): `Task::Resource`. `SlotIndex` is the index
  computation `type * kHardness + hard`, and `ProgramTable` is what `setup`
  leaves in the array. The class `Resource` has a `Setup` method with the
  two filling loops and a `Program` lookup.
- `FfdTask` (`ffd_task.dfy`): the class `Task`, whose fields are the source's
  member fields. A class invariant `Valid()` says four things:
  - the host readback store and both device output buffers all hold
    `dstBufferCount` elements, and that count is at least `vtxCount`;
  - once a source is configured, its view is non-null and its vertex count
    is positive and equals the number of origin positions;
  - `useBlur` is the blur decision of the stored parameters;
  - with blur on, both work buffers hold `srcCount` elements and there is one
    texture per connectivity block, holding that block's positions.

  The GL events of the deformation pass (`DeformPassEvents`) and the blur pass
  (`BlurDraws`, `BlurPassEvents`) are defined as functions. The lemmas are
  proved about those functions, and the methods are proved to append exactly
  those events.

`kType` is 2, from the two brush type codes 0 (deformer) and 1 (eraser). The
number of hardness levels and `kVariation` come from `ffd_Task.h`, which is not
part of this model. They are parameters of the `Resource` constructor, and the
constructor requires `kType * kHardness == kVariation`, which the source
asserts. The source checks its preconditions with assertions, so they become
`requires` clauses here.

## Model

| member | source | states |
|---|---|---|
| `FfdResource.SlotInRange` | src/ctrl/ffd/ffd_Task.cpp:62-72 | for 0 <= type < kType and 0 <= hard < kHardness, the slot type*kHardness+hard lies in [0, kType*kHardness) |
| `FfdResource.SlotDecode` | src/ctrl/ffd/ffd_Task.cpp:62-72 | the slot of a key decodes back to it: slot / kHardness is the type, slot % kHardness the hardness |
| `FfdResource.SlotInjective` | src/ctrl/ffd/ffd_Task.cpp:62-72 | distinct in-range (type, hardness) keys address distinct slots |
| `FfdResource.ProgramTableAt` | src/ctrl/ffd/ffd_Task.cpp:37-51 | after setup, the slot of every key holds the program built for that type with that hardness value |
| `FfdResource.GuardAdmitsNegativeHardness` | src/ctrl/ffd/ffd_Task.cpp:64 | the asserted guard accepts hardness -1: for type 0 the slot is negative, for type 1 it is the slot of the last deformer variant (see Findings) |
| `FfdResource.Resource.constructor` | src/ctrl/ffd/ffd_Task.cpp:24-27 | requires kType*kHardness == kVariation; the array has kVariation slots, none built yet |
| `FfdResource.Resource.Setup` | src/ctrl/ffd/ffd_Task.cpp:29-60 | afterwards every deformer slot [0, kHardness) and eraser slot [kHardness, 2*kHardness) holds its own variant, and the blur program is built; the slots are assigned in order, each exactly once |
| `FfdResource.Resource.Program` | src/ctrl/ffd/ffd_Task.cpp:62-72 | for an in-range key, once setup has run, returns the program of that type and hardness |
| `FfdTask.Grow` | src/ctrl/ffd/ffd_Task.cpp:210-212 | the new capacity is the maximum of the old capacity and the request |
| `FfdTask.CapacityIsRunningMax` | src/ctrl/ffd/ffd_Task.cpp:205-217 | after any series of resetDst requests, the capacity is the largest of the initial capacity and all requests |
| `FfdTask.CapacityMonotone` | src/ctrl/ffd/ffd_Task.cpp:210-216 | further requests never decrease the capacity |
| `FfdTask.FeedbackSlotsMatchVaryings` | src/ctrl/ffd/ffd_Task.cpp:114-128 | the feedback slots onRequested binds are exactly the outputs the variant declares: slot 0 (position) to the position buffer, and for the deformer slot 1 (weight) to the weight buffer |
| `FfdTask.DeformerWritesPositionAndWeight` | src/ctrl/ffd/ffd_Task.cpp:286-301 | a deformer request binds the position buffer at slot 0 and the weight buffer at slot 1 |
| `FfdTask.EraserNeverWritesWeight` | src/ctrl/ffd/ffd_Task.cpp:302-313 | an eraser request, with blur decided by writeSrc, never captures into the weight buffer |
| `FfdTask.RequestDrawsSourceCount` | src/ctrl/ffd/ffd_Task.cpp:315-316 | the request draws exactly the source vertices [0, srcCount); the only other draws are the per-block blur draws |
| `FfdTask.BlurDrawsExactly` | src/ctrl/ffd/ffd_Task.cpp:344-380 | the blur events are exactly one draw per block k with count > 0, using texture k, byte range [begin*12, begin*12+count*12) and vertices [begin, begin+count) |
| `FfdTask.BlurDrawsOrdered` | src/ctrl/ffd/ffd_Task.cpp:344-380 | every blur event is a block draw, its texture index lies within the block list, and indices strictly increase |
| `FfdTask.EmptyBlockSkipped` | src/ctrl/ffd/ffd_Task.cpp:348-350 | a block with count <= 0 produces no draw |
| `FfdTask.NonEmptyBlockDrawn` | src/ctrl/ffd/ffd_Task.cpp:347-375 | a block with count > 0 at position k is drawn with texture k over its own byte and vertex range |
| `FfdTask.BlurDrawsInBuffer` | src/ctrl/ffd/ffd_Task.cpp:369-374 | if every non-empty block lies in [0, n), every bound byte range lies in [0, 12*n) and every draw in [0, n) |
| `FfdTask.BlurDrawsDisjoint` | src/ctrl/ffd/ffd_Task.cpp:369-371 | pairwise disjoint vertex ranges of the non-empty blocks give pairwise disjoint feedback byte ranges |
| `FfdTask.Task.constructor` | src/ctrl/ffd/ffd_Task.cpp:178-199 | zero counts, an empty host store, no source configured and blur off, so the invariant holds |
| `FfdTask.Task.ResetDst` | src/ctrl/ffd/ffd_Task.cpp:205-217 | requires a positive count; records it as vtxCount and grows the capacity to the maximum; all three stores are reallocated at the new capacity only when growing; keeps vtxCount <= capacity |
| `FfdTask.Task.WriteSrc` | src/ctrl/ffd/ffd_Task.cpp:219-255 | requires a non-null source and a positive vertex count; stores view, count, origin and parameters; useBlur iff type is deformer and blur > 0; only then resizes the work buffers and uploads one texture per block, otherwise leaves them untouched |
| `FfdTask.Task.SetBrush` | src/ctrl/ffd/ffd_Task.cpp:257-267 | sets the world matrix, its inverse, brush centre and velocity, and its frame allows no other field to change |
| `FfdTask.Task.OnRequested` | src/ctrl/ffd/ffd_Task.cpp:269-329 | requires a configured source, radius > 0 and source count <= output capacity; issues the selected program, its feedback bindings and one draw of srcCount points, then the blur events iff useBlur |
| `FfdTask.Task.RequestBlur` | src/ctrl/ffd/ffd_Task.cpp:331-389 | stages both outputs into the work buffers, then its per-block loop issues exactly BlurDraws of the block list, reading texture i for block i |
| `FfdTask.Task.OnFinished` | src/ctrl/ffd/ffd_Task.cpp:391-405 | reads back vtxCount positions, a range that fits in the device buffer and the host store; the host store gets the device's first vtxCount positions, and the rest is unchanged |

## Left out

- Shader loading and the fatal error paths (lines 74-84, 101-112, 131-134, 149-173): these are file I/O and process abort. `Setup` models the run in which every build succeeds.
- GLSL compilation and linking, `glTransformFeedbackVaryings`, and the attribute and uniform bindings: these are foreign GPU calls. A program is represented by its variant and the names of its declared feedback outputs.
- Render-state toggles (`glEnable`/`glDisable`, `resetRenderState`, active texture, `bind`/`release`) and the `glGetError` assertions: these are GPU state, not recorded.
- The blur program bind in each block iteration is not recorded as an event: every block uses the same blur program.
- The mesh-transform collaborator (`mMeshTransformer.callGL`, `mMeshBuffer.reserve`) and `TimeKeyExpans`: this is external code. A set `mSrcExpans` is the flag `configured`.
- `LayerMesh::resetArrayedConnection`: this is external code. Its block list is the `connection` argument of `WriteSrc`, and the per-vertex index ranges are not modelled.
- Texture contents and `kMaxCount`: each blur texture is represented by the number of neighbour positions uploaded into it.
- Buffer contents: the deformation, erase and blur math is floating point in shader text. The device buffers are element counts. For the readback, the device contents are the `deviceMesh` argument of `OnFinished`.
- `copyFrom` staging: recorded as an event, with no contents.
- GPU asynchrony and synchronisation: not modelled.
- Byte offsets and sizes in `BlurDraw` are unbounded integers, not `size_t` products. They agree whenever the block's begin is non-negative, which `BlurDrawsInBuffer` assumes of the block list.
- Float parameters are Dafny `real` values and are used only in the sign tests `blur > 0` and `radius > 0`.

- Preconditions are `XC_ASSERT`s in the source (lines 207, 225-228, 271-273, 64); they are `requires` clauses here.
- `mDstMesh` is allocated at the capacity `mDstBufferCount` (line 213); only its first `vtxCount` entries are read back (lines 399-400).

## Findings

| source | as written | input that shows it | evidently intended | confidence | as-written member | corrected member |
|---|---|---|---|---|---|---|
| src/ctrl/ffd/ffd_Task.cpp:64 | `program` asserts only `aType < kType && aHard < kHardness` | type 0, hardness -1 satisfies the guard and addresses slot -1, before the array; type 1, hardness -1 addresses slot kHardness-1 and returns a deformer program | the key is in range on both sides: 0 <= type < kType and 0 <= hardness < kHardness | low, not executed | `FfdResource.GuardAdmitsNegativeHardness` | `FfdResource.SlotInRange` |

`Resource.Program` and `Task.OnRequested` require the corrected range `KeyInRange`.
