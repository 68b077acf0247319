/** The per-frame free-form deformation task: output-buffer capacity, the
    mesh/brush configuration, the deformation pass and the connectivity-scoped
    blur pass, and the readback. Every GL call that matters is recorded as an
    abstract event in the task's `log`; buffer contents stay opaque, only their
    element counts are modelled. */
module FfdTask {
  import opened FfdResource

  /** sizeof(GLfloat) * 3: bytes per position in the output buffer. */
  const kVertexBytes: int := 12

  datatype Vec2 = Vec2(x: real, y: real)
  datatype Vec3 = Vec3(x: real, y: real, z: real)
  datatype Mat4 = Mat4(entries: seq<real>)

  /** FFDParam: brush type and hardness select the program; the float fields
      are used only through sign tests. */
  datatype FfdParam = FfdParam(
    brushType: int, hardness: int,
    radius: real, pressure: real,
    eraseRadius: real, erasePressure: real,
    blur: real)

  /** A connectivity block: its vertex range [rangeMin, rangeMax] in the output
      buffer and the number of neighbour positions packed for its texture. */
  datatype Block = Block(rangeMin: int, rangeMax: int, positionCount: int)

  /** vertexRange.diff() + 1: the number of vertices the block draws. */
  function BlockCount(b: Block): (count: int)
  {
    b.rangeMax - b.rangeMin + 1
  }

  predicate BlocksDisjoint(x: Block, y: Block)
  {
    x.rangeMax < y.rangeMin || y.rangeMax < x.rangeMin
  }

  datatype Buffer = OutMesh | OutWeight | WorkInMesh | WorkInWeight

  /** The GL calls the model keeps track of. BlurBlock stands for one block of
      the blur pass: bind texture `texture` (holding `samples` neighbour
      positions), bind feedback slot 0 to the byte range
      [byteOffset, byteOffset + byteSize) of the output position buffer, and
      draw `count` points from `first`. */
  datatype GlEvent =
    | ResetData(buffer: Buffer, count: int)
    | BindProgram(program: ShaderProgram)
    | BindFeedback(slot: int, buffer: Buffer)
    | DrawPoints(first: int, count: int)
    | CopyBuffer(dst: Buffer, src: Buffer)
    | BlurBlock(texture: int, samples: int, byteOffset: int, byteSize: int, first: int, count: int)
    | Readback(buffer: Buffer, byteOffset: int, byteSize: int)

  /** A transform-feedback capture that writes into `buf`. */
  predicate CapturesInto(e: GlEvent, buf: Buffer)
  {
    (e.BindFeedback? && e.buffer == buf) || (e.BlurBlock? && buf == OutMesh)
  }

  /** The blur decision of writeSrc. */
  function UseBlurFor(p: FfdParam): (useBlur: bool)
  {
    p.brushType == kTypeDeformer && p.blur > 0.0
  }

  //-----------------------------------------------------------------------------------------------
  // Output capacity

  /** The buffer count resetDst leaves behind: the larger of the old count and the request. */
  function Grow(capacity: int, request: int): (r: int)
    ensures r >= capacity && r >= request
    ensures r == capacity || r == request
  {
    if capacity < request then request else capacity
  }

  /** The buffer count after a series of resetDst calls. */
  function CapacityAfter(capacity: int, requests: seq<int>): (capacityAfter: int)
    decreases |requests|
  {
    if requests == [] then capacity else CapacityAfter(Grow(capacity, requests[0]), requests[1..])
  }

  /** After any series of requests the capacity is the largest of the initial
      capacity and all requests: it never shrinks and covers every request. */
  lemma {:induction false} CapacityIsRunningMax(capacity: int, requests: seq<int>)
    ensures CapacityAfter(capacity, requests) >= capacity
    decreases |requests|
    ensures forall i :: 0 <= i < |requests| ==> CapacityAfter(capacity, requests) >= requests[i]
    ensures CapacityAfter(capacity, requests) == capacity
         || exists i :: 0 <= i < |requests| && CapacityAfter(capacity, requests) == requests[i]
  {
    if requests != [] {
      var next := Grow(capacity, requests[0]);
      CapacityIsRunningMax(next, requests[1..]);
      var r := CapacityAfter(capacity, requests);
      assert r == CapacityAfter(next, requests[1..]);
      forall i | 0 <= i < |requests|
        ensures r >= requests[i]
      {
        if i > 0 {
          assert requests[i] == requests[1..][i - 1];
        }
      }
      if r != next {
        var j :| 0 <= j < |requests[1..]| && r == requests[1..][j];
        assert r == requests[j + 1];
      } else if next != capacity {
        assert r == requests[0];
      }
    }
  }

  /** Capacity after more requests is never smaller than before them. */
  lemma {:induction false} CapacityMonotone(capacity: int, requests: seq<int>, more: seq<int>)
    ensures CapacityAfter(capacity, requests + more) >= CapacityAfter(capacity, requests)
    decreases |requests|
  {
    if requests == [] {
      assert requests + more == more;
      CapacityIsRunningMax(capacity, more);
    } else {
      assert (requests + more)[1..] == requests[1..] + more;
      CapacityMonotone(Grow(capacity, requests[0]), requests[1..], more);
    }
  }

  //-----------------------------------------------------------------------------------------------
  // Deformation pass

  /** The feedback slots onRequested binds: position at slot 0 always, weight
      at slot 1 for the deformer only. */
  function FeedbackBindings(brushType: int): (bindings: seq<GlEvent>)
  {
    if brushType == kTypeDeformer then [BindFeedback(0, OutMesh), BindFeedback(1, OutWeight)]
    else [BindFeedback(0, OutMesh)]
  }

  function DeformPassEvents(p: FfdParam, program: ShaderProgram, srcCount: int): (events: seq<GlEvent>)
  {
    [BindProgram(program)] + FeedbackBindings(p.brushType) + [DrawPoints(0, srcCount)]
  }

  /** The buffer a feedback output of the given name is captured into. */
  function VaryingBuffer(name: string): (buffer: Buffer)
  {
    if name == kOutWeight then OutWeight else OutMesh
  }

  /** The slots onRequested binds are exactly the feedback outputs the
      variant's program declares, each to the buffer of that output. */
  lemma FeedbackSlotsMatchVaryings(brushType: int, hard: int, slot: int, buf: Buffer)
    ensures BindFeedback(slot, buf) in FeedbackBindings(brushType)
        <==> 0 <= slot < |BuildShader(brushType, hard).feedback|
             && buf == VaryingBuffer(BuildShader(brushType, hard).feedback[slot])
  {
  }

  //-----------------------------------------------------------------------------------------------
  // Blur pass

  /** The event of block k when it is not empty: texture k, the block's byte
      range of the output buffer, and its vertex range as the draw. */
  function BlurDraw(b: Block, k: int, samples: int): (event: GlEvent)
  {
    BlurBlock(k, samples, b.rangeMin * kVertexBytes, BlockCount(b) * kVertexBytes, b.rangeMin, BlockCount(b))
  }

  /** The per-block events of requestBlur over the blocks, in order; the texture
      index counts every block, drawn or skipped. */
  function BlurDraws(blocks: seq<Block>, textures: seq<int>): (events: seq<GlEvent>)
    requires |blocks| <= |textures|
    decreases |blocks|
  {
    if blocks == [] then []
    else
      var k := |blocks| - 1;
      BlurDraws(blocks[..k], textures)
        + (if BlockCount(blocks[k]) > 0 then [BlurDraw(blocks[k], k, textures[k])] else [])
  }

  /** requestBlur: stage the outputs into the work buffers, then one event per
      non-empty block. */
  function BlurPassEvents(blocks: seq<Block>, textures: seq<int>): (events: seq<GlEvent>)
    requires |blocks| <= |textures|
  {
    [CopyBuffer(WorkInMesh, OutMesh), CopyBuffer(WorkInWeight, OutWeight)] + BlurDraws(blocks, textures)
  }

  /** Everything onRequested issues: the deformation pass, then the blur pass
      iff blur is on. */
  function RequestEvents(p: FfdParam, program: ShaderProgram, srcCount: int, useBlur: bool,
                         blocks: seq<Block>, textures: seq<int>): (events: seq<GlEvent>)
    requires useBlur ==> |blocks| <= |textures|
  {
    DeformPassEvents(p, program, srcCount) + (if useBlur then BlurPassEvents(blocks, textures) else [])
  }

  /** The blur events are exactly one BlurDraw per non-empty block k, using
      texture k. */
  lemma {:induction false} BlurDrawsExactly(blocks: seq<Block>, textures: seq<int>)
    requires |blocks| <= |textures|
    ensures forall e :: e in BlurDraws(blocks, textures) <==>
      exists k :: 0 <= k < |blocks| && BlockCount(blocks[k]) > 0 && e == BlurDraw(blocks[k], k, textures[k])
  {
    if blocks != [] {
      var k := |blocks| - 1;
      var init := blocks[..k];
      BlurDrawsExactly(init, textures);
      forall e
        ensures e in BlurDraws(blocks, textures) <==>
          exists j :: 0 <= j < |blocks| && BlockCount(blocks[j]) > 0 && e == BlurDraw(blocks[j], j, textures[j])
      {
        if e in BlurDraws(blocks, textures) {
          if e in BlurDraws(init, textures) {
            var j :| 0 <= j < |init| && BlockCount(init[j]) > 0 && e == BlurDraw(init[j], j, textures[j]);
            assert blocks[j] == init[j];
          } else {
            assert BlockCount(blocks[k]) > 0 && e == BlurDraw(blocks[k], k, textures[k]);
          }
        }
        if exists j :: 0 <= j < |blocks| && BlockCount(blocks[j]) > 0 && e == BlurDraw(blocks[j], j, textures[j]) {
          var j :| 0 <= j < |blocks| && BlockCount(blocks[j]) > 0 && e == BlurDraw(blocks[j], j, textures[j]);
          if j < k {
            assert init[j] == blocks[j];
            assert e in BlurDraws(init, textures);
          }
        }
      }
    }
  }

  /** Every blur event is a BlurBlock, and their texture indices are in
      range and strictly increasing: blocks are drawn in list order, each at
      most once. */
  lemma {:induction false} BlurDrawsOrdered(blocks: seq<Block>, textures: seq<int>)
    requires |blocks| <= |textures|
    ensures forall i :: 0 <= i < |BlurDraws(blocks, textures)| ==>
      BlurDraws(blocks, textures)[i].BlurBlock? && 0 <= BlurDraws(blocks, textures)[i].texture < |blocks|
    ensures forall i, j :: 0 <= i < j < |BlurDraws(blocks, textures)| ==>
      BlurDraws(blocks, textures)[i].texture < BlurDraws(blocks, textures)[j].texture
  {
    if blocks != [] {
      var k := |blocks| - 1;
      BlurDrawsOrdered(blocks[..k], textures);
    }
  }

  /** An empty block (count <= 0) produces no event. */
  lemma EmptyBlockSkipped(blocks: seq<Block>, textures: seq<int>, k: int)
    requires |blocks| <= |textures|
    requires 0 <= k < |blocks| && BlockCount(blocks[k]) <= 0
    ensures forall e :: e in BlurDraws(blocks, textures) ==> e.BlurBlock? && e.texture != k
  {
    BlurDrawsExactly(blocks, textures);
  }

  /** A non-empty block k produces exactly the draw of its own range with texture k. */
  lemma NonEmptyBlockDrawn(blocks: seq<Block>, textures: seq<int>, k: int)
    requires |blocks| <= |textures|
    requires 0 <= k < |blocks| && BlockCount(blocks[k]) > 0
    ensures BlurBlock(k, textures[k], blocks[k].rangeMin * kVertexBytes, BlockCount(blocks[k]) * kVertexBytes,
                      blocks[k].rangeMin, BlockCount(blocks[k])) in BlurDraws(blocks, textures)
  {
  }

  /** When every non-empty block lies in [0, n), every bound byte range lies in
      the first n positions of the output buffer and every draw in [0, n). */
  lemma BlurDrawsInBuffer(blocks: seq<Block>, textures: seq<int>, n: int)
    requires |blocks| <= |textures|
    requires forall k :: 0 <= k < |blocks| && BlockCount(blocks[k]) > 0 ==>
      0 <= blocks[k].rangeMin && blocks[k].rangeMax < n
    ensures forall e :: e in BlurDraws(blocks, textures) ==>
      e.BlurBlock? && 0 <= e.byteOffset && 0 < e.byteSize && e.byteOffset + e.byteSize <= n * kVertexBytes
      && 0 <= e.first && e.first + e.count <= n
  {
  }

  /** Two block draws whose feedback byte ranges do not overlap. */
  predicate ByteRangesDisjoint(x: GlEvent, y: GlEvent)
  {
    x.BlurBlock? && y.BlurBlock?
    && (x.byteOffset + x.byteSize <= y.byteOffset || y.byteOffset + y.byteSize <= x.byteOffset)
  }

  /** Pairwise disjoint vertex ranges of the non-empty blocks give pairwise
      disjoint byte ranges: no block's feedback writes into another block's
      slice. Empty blocks draw nothing, so their bounds are unconstrained. */
  lemma BlurDrawsDisjoint(blocks: seq<Block>, textures: seq<int>)
    requires |blocks| <= |textures|
    requires forall a, b :: 0 <= a < b < |blocks| && BlockCount(blocks[a]) > 0 && BlockCount(blocks[b]) > 0 ==>
      BlocksDisjoint(blocks[a], blocks[b])
    ensures forall i, j :: 0 <= i < j < |BlurDraws(blocks, textures)| ==>
      ByteRangesDisjoint(BlurDraws(blocks, textures)[i], BlurDraws(blocks, textures)[j])
  {
    var ds := BlurDraws(blocks, textures);
    BlurDrawsExactly(blocks, textures);
    BlurDrawsOrdered(blocks, textures);
    forall i, j | 0 <= i < j < |ds|
      ensures ByteRangesDisjoint(ds[i], ds[j])
    {
      assert ds[i] in ds && ds[j] in ds;
      var a :| 0 <= a < |blocks| && BlockCount(blocks[a]) > 0 && ds[i] == BlurDraw(blocks[a], a, textures[a]);
      var b :| 0 <= b < |blocks| && BlockCount(blocks[b]) > 0 && ds[j] == BlurDraw(blocks[b], b, textures[b]);
      assert a < b;
      assert BlocksDisjoint(blocks[a], blocks[b]);
    }
  }

  /** An eraser request never captures into the weight buffer: it binds only
      slot 0, and blur, the only other writer, is off for the eraser. */
  lemma EraserNeverWritesWeight(p: FfdParam, program: ShaderProgram, srcCount: int,
                                blocks: seq<Block>, textures: seq<int>)
    requires p.brushType != kTypeDeformer
    ensures forall e :: e in RequestEvents(p, program, srcCount, UseBlurFor(p), blocks, textures) ==>
      !CapturesInto(e, OutWeight)
  {
  }

  /** A deformer request captures into both the position and weight buffers. */
  lemma DeformerWritesPositionAndWeight(p: FfdParam, program: ShaderProgram, srcCount: int, useBlur: bool,
                                        blocks: seq<Block>, textures: seq<int>)
    requires p.brushType == kTypeDeformer
    requires useBlur ==> |blocks| <= |textures|
    ensures BindFeedback(0, OutMesh) in RequestEvents(p, program, srcCount, useBlur, blocks, textures)
    ensures BindFeedback(1, OutWeight) in RequestEvents(p, program, srcCount, useBlur, blocks, textures)
  {
  }

  /** The deformation pass is the only whole-mesh draw: it covers exactly the
      source vertices [0, srcCount), and blur adds only per-block draws. */
  lemma RequestDrawsSourceCount(p: FfdParam, program: ShaderProgram, srcCount: int, useBlur: bool,
                                blocks: seq<Block>, textures: seq<int>)
    requires useBlur ==> |blocks| <= |textures|
    ensures DrawPoints(0, srcCount) in RequestEvents(p, program, srcCount, useBlur, blocks, textures)
    ensures forall e :: e in RequestEvents(p, program, srcCount, useBlur, blocks, textures) && e.DrawPoints? ==>
      e == DrawPoints(0, srcCount)
  {
    var es := RequestEvents(p, program, srcCount, useBlur, blocks, textures);
    var d := DeformPassEvents(p, program, srcCount);
    assert d[|d| - 1] == DrawPoints(0, srcCount);
    assert es[|d| - 1] == DrawPoints(0, srcCount);
    if useBlur {
      BlurDrawsOrdered(blocks, textures);
      forall e | e in BlurDraws(blocks, textures)
        ensures !e.DrawPoints?
      {
        var i :| 0 <= i < |BlurDraws(blocks, textures)| && BlurDraws(blocks, textures)[i] == e;
      }
    }
  }

  //-----------------------------------------------------------------------------------------------
  // The task object

  /** Task: the state one deformation request works with. */
  class Task {
    const resource: Resource
    var vtxCount: int               // mVtxCount: the latest resetDst request
    var dstBufferCount: int         // mDstBufferCount: current output capacity
    var dstMesh: array<Vec3>        // mDstMesh: host readback target
    var outMeshCount: int           // mOutMesh.dataCount()
    var outWeightCount: int         // mOutWeight.dataCount()
    var configured: bool            // mSrcExpans is set
    var srcMesh: array?<Vec3>       // mSrcMesh: borrowed view of the caller's positions
    var srcCount: int               // mSrcMesh.count()
    var originMesh: seq<Vec3>       // mOriginMesh
    var param: FfdParam             // mParam
    var useBlur: bool               // mUseBlur
    var workInMeshCount: int        // mWorkInMesh.dataCount()
    var workInWeightCount: int      // mWorkInWeight.dataCount()
    var blocks: seq<Block>          // mArrayedConnectionList.blocks
    var textures: seq<int>          // mSrcBlurPositions: samples uploaded per texture
    var worldMtx: Mat4              // mWorldMtx
    var worldInvMtx: Mat4           // mWorldInvMtx
    var brushCenter: Vec2           // mBrushCenter
    var brushVel: Vec2              // mBrushVel
    var log: seq<GlEvent>           // GL calls issued so far

    /** The class invariant: the three output stores have the capacity's
        length and hold the latest request; the blur flag matches the
        parameters; with blur on, there is one texture per block and the work
        buffers hold the source vertices. */
    ghost predicate Valid()
      reads this
    {
      resource.Valid()
      && 0 <= vtxCount <= dstBufferCount
      && dstMesh.Length == dstBufferCount
      && outMeshCount == dstBufferCount
      && outWeightCount == dstBufferCount
      && (configured ==> srcMesh != null && srcCount == |originMesh| && srcCount > 0)
      && useBlur == UseBlurFor(param)
      && (useBlur ==> configured && workInMeshCount == srcCount && workInWeightCount == srcCount
                      && |textures| == |blocks|
                      && forall k :: 0 <= k < |blocks| ==> textures[k] == blocks[k].positionCount)
    }

    constructor (resource: Resource)
      requires resource.Valid()
      ensures Valid() && this.resource == resource
      ensures vtxCount == 0 && dstBufferCount == 0 && fresh(dstMesh)
      ensures !configured && !useBlur && log == []
    {
      this.resource := resource;
      vtxCount, dstBufferCount := 0, 0;
      dstMesh := new Vec3[0];
      outMeshCount, outWeightCount := 0, 0;
      configured, srcMesh, srcCount, originMesh := false, null, 0, [];
      param := FfdParam(kTypeDeformer, 0, 0.0, 0.0, 0.0, 0.0, 0.0);
      useBlur := false;
      workInMeshCount, workInWeightCount := 0, 0;
      blocks, textures := [], [];
      worldMtx, worldInvMtx := Mat4([]), Mat4([]);
      brushCenter, brushVel := Vec2(0.0, 0.0), Vec2(0.0, 0.0);
      log := [];
    }

    /** resetDst: records the request and grows, never shrinks, the host and
        both device output stores; they are reallocated only when growing. */
    method ResetDst(n: int)
      requires Valid() && n > 0
      modifies this`vtxCount, this`dstBufferCount, this`dstMesh, this`outMeshCount, this`outWeightCount, this`log
      ensures Valid()
      ensures vtxCount == n
      ensures dstBufferCount == Grow(old(dstBufferCount), n)
      ensures old(dstBufferCount) < n ==>
        fresh(dstMesh) && log == old(log) + [ResetData(OutMesh, n), ResetData(OutWeight, n)]
      ensures old(dstBufferCount) >= n ==> dstMesh == old(dstMesh) && log == old(log)
    {
      vtxCount := n;
      if dstBufferCount < n {
        dstBufferCount := n;
        dstMesh := new Vec3[vtxCount](_ => Vec3(0.0, 0.0, 0.0));
        outMeshCount := vtxCount;
        log := log + [ResetData(OutMesh, vtxCount)];
        outWeightCount := vtxCount;
        log := log + [ResetData(OutWeight, vtxCount)];
      }
    }

    /** writeSrc: stores the source view, origin positions and parameters, and
        decides blur. With blur on it sizes the work buffers to the vertex count
        and uploads one texture per connectivity block; `connection` is the
        block list the mesh's connectivity builder produces. */
    method WriteSrc(srcMesh: array?<Vec3>, originMesh: seq<Vec3>, p: FfdParam, connection: seq<Block>)
      requires Valid()
      requires srcMesh != null
      requires |originMesh| > 0
      modifies this`configured, this`srcMesh, this`srcCount, this`originMesh, this`param, this`useBlur,
               this`workInMeshCount, this`workInWeightCount, this`blocks, this`textures, this`log
      ensures Valid()
      ensures configured && this.srcMesh == srcMesh && srcCount == |originMesh|
      ensures this.originMesh == originMesh && param == p
      ensures useBlur == (p.brushType == kTypeDeformer && p.blur > 0.0)
      ensures useBlur ==> blocks == connection && |textures| == |connection|
                          && workInMeshCount == |originMesh| && workInWeightCount == |originMesh|
                          && log == old(log) + [ResetData(WorkInMesh, |originMesh|), ResetData(WorkInWeight, |originMesh|)]
      ensures !useBlur ==> blocks == old(blocks) && textures == old(textures)
                           && workInMeshCount == old(workInMeshCount) && workInWeightCount == old(workInWeightCount)
                           && log == old(log)
    {
      var n := |originMesh|;
      var blur := p.brushType == kTypeDeformer && p.blur > 0.0;
      configured, this.srcMesh, srcCount := true, srcMesh, n;
      param, this.originMesh, useBlur := p, originMesh, blur;
      if blur {
        workInMeshCount, workInWeightCount := n, n;
        log := log + [ResetData(WorkInMesh, n), ResetData(WorkInWeight, n)];
        var count := |connection|;
        var uploaded: seq<int> := seq(count, _ => 0);
        for i := 0 to count
          modifies {}
          invariant |uploaded| == count
          invariant forall k :: 0 <= k < i ==> uploaded[k] == connection[k].positionCount
        {
          uploaded := uploaded[i := connection[i].positionCount];
        }
        blocks, textures := connection, uploaded;
      }
    }

    /** setBrush: overwrites the four brush fields and nothing else. */
    method SetBrush(worldMtx: Mat4, worldInvMtx: Mat4, brushCenter: Vec2, brushVel: Vec2)
      requires Valid()
      modifies this`worldMtx, this`worldInvMtx, this`brushCenter, this`brushVel
      ensures Valid()
      ensures this.worldMtx == worldMtx && this.worldInvMtx == worldInvMtx
      ensures this.brushCenter == brushCenter && this.brushVel == brushVel
    {
      this.worldMtx := worldMtx;
      this.worldInvMtx := worldInvMtx;
      this.brushCenter := brushCenter;
      this.brushVel := brushVel;
    }

    /** onRequested: the deformation pass with the program of (type, hardness),
        drawing every source vertex once with feedback into the output position
        buffer (and the weight buffer for the deformer), then the blur pass iff
        blur is on. */
    method OnRequested()
      requires Valid()
      requires configured
      requires param.radius > 0.0
      requires srcCount <= outMeshCount
      requires KeyInRange(param.brushType, param.hardness, resource.hardnessLevels)
      modifies this`log
      ensures Valid()
      ensures log == old(log) + RequestEvents(param, resource.Program(param.brushType, param.hardness),
                                              srcCount, useBlur, blocks, textures)
    {
      var program := resource.Program(param.brushType, param.hardness);
      log := log + [BindProgram(program)];
      if param.brushType == kTypeDeformer {
        log := log + [BindFeedback(0, OutMesh), BindFeedback(1, OutWeight)];
      } else {
        log := log + [BindFeedback(0, OutMesh)];
      }
      log := log + [DrawPoints(0, srcCount)];
      if useBlur {
        RequestBlur();
      }
    }

    /** requestBlur: stages the outputs, then walks the blocks with a texture
        index that advances on every block, drawing each non-empty block's own
        vertex range into its own byte range of the output buffer. */
    method RequestBlur()
      requires Valid() && useBlur
      modifies this`log
      ensures Valid()
      ensures log == old(log) + BlurPassEvents(blocks, textures)
    {
      log := log + [CopyBuffer(WorkInMesh, OutMesh), CopyBuffer(WorkInWeight, OutWeight)];
      ghost var staged := log;
      var i := 0;
      while i < |blocks|
        invariant 0 <= i <= |blocks|
        invariant log == staged + BlurDraws(blocks[..i], textures)
      {
        var block := blocks[i];
        var begin := block.rangeMin;
        var count := block.rangeMax - block.rangeMin + 1;
        if count > 0 {
          var samples := textures[i];
          log := log + [BlurBlock(i, samples, begin * kVertexBytes, count * kVertexBytes, begin, count)];
        }
        assert blocks[..i + 1][..i] == blocks[..i];
        i := i + 1;
      }
      assert blocks[..i] == blocks;
    }

    /** onFinished: reads back the first vtxCount positions of the output
        buffer (whose device contents are `deviceMesh`) into the host store;
        the invariant makes the range fit both. */
    method OnFinished(deviceMesh: seq<Vec3>)
      requires Valid()
      requires |deviceMesh| == outMeshCount
      modifies dstMesh, this`log
      ensures Valid()
      ensures log == old(log) + [Readback(OutMesh, 0, vtxCount * kVertexBytes)]
      ensures vtxCount * kVertexBytes <= outMeshCount * kVertexBytes
      ensures dstMesh[..vtxCount] == deviceMesh[..vtxCount]
      ensures dstMesh[vtxCount..] == old(dstMesh[vtxCount..])
    {
      forall i | 0 <= i < vtxCount {
        dstMesh[i] := deviceMesh[i];
      }
      log := log + [Readback(OutMesh, 0, vtxCount * kVertexBytes)];
    }
  }
}
