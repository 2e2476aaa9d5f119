/** Properties of whole frames: where one frame's constants go, what its
    draws read, when its writes fit in the buffer, and how consecutive
    frames move round the ring of constant buffers. */
module Frames {
  import opened Wrappers
  import opened SceneGraph
  import opened Commands
  import opened Renderer
  import opened Traversal

  /** Every constant copy of the log ends inside its constant buffer. */
  predicate WritesInBounds(log: seq<Event>)
  {
    forall e | e in Writes(log) :: e.WriteConstants? && e.offset + InstanceConstantsSize <= ConstantBufferLength
  }

  /** Why a frame was refused. */
  datatype RenderError = CapacityExceeded(nodeCount: nat, capacity: nat)

  lemma {:induction false} PrologueEffect(frameIndex: nat, s: EncoderState)
    ensures Writes(FramePrologue(frameIndex)) == []
    ensures DrawCalls(s, FramePrologue(frameIndex)) == []
    ensures ConstantsBoundTo(Run(s, FramePrologue(frameIndex)), frameIndex)
    ensures VerticesBinding(Run(s, FramePrologue(frameIndex))) == VerticesBinding(s)
  {
    var log := FramePrologue(frameIndex);
    NoWrites(log);
    var t1 := log[1..];
    var t2 := t1[1..];
    assert t2[1..] == [];
    var s1 := Step(s, log[0]);
    var s2 := Step(s1, t1[0]);
    var s3 := Step(s2, t2[0]);
    assert DrawCalls(s, log) == DrawCalls(s1, t1) == DrawCalls(s2, t2) == DrawCalls(s3, []) == [];
    assert Run(s, log) == Run(s1, t1) == Run(s2, t2) == Run(s3, []) == s3;
  }

  /** In a frame with a camera the k-th node of the pre-order, for every k,
      has its constants copied to byte 256 * k of the constant buffer the
      new frame index selects, under the identity as world transform; there
      is exactly one copy per node, whatever the frame before left behind. */
  lemma {:induction false} FrameWrites(st: State, scene: Scene, pointOfView: Option<PointOfView>, viewport: Viewport)
    requires Valid(st)
    requires HasCamera(pointOfView)
    ensures var f := DrawFrame(st, scene, pointOfView, viewport);
            var nodes := PreOrder(scene.rootNode);
            && |Writes(f.log)| == NodeCount(scene.rootNode)
            && forall k | 0 <= k < |nodes| ::
                 Writes(f.log)[k]
                 == WriteConstants(f.state.frameIndex, ConstantAlignment * k,
                                   ConstantsFor(nodes[k], Identity, ViewMatrix(pointOfView.value),
                                                ProjectionMatrix(pointOfView.value, viewport)))
  {
    var f := DrawFrame(st, scene, pointOfView, viewport);
    var view := ViewMatrix(pointOfView.value);
    var proj := ProjectionMatrix(pointOfView.value, viewport);
    var nodes := PreOrder(scene.rootNode);
    FrameWritesAreSlotWrites(st, scene, pointOfView, viewport);
    forall k | 0 <= k < |nodes|
      ensures Writes(f.log)[k]
           == WriteConstants(f.state.frameIndex, ConstantAlignment * k, ConstantsFor(nodes[k], Identity, view, proj))
    {
      SlotWritesAt(nodes, Identity, view, proj, f.state.frameIndex, 0, k);
    }
  }

  /** The constants a frame copies for each node, written out: with the
      view matrix V, the inverse of the camera node's world transform, and
      the projection P, the camera's perspective for the viewport, node k
      of the pre-order gets model-view-projection `P * V * (identity *
      transform)`, normal matrix `V * (identity * transform)`, and its
      material's colour. No ancestor's transform enters. */
  lemma {:induction false} FrameConstants(st: State, scene: Scene, pointOfView: Option<PointOfView>, viewport: Viewport)
    requires Valid(st)
    requires HasCamera(pointOfView)
    ensures var f := DrawFrame(st, scene, pointOfView, viewport);
            var nodes := PreOrder(scene.rootNode);
            var v := Inverse(pointOfView.value.worldTransform);
            var p := Perspective(pointOfView.value.node.camera.value, viewport);
            forall k | 0 <= k < |nodes| ::
              && k < |Writes(f.log)|
              && Writes(f.log)[k].WriteConstants?
              && Writes(f.log)[k].constants
                 == InstanceConstants(Mul(Mul(p, v), Mul(Identity, nodes[k].transform)),
                                      Mul(v, Mul(Identity, nodes[k].transform)),
                                      nodes[k].material.color)
  {
    FrameWrites(st, scene, pointOfView, viewport);
  }

  /** The 144-byte copies of a frame never overlap: any two of them, for
      different nodes, lie in disjoint byte ranges of the buffer, since
      they are 256 bytes apart. */
  lemma {:induction false} FrameCopiesDisjoint(st: State, scene: Scene, pointOfView: Option<PointOfView>, viewport: Viewport,
                            j: nat, k: nat)
    requires Valid(st)
    requires HasCamera(pointOfView)
    requires j < NodeCount(scene.rootNode) && k < NodeCount(scene.rootNode) && j != k
    ensures var writes := Writes(DrawFrame(st, scene, pointOfView, viewport).log);
            && j < |writes| && k < |writes|
            && writes[j].WriteConstants? && writes[k].WriteConstants?
            && writes[j].slot == writes[k].slot
            && (writes[j].offset + InstanceConstantsSize <= writes[k].offset
                || writes[k].offset + InstanceConstantsSize <= writes[j].offset)
  {
    FrameWrites(st, scene, pointOfView, viewport);
    if j < k {
      assert ConstantAlignment * j + ConstantAlignment <= ConstantAlignment * k;
    } else {
      assert ConstantAlignment * k + ConstantAlignment <= ConstantAlignment * j;
    }
  }

  lemma {:induction false} FrameWritesAreSlotWrites(st: State, scene: Scene, pointOfView: Option<PointOfView>, viewport: Viewport)
    requires Valid(st)
    requires HasCamera(pointOfView)
    ensures var f := DrawFrame(st, scene, pointOfView, viewport);
            Writes(f.log) == SlotWrites(PreOrder(scene.rootNode), Identity, ViewMatrix(pointOfView.value),
                                        ProjectionMatrix(pointOfView.value, viewport), f.state.frameIndex, 0)
  {
    var f := DrawFrame(st, scene, pointOfView, viewport);
    var fi := f.state.frameIndex;
    var view := ViewMatrix(pointOfView.value);
    var proj := ProjectionMatrix(pointOfView.value, viewport);
    var walk := DrawNode(scene.rootNode, Identity, view, proj, fi, 0);
    assert f.log == FramePrologue(fi) + walk.log;
    WritesAppend(FramePrologue(fi), walk.log);
    PrologueEffect(fi, EncoderState(map[], Fill));
    NodeWrites(scene.rootNode, Identity, view, proj, fi, 0);
  }

  /** In a frame with a camera, and meshes built for the renderer's vertex
      layout, the draws are those of the reference: node k of the pre-order
      draws each of its submeshes once, in order, wireframe iff highlighted,
      reading its constants from byte 256 * k of the frame's buffer and its
      vertex data from its mesh's vertex buffer; nodes without a mesh draw
      nothing. Only a mesh without vertex buffers reads whatever vertex data
      was bound before it, possibly by the previous frame. */
  lemma {:induction false} FrameDraws(st: State, scene: Scene, pointOfView: Option<PointOfView>, viewport: Viewport, s: EncoderState)
    requires Valid(st)
    requires HasCamera(pointOfView)
    requires AllMeshesFit(PreOrder(scene.rootNode))
    ensures var f := DrawFrame(st, scene, pointOfView, viewport);
            DrawCalls(s, f.log) == ExpectedDraws(PreOrder(scene.rootNode), f.state.frameIndex, 0, VerticesBinding(s))
  {
    var f := DrawFrame(st, scene, pointOfView, viewport);
    var pov := pointOfView.value;
    var fi := f.state.frameIndex;
    var walk := DrawNode(scene.rootNode, Identity, ViewMatrix(pov), ProjectionMatrix(pov, viewport), fi, 0);
    assert f.log == FramePrologue(fi) + walk.log;
    PrologueEffect(fi, s);
    DrawCallsAppend(s, FramePrologue(fi), walk.log);
    NodeDrawCalls(scene.rootNode, Identity, ViewMatrix(pov), ProjectionMatrix(pov, viewport), fi, 0,
                  Run(s, FramePrologue(fi)));
  }

  /** A frame issues exactly one draw per submesh of the scene, and every
      submesh of node k is drawn from byte 256 * k of the frame's buffer,
      with the vertex data the walk has bound by then: the node's own first
      vertex buffer, with its offset, when its mesh has one. */
  lemma {:induction false} FrameDrawsComplete(st: State, scene: Scene, pointOfView: Option<PointOfView>, viewport: Viewport,
                           s: EncoderState)
    requires Valid(st)
    requires HasCamera(pointOfView)
    requires AllMeshesFit(PreOrder(scene.rootNode))
    ensures var f := DrawFrame(st, scene, pointOfView, viewport);
            |DrawCalls(s, f.log)| == SubmeshTotal(PreOrder(scene.rootNode))
    ensures var f := DrawFrame(st, scene, pointOfView, viewport);
            var nodes := PreOrder(scene.rootNode);
            forall k, i | 0 <= k < |nodes| && nodes[k].mesh.Some? && 0 <= i < |nodes[k].mesh.value.submeshes| ::
              DrawCall(nodes[k].mesh.value.submeshes[i], FillModeFor(nodes[k].material),
                       VerticesAfter(nodes[k], VerticesAfterAll(nodes[..k], VerticesBinding(s))),
                       Some(Binding(ConstantRing(f.state.frameIndex), ConstantAlignment * k)))
              in DrawCalls(s, f.log)
  {
    var f := DrawFrame(st, scene, pointOfView, viewport);
    var nodes := PreOrder(scene.rootNode);
    FrameDraws(st, scene, pointOfView, viewport, s);
    ExpectedDrawCount(nodes, f.state.frameIndex, 0, VerticesBinding(s));
    forall k, i | 0 <= k < |nodes| && nodes[k].mesh.Some? && 0 <= i < |nodes[k].mesh.value.submeshes|
      ensures DrawCall(nodes[k].mesh.value.submeshes[i], FillModeFor(nodes[k].material),
                       VerticesAfter(nodes[k], VerticesAfterAll(nodes[..k], VerticesBinding(s))),
                       Some(Binding(ConstantRing(f.state.frameIndex), ConstantAlignment * k)))
              in DrawCalls(s, f.log)
    {
      EverySubmeshDrawn(nodes, f.state.frameIndex, 0, VerticesBinding(s), k, i);
    }
  }

  /** A reference draw reads the slot its node's reference write filled. */
  lemma {:induction false} DrawOwnerWrite(nodes: seq<Node>, worldTransform: Mat, viewMatrix: Mat, projectionMatrix: Mat,
                       slot: nat, writes: seq<Event>, before: Option<Binding>, d: DrawCall)
    requires writes == SlotWrites(nodes, worldTransform, viewMatrix, projectionMatrix, slot, 0)
    requires d in ExpectedDraws(nodes, slot, 0, before)
    ensures exists k | 0 <= k < |nodes| && k < |writes| ::
              && nodes[k].mesh.Some?
              && d.submesh in nodes[k].mesh.value.submeshes
              && d.fillMode == FillModeFor(nodes[k].material)
              && (FirstVertexBuffer(nodes[k].mesh.value).Some? ==> d.vertices == FirstVertexBuffer(nodes[k].mesh.value))
              && writes[k].WriteConstants?
              && writes[k].constants == ConstantsFor(nodes[k], worldTransform, viewMatrix, projectionMatrix)
              && d.constants == Some(Binding(ConstantRing(writes[k].slot), writes[k].offset))
  {
    ExpectedDrawOwner(nodes, slot, 0, before, d);
    var k :| 0 <= k < |nodes| && DrawnFor(nodes[k], slot, 0 + ConstantAlignment * k, d);
    SlotWritesAt(nodes, worldTransform, viewMatrix, projectionMatrix, slot, 0, k);
  }

  /** Each draw of a frame reads its constants from exactly the place where
      the constants of the node it draws were copied: the offset bound for
      a node's draws is the offset of its own write. It reads its vertex
      data from that node's first vertex buffer, at that buffer's own
      offset, whenever the node's mesh has one. */
  lemma {:induction false} DrawsReadOwnConstants(st: State, scene: Scene, pointOfView: Option<PointOfView>, viewport: Viewport,
                              s: EncoderState, d: DrawCall)
    requires Valid(st)
    requires HasCamera(pointOfView)
    requires AllMeshesFit(PreOrder(scene.rootNode))
    requires d in DrawCalls(s, DrawFrame(st, scene, pointOfView, viewport).log)
    ensures var f := DrawFrame(st, scene, pointOfView, viewport);
            var nodes := PreOrder(scene.rootNode);
            exists k | 0 <= k < |nodes| && k < |Writes(f.log)| ::
              && nodes[k].mesh.Some?
              && d.submesh in nodes[k].mesh.value.submeshes
              && d.fillMode == FillModeFor(nodes[k].material)
              && (|nodes[k].mesh.value.vertexBuffers| > 0 ==>
                    d.vertices == Some(Binding(MeshData(nodes[k].mesh.value.vertexBuffers[0]),
                                               nodes[k].mesh.value.vertexBuffers[0].offset)))
              && Writes(f.log)[k].WriteConstants?
              && Writes(f.log)[k].constants
                 == ConstantsFor(nodes[k], Identity, ViewMatrix(pointOfView.value),
                                 ProjectionMatrix(pointOfView.value, viewport))
              && d.constants == Some(Binding(ConstantRing(Writes(f.log)[k].slot), Writes(f.log)[k].offset))
  {
    var f := DrawFrame(st, scene, pointOfView, viewport);
    FrameDraws(st, scene, pointOfView, viewport, s);
    FrameWritesAreSlotWrites(st, scene, pointOfView, viewport);
    DrawOwnerWrite(PreOrder(scene.rootNode), Identity, ViewMatrix(pointOfView.value),
                   ProjectionMatrix(pointOfView.value, viewport), f.state.frameIndex, Writes(f.log),
                   VerticesBinding(s), d);
  }

  /** A frame's copies stay inside the 65536-byte buffer exactly when the
      scene has at most 256 nodes; nothing in the frame checks this. */
  lemma {:induction false} FrameFitsIff(st: State, scene: Scene, pointOfView: Option<PointOfView>, viewport: Viewport)
    requires Valid(st)
    requires HasCamera(pointOfView)
    ensures WritesInBounds(DrawFrame(st, scene, pointOfView, viewport).log)
            <==> NodeCount(scene.rootNode) <= MaxNodesPerFrame
  {
    var log := DrawFrame(st, scene, pointOfView, viewport).log;
    var n := NodeCount(scene.rootNode);
    FrameWrites(st, scene, pointOfView, viewport);
    assert MaxNodesPerFrame == 256;
    if n <= MaxNodesPerFrame {
      forall e | e in Writes(log)
        ensures e.WriteConstants? && e.offset + InstanceConstantsSize <= ConstantBufferLength
      {
        var k :| 0 <= k < |Writes(log)| && Writes(log)[k] == e;
        assert e.offset == ConstantAlignment * k <= ConstantAlignment * 255;
      }
    } else {
      var last := Writes(log)[MaxNodesPerFrame];
      assert last in Writes(log);
      assert last.offset == ConstantAlignment * 256;
    }
  }

  /** The frame with the capacity requirement checked: a scene too large
      for one constant buffer is refused before anything is written or the
      frame index moves; otherwise the frame is the unchecked one and all
      its copies stay inside the buffer. */
  function DrawFrameChecked(st: State, scene: Scene, pointOfView: Option<PointOfView>, viewport: Viewport)
    : (r: Result<Frame, RenderError>)
    requires Valid(st)
    ensures r.Failure? <==> HasCamera(pointOfView) && NodeCount(scene.rootNode) > MaxNodesPerFrame
    ensures r.Failure? ==> r.error == CapacityExceeded(NodeCount(scene.rootNode), MaxNodesPerFrame)
    ensures r.Success? ==> r.value == DrawFrame(st, scene, pointOfView, viewport) && WritesInBounds(r.value.log)
  {
    if !HasCamera(pointOfView) then
      Success(DrawFrame(st, scene, pointOfView, viewport))
    else if NodeCount(scene.rootNode) > MaxNodesPerFrame then
      Failure(CapacityExceeded(NodeCount(scene.rootNode), MaxNodesPerFrame))
    else
      FrameFitsIff(st, scene, pointOfView, viewport);
      Success(DrawFrame(st, scene, pointOfView, viewport))
  }

  /** Three consecutive frames with a camera write to three different
      constant buffers, and the third leaves the frame index where it was:
      a buffer is reused only three frames later. */
  lemma {:induction false} RingRotation(st: State, scenes: seq<Scene>, views: seq<Option<PointOfView>>, viewport: Viewport)
    requires Valid(st)
    requires |scenes| == 3 && |views| == 3
    requires forall i | 0 <= i < 3 :: HasCamera(views[i])
    ensures var f1 := DrawFrame(st, scenes[0], views[0], viewport);
            var f2 := DrawFrame(f1.state, scenes[1], views[1], viewport);
            var f3 := DrawFrame(f2.state, scenes[2], views[2], viewport);
            && f1.state.frameIndex != f2.state.frameIndex
            && f2.state.frameIndex != f3.state.frameIndex
            && f1.state.frameIndex != f3.state.frameIndex
            && f3.state.frameIndex == st.frameIndex
  {
    assert HasCamera(views[0]) && HasCamera(views[1]) && HasCamera(views[2]);
  }

  /** The inputs of one call to draw the scene. */
  datatype FrameInput = FrameInput(scene: Scene, pointOfView: Option<PointOfView>, viewport: Viewport)

  /** The renderer state after drawing a sequence of frames, one per display refresh. */
  function RunFrames(st: State, inputs: seq<FrameInput>): (final: State)
    requires Valid(st)
    decreases |inputs|
    ensures Valid(final)
    ensures final.constantBuffers == st.constantBuffers
  {
    if inputs == [] then st
    else RunFrames(DrawFrame(st, inputs[0].scene, inputs[0].pointOfView, inputs[0].viewport).state, inputs[1..])
  }

  /** How many of the inputs have a camera to draw from. */
  function CameraFrames(inputs: seq<FrameInput>): nat
    decreases |inputs|
  {
    if inputs == [] then 0
    else (if HasCamera(inputs[0].pointOfView) then 1 else 0) + CameraFrames(inputs[1..])
  }

  /** The frame index counts the frames that had a camera, modulo three;
      frames skipped for want of a camera do not move it. */
  lemma {:induction false} FrameIndexAfterFrames(st: State, inputs: seq<FrameInput>)
    requires Valid(st)
    ensures RunFrames(st, inputs).frameIndex == (st.frameIndex + CameraFrames(inputs)) % MaxInFlightFrameCount
    decreases |inputs|
  {
    if inputs != [] {
      var next := DrawFrame(st, inputs[0].scene, inputs[0].pointOfView, inputs[0].viewport).state;
      FrameIndexAfterFrames(next, inputs[1..]);
      var c := CameraFrames(inputs[1..]);
      if HasCamera(inputs[0].pointOfView) {
        ModSucc(st.frameIndex, c);
      }
    }
  }

  lemma {:induction false} ModSucc(a: nat, c: nat)
    requires a < MaxInFlightFrameCount
    ensures ((a + 1) % MaxInFlightFrameCount + c) % MaxInFlightFrameCount == (a + 1 + c) % MaxInFlightFrameCount
  {
    if a + 1 == MaxInFlightFrameCount {
      assert (a + 1 + c) % MaxInFlightFrameCount == c % MaxInFlightFrameCount;
    }
  }

  /** Children are drawn under the world transform their parent was given,
      not under the parent's own world matrix: child i of a node gets the
      slot after its earlier siblings' subtrees, and its world matrix is
      `worldTransform * child.transform`. */
  lemma {:induction false} ChildDrawnUnderParentArgument(node: Node, worldTransform: Mat, viewMatrix: Mat, projectionMatrix: Mat,
                                      slot: nat, constantOffset: nat, i: nat)
    requires i < |node.children|
    ensures var k := 1 + |PreOrderAll(node.children[..i])|;
            var writes := Writes(DrawNode(node, worldTransform, viewMatrix, projectionMatrix, slot, constantOffset).log);
            && k < |writes|
            && writes[k] == WriteConstants(slot, constantOffset + ConstantAlignment * k,
                                           ConstantsFor(node.children[i], worldTransform, viewMatrix, projectionMatrix))
            && writes[k].constants.normalMatrix == Mul(viewMatrix, Mul(worldTransform, node.children[i].transform))
  {
    var k := 1 + |PreOrderAll(node.children[..i])|;
    var child := node.children[i];
    var writes := Writes(DrawNode(node, worldTransform, viewMatrix, projectionMatrix, slot, constantOffset).log);
    var copy := ConstantsFor(child, worldTransform, viewMatrix, projectionMatrix);
    assert k < |PreOrder(node)| && PreOrder(node)[k] == child by {
      ChildrenInPreOrder(node, i);
    }
    assert k < |writes| && writes[k] == WriteConstants(slot, constantOffset + ConstantAlignment * k, copy) by {
      WriteOfPreOrderNode(node, worldTransform, viewMatrix, projectionMatrix, slot, constantOffset, k);
    }
    assert copy.normalMatrix == Mul(viewMatrix, Mul(worldTransform, child.transform));
  }

  /** The k-th write of a subtree walk is the copy of the k-th visited
      node's constants, at the k-th slot from the walk's offset. */
  lemma {:induction false} WriteOfPreOrderNode(node: Node, worldTransform: Mat, viewMatrix: Mat, projectionMatrix: Mat,
                            slot: nat, constantOffset: nat, k: nat)
    requires k < |PreOrder(node)|
    ensures var writes := Writes(DrawNode(node, worldTransform, viewMatrix, projectionMatrix, slot, constantOffset).log);
            && k < |writes|
            && writes[k] == WriteConstants(slot, constantOffset + ConstantAlignment * k,
                                           ConstantsFor(PreOrder(node)[k], worldTransform, viewMatrix, projectionMatrix))
  {
    NodeWrites(node, worldTransform, viewMatrix, projectionMatrix, slot, constantOffset);
    SlotWritesAt(PreOrder(node), worldTransform, viewMatrix, projectionMatrix, slot, constantOffset, k);
  }
}
