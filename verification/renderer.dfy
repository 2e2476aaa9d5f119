/** The per-frame part of the renderer: the ring of constant buffers, the
    frame index that cycles over it, and the recursive walk of the scene that
    gives every node one 256-byte constant slot and issues its draws. */
module Renderer {
  import opened Wrappers
  import opened SceneGraph
  import opened Commands

  const MaxInFlightFrameCount: nat := 3
  /** Capacity of each constant buffer, in bytes. */
  const ConstantBufferLength: nat := 65536
  /** Stride between the constant slots of consecutive nodes, in bytes. */
  const ConstantAlignment: nat := 256
  /** Bytes copied per node: two 4x4 float matrices and one float4. */
  const InstanceConstantsSize: nat := 144
  /** The most nodes one frame can hold without writing past the buffer's end. */
  const MaxNodesPerFrame: nat := (ConstantBufferLength - InstanceConstantsSize) / ConstantAlignment + 1

  datatype ConstantBuffer = ConstantBuffer(length: nat)

  /** The renderer's per-frame state. */
  datatype State = State(constantBuffers: seq<ConstantBuffer>, frameIndex: nat)

  /** What the renderer keeps true: a full ring of full-size buffers and a
      frame index that selects one of them. */
  predicate Valid(st: State)
  {
    && |st.constantBuffers| == MaxInFlightFrameCount
    && st.frameIndex < MaxInFlightFrameCount
    && forall i | 0 <= i < |st.constantBuffers| :: st.constantBuffers[i].length == ConstantBufferLength
  }

  /** Allocates one constant buffer per frame that may be in flight. */
  method MakeConstantBuffers() returns (buffers: seq<ConstantBuffer>)
    ensures |buffers| == MaxInFlightFrameCount
    ensures forall i | 0 <= i < |buffers| :: buffers[i].length == ConstantBufferLength
  {
    buffers := [];
    var n := 0;
    while n < MaxInFlightFrameCount
      invariant n <= MaxInFlightFrameCount
      invariant |buffers| == n
      invariant forall i | 0 <= i < |buffers| :: buffers[i].length == ConstantBufferLength
    {
      buffers := buffers + [ConstantBuffer(ConstantBufferLength)];
      n := n + 1;
    }
  }

  /** The state a new renderer starts in. */
  method Init() returns (st: State)
    ensures Valid(st)
    ensures st.frameIndex == 0
  {
    var buffers := MakeConstantBuffers();
    st := State(buffers, 0);
  }

  /** Wireframe for a highlighted node, solid otherwise. */
  function FillModeFor(material: Material): (mode: FillMode)
    ensures mode == Lines <==> material.highlighted
  {
    if material.highlighted then Lines else Fill
  }

  /** The constants copied for a node drawn under `worldTransform`: the
      node's world matrix is `worldTransform * node.transform`. */
  function ConstantsFor(node: Node, worldTransform: Mat, viewMatrix: Mat, projectionMatrix: Mat): InstanceConstants
  {
    var worldMatrix := Mul(worldTransform, node.transform);
    InstanceConstants(
      Mul(Mul(projectionMatrix, viewMatrix), worldMatrix),
      Mul(viewMatrix, worldMatrix),
      node.material.color)
  }

  /** Binds the mesh's vertex buffers at consecutive indices from `index`. */
  function BindVertexBuffers(buffers: seq<MeshBuffer>, index: nat): (log: seq<Event>)
    decreases |buffers|
    ensures |log| == |buffers|
    ensures forall i | 0 <= i < |log| ::
              log[i] == SetVertexBuffer(MeshData(buffers[i]), buffers[i].offset, index + i)
  {
    if buffers == [] then []
    else [SetVertexBuffer(MeshData(buffers[0]), buffers[0].offset, index)] + BindVertexBuffers(buffers[1..], index + 1)
  }

  /** Sets the fill mode and draws, once per submesh. */
  function DrawSubmeshes(submeshes: seq<Submesh>, mode: FillMode): (log: seq<Event>)
    decreases |submeshes|
    ensures |log| == 2 * |submeshes|
    ensures forall e | e in log :: e == SetTriangleFillMode(mode) || e.DrawIndexedPrimitives?
  {
    if submeshes == [] then []
    else [SetTriangleFillMode(mode), DrawIndexedPrimitives(submeshes[0])] + DrawSubmeshes(submeshes[1..], mode)
  }

  /** What one node contributes before its children are visited: the copy of
      its constants, the binding of their offset, and its mesh's draws. */
  function NodeCommands(node: Node, worldTransform: Mat, viewMatrix: Mat, projectionMatrix: Mat,
                        slot: nat, constantOffset: nat): (log: seq<Event>)
    ensures |log| >= 2
    ensures log[0] == WriteConstants(slot, constantOffset, ConstantsFor(node, worldTransform, viewMatrix, projectionMatrix))
    ensures log[1] == SetVertexBufferOffset(constantOffset, InstanceConstantsIndex)
    ensures node.mesh.None? ==> |log| == 2
    ensures forall i | 2 <= i < |log| :: !log[i].WriteConstants?
  {
    var meshCommands :=
      match node.mesh
      case None => []
      case Some(mesh) =>
        BindVertexBuffers(mesh.vertexBuffers, 0) + DrawSubmeshes(mesh.submeshes, FillModeFor(node.material));
    assert forall e | e in meshCommands :: !e.WriteConstants?;
    [WriteConstants(slot, constantOffset, ConstantsFor(node, worldTransform, viewMatrix, projectionMatrix)),
     SetVertexBufferOffset(constantOffset, InstanceConstantsIndex)]
    + meshCommands
  }

  /** The log of one walk and the constant offset it leaves behind. */
  datatype Walk = Walk(log: seq<Event>, constantOffset: nat)

  /** Draws a subtree. The node takes the slot at `constantOffset`, the offset
      then moves on by one stride, and the children follow in order, each
      given the same `worldTransform` this node was given. */
  function DrawNode(node: Node, worldTransform: Mat, viewMatrix: Mat, projectionMatrix: Mat,
                    slot: nat, constantOffset: nat): (t: Walk)
    decreases node
    ensures t.constantOffset == constantOffset + ConstantAlignment * NodeCount(node)
  {
    var own := NodeCommands(node, worldTransform, viewMatrix, projectionMatrix, slot, constantOffset);
    var rest := DrawChildren(node.children, worldTransform, viewMatrix, projectionMatrix,
                             slot, constantOffset + ConstantAlignment);
    Walk(own + rest.log, rest.constantOffset)
  }

  /** Draws sibling subtrees one after another, threading the offset. */
  function DrawChildren(children: seq<Node>, worldTransform: Mat, viewMatrix: Mat, projectionMatrix: Mat,
                        slot: nat, constantOffset: nat): (t: Walk)
    decreases children
    ensures t.constantOffset == constantOffset + ConstantAlignment * |PreOrderAll(children)|
  {
    if children == [] then Walk([], constantOffset)
    else
      var first := DrawNode(children[0], worldTransform, viewMatrix, projectionMatrix, slot, constantOffset);
      var rest := DrawChildren(children[1..], worldTransform, viewMatrix, projectionMatrix,
                               slot, first.constantOffset);
      Walk(first.log + rest.log, rest.constantOffset)
  }

  /** One frame's state change and log. */
  datatype Frame = Frame(state: State, log: seq<Event>)

  /** Draws the scene from a point of view. Without a camera nothing happens.
      Otherwise the frame index moves to the next ring buffer, that buffer
      is bound at offset 0, and the walk starts from the root at offset 0
      with the identity as world transform. */
  function DrawFrame(st: State, scene: Scene, pointOfView: Option<PointOfView>, viewport: Viewport): (f: Frame)
    requires Valid(st)
    ensures Valid(f.state)
    ensures f.state.constantBuffers == st.constantBuffers
    ensures !HasCamera(pointOfView) ==> f.state == st && f.log == []
    ensures HasCamera(pointOfView) ==> f.state.frameIndex == (st.frameIndex + 1) % MaxInFlightFrameCount
  {
    if !HasCamera(pointOfView) then Frame(st, [])
    else
      var pov := pointOfView.value;
      var frameIndex := (st.frameIndex + 1) % MaxInFlightFrameCount;
      var walk := DrawNode(scene.rootNode, Identity, ViewMatrix(pov), ProjectionMatrix(pov, viewport),
                           frameIndex, 0);
      Frame(st.(frameIndex := frameIndex), FramePrologue(frameIndex) + walk.log)
  }

  /** The inverse of the camera node's world transform. */
  function ViewMatrix(pov: PointOfView): Mat
  {
    Inverse(pov.worldTransform)
  }

  /** The camera's projection for the viewport's aspect ratio. */
  function ProjectionMatrix(pov: PointOfView, viewport: Viewport): Mat
    requires pov.node.camera.Some?
  {
    Perspective(pov.node.camera.value, viewport)
  }

  /** Pipeline, depth-stencil state and the frame's constant buffer at offset 0. */
  function FramePrologue(frameIndex: nat): seq<Event>
  {
    [SetRenderPipelineState, SetDepthStencilState,
     SetVertexBuffer(ConstantRing(frameIndex), 0, InstanceConstantsIndex)]
  }
}
