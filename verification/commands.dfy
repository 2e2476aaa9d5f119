/** What one frame produces: the commands sent to the render command encoder
    and the copies of per-node constants into the constant buffer, as one
    ordered log, together with the meaning of that log for the encoder. */
module Commands {
  import opened Wrappers
  import opened SceneGraph

  /** The vertex-buffer index a mesh's first vertex buffer is bound at. */
  const VertexDataIndex: nat := 0

  /** The vertex-buffer index the per-node constants are bound at. */
  const InstanceConstantsIndex: nat := 1

  datatype FillMode = Fill | Lines

  /** A buffer that can be bound: one of the ring of constant buffers, named
      by its position in the ring, or a buffer owned by a mesh. */
  datatype BufferId = ConstantRing(slot: nat) | MeshData(buffer: MeshBuffer)

  /** The per-node constants: model-view-projection matrix, normal matrix and colour. */
  datatype InstanceConstants = InstanceConstants(
    modelViewProjectionMatrix: Mat,
    normalMatrix: Mat,
    color: Color)

  datatype Event =
    | SetRenderPipelineState
    | SetDepthStencilState
    | SetVertexBuffer(buffer: BufferId, offset: nat, index: nat)
    | SetVertexBufferOffset(offset: nat, index: nat)
    | SetTriangleFillMode(mode: FillMode)
    | DrawIndexedPrimitives(submesh: Submesh)
      /** The `memcpy` of one node's constants into ring buffer `slot` at byte `offset`. */
    | WriteConstants(slot: nat, offset: nat, constants: InstanceConstants)

  /** A buffer bound at some vertex-buffer index, and the offset bound with it. */
  datatype Binding = Binding(buffer: BufferId, offset: nat)

  /** The part of the render command encoder's state a draw depends on. */
  datatype EncoderState = EncoderState(vertexBuffers: map<nat, Binding>, fillMode: FillMode)

  /** A draw as the GPU sees it: which submesh, in which fill mode, and where
      its vertex function finds the vertex data and the instance constants. */
  datatype DrawCall = DrawCall(submesh: Submesh, fillMode: FillMode, vertices: Option<Binding>,
                               constants: Option<Binding>)

  /** The binding at a vertex-buffer index, if any. */
  function BindingAt(s: EncoderState, index: nat): Option<Binding>
  {
    if index in s.vertexBuffers then Some(s.vertexBuffers[index]) else None
  }

  /** The binding the vertex data is read through. */
  function VerticesBinding(s: EncoderState): Option<Binding>
  {
    BindingAt(s, VertexDataIndex)
  }

  /** The binding the instance constants are read through. */
  function ConstantsBinding(s: EncoderState): Option<Binding>
  {
    BindingAt(s, InstanceConstantsIndex)
  }

  /** The effect of one event on the encoder state. Changing only the offset
      keeps the buffer already bound at that index. */
  function Step(s: EncoderState, e: Event): (s': EncoderState)
    ensures !e.SetTriangleFillMode? ==> s'.fillMode == s.fillMode
    ensures e.SetTriangleFillMode? ==> s'.fillMode == e.mode && s'.vertexBuffers == s.vertexBuffers
    ensures !e.SetVertexBuffer? && !e.SetVertexBufferOffset? ==> s'.vertexBuffers == s.vertexBuffers
    ensures e.SetVertexBuffer? ==> s'.vertexBuffers == s.vertexBuffers[e.index := Binding(e.buffer, e.offset)]
    ensures e.SetVertexBufferOffset? ==>
              s'.vertexBuffers.Keys == s.vertexBuffers.Keys
              && (forall i | i in s.vertexBuffers && i != e.index :: s'.vertexBuffers[i] == s.vertexBuffers[i])
              && (e.index in s.vertexBuffers ==>
                    s'.vertexBuffers[e.index] == Binding(s.vertexBuffers[e.index].buffer, e.offset))
  {
    match e
    case SetVertexBuffer(buffer, offset, index) =>
      s.(vertexBuffers := s.vertexBuffers[index := Binding(buffer, offset)])
    case SetVertexBufferOffset(offset, index) =>
      if index in s.vertexBuffers
      then s.(vertexBuffers := s.vertexBuffers[index := s.vertexBuffers[index].(offset := offset)])
      else s
    case SetTriangleFillMode(mode) => s.(fillMode := mode)
    case _ => s
  }

  /** The encoder state after a whole log. */
  function Run(s: EncoderState, log: seq<Event>): EncoderState
    decreases |log|
  {
    if log == [] then s else Run(Step(s, log[0]), log[1..])
  }

  /** The draws a log issues, each with the encoder state in force when it is issued. */
  function DrawCalls(s: EncoderState, log: seq<Event>): (draws: seq<DrawCall>)
    decreases |log|
    ensures |draws| <= |log|
  {
    if log == [] then []
    else
      (if log[0].DrawIndexedPrimitives?
       then [DrawCall(log[0].submesh, s.fillMode, VerticesBinding(s), ConstantsBinding(s))]
       else [])
      + DrawCalls(Step(s, log[0]), log[1..])
  }

  /** The constant-buffer writes of a log, in order. */
  function Writes(log: seq<Event>): (writes: seq<Event>)
    decreases |log|
    ensures |writes| <= |log|
    ensures forall e | e in writes :: e.WriteConstants? && e in log
  {
    if log == [] then []
    else (if log[0].WriteConstants? then [log[0]] else []) + Writes(log[1..])
  }

  lemma {:induction false} RunAppend(s: EncoderState, a: seq<Event>, b: seq<Event>)
    ensures Run(s, a + b) == Run(Run(s, a), b)
    decreases |a|
  {
    if a == [] {
      assert a + b == b;
    } else {
      assert (a + b)[1..] == a[1..] + b;
      RunAppend(Step(s, a[0]), a[1..], b);
    }
  }

  lemma {:induction false} DrawCallsAppend(s: EncoderState, a: seq<Event>, b: seq<Event>)
    ensures DrawCalls(s, a + b) == DrawCalls(s, a) + DrawCalls(Run(s, a), b)
    decreases |a|
  {
    if a == [] {
      assert a + b == b;
    } else {
      assert (a + b)[1..] == a[1..] + b;
      DrawCallsAppend(Step(s, a[0]), a[1..], b);
    }
  }

  lemma {:induction false} WritesAppend(a: seq<Event>, b: seq<Event>)
    ensures Writes(a + b) == Writes(a) + Writes(b)
    decreases |a|
  {
    if a == [] {
      assert a + b == b;
    } else {
      assert (a + b)[1..] == a[1..] + b;
      WritesAppend(a[1..], b);
    }
  }
}
