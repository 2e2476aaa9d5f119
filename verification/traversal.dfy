/** What the walk of one subtree writes and draws, stated against reference
    definitions indexed by pre-order position, and proved by induction on
    the tree. */
module Traversal {
  import opened Wrappers
  import opened SceneGraph
  import opened Commands
  import opened Renderer

  /** Reference writes: the k-th node of `nodes` has its constants, under
      the one `worldTransform` given, copied to ring buffer `slot` at byte
      `base + 256 * k` (see `SlotWritesAt`). */
  function SlotWrites(nodes: seq<Node>, worldTransform: Mat, viewMatrix: Mat, projectionMatrix: Mat,
                      slot: nat, base: nat): (writes: seq<Event>)
    decreases |nodes|
    ensures |writes| == |nodes|
  {
    if nodes == [] then []
    else [WriteConstants(slot, base, ConstantsFor(nodes[0], worldTransform, viewMatrix, projectionMatrix))]
         + SlotWrites(nodes[1..], worldTransform, viewMatrix, projectionMatrix, slot, base + ConstantAlignment)
  }

  /** The binding of a mesh's first vertex buffer, with that buffer's own offset. */
  function FirstVertexBuffer(mesh: Mesh): Option<Binding>
  {
    if |mesh.vertexBuffers| > 0
    then Some(Binding(MeshData(mesh.vertexBuffers[0]), mesh.vertexBuffers[0].offset))
    else None
  }

  /** The vertex data in force once a node's own commands have run, given
      the binding `before` them: its mesh's first vertex buffer, or, for a
      node without a mesh or a mesh without vertex buffers, `before`. */
  function VerticesAfter(node: Node, before: Option<Binding>): Option<Binding>
  {
    if node.mesh.Some? && FirstVertexBuffer(node.mesh.value).Some?
    then FirstVertexBuffer(node.mesh.value)
    else before
  }

  /** The same over a sequence of nodes, in order. */
  function VerticesAfterAll(nodes: seq<Node>, before: Option<Binding>): Option<Binding>
    decreases |nodes|
  {
    if nodes == [] then before else VerticesAfterAll(nodes[1..], VerticesAfter(nodes[0], before))
  }

  /** Reference draws of one node whose constants sit at `offset`: one per
      submesh, in order, wireframe iff highlighted, reading the vertex data
      its mesh bound (or, if it bound none, the binding `before`) and the
      constants from that offset of ring buffer `slot`; none without a mesh. */
  function NodeDraws(node: Node, slot: nat, offset: nat, before: Option<Binding>): seq<DrawCall>
  {
    match node.mesh
    case None => []
    case Some(mesh) =>
      seq(|mesh.submeshes|, i requires 0 <= i < |mesh.submeshes| =>
        DrawCall(mesh.submeshes[i], FillModeFor(node.material), VerticesAfter(node, before),
                 Some(Binding(ConstantRing(slot), offset))))
  }

  /** Reference draws of a pre-order: node k draws from slot offset
      `base + 256 * k`, with the vertex data the nodes before it left bound. */
  function ExpectedDraws(nodes: seq<Node>, slot: nat, base: nat, before: Option<Binding>): seq<DrawCall>
    decreases |nodes|
  {
    if nodes == [] then []
    else NodeDraws(nodes[0], slot, base, before)
         + ExpectedDraws(nodes[1..], slot, base + ConstantAlignment, VerticesAfter(nodes[0], before))
  }

  /** The number of submeshes over the nodes that have a mesh. */
  function SubmeshTotal(nodes: seq<Node>): nat
    decreases |nodes|
  {
    if nodes == [] then 0
    else (if nodes[0].mesh.Some? then |nodes[0].mesh.value.submeshes| else 0) + SubmeshTotal(nodes[1..])
  }

  /** There are exactly as many reference draws as submeshes. */
  lemma {:induction false} ExpectedDrawCount(nodes: seq<Node>, slot: nat, base: nat, before: Option<Binding>)
    ensures |ExpectedDraws(nodes, slot, base, before)| == SubmeshTotal(nodes)
    decreases |nodes|
  {
    if nodes != [] {
      ExpectedDrawCount(nodes[1..], slot, base + ConstantAlignment, VerticesAfter(nodes[0], before));
    }
  }

  /** Conversely, every submesh of every node k that has a mesh is drawn,
      in the node's fill mode, from slot k, with the vertex data bound by
      the time node k's own commands have run. */
  lemma {:induction false} EverySubmeshDrawn(nodes: seq<Node>, slot: nat, base: nat, before: Option<Binding>,
                                             k: nat, i: nat)
    requires k < |nodes| && nodes[k].mesh.Some? && i < |nodes[k].mesh.value.submeshes|
    ensures DrawCall(nodes[k].mesh.value.submeshes[i], FillModeFor(nodes[k].material),
                     VerticesAfter(nodes[k], VerticesAfterAll(nodes[..k], before)),
                     Some(Binding(ConstantRing(slot), base + ConstantAlignment * k)))
            in ExpectedDraws(nodes, slot, base, before)
    decreases k
  {
    if k == 0 {
      assert nodes[..0] == [];
      assert NodeDraws(nodes[0], slot, base, before)[i] in NodeDraws(nodes[0], slot, base, before);
    } else {
      var next := VerticesAfter(nodes[0], before);
      EverySubmeshDrawn(nodes[1..], slot, base + ConstantAlignment, next, k - 1, i);
      assert nodes[..k][1..] == nodes[1..][..k - 1];
      assert VerticesAfterAll(nodes[..k], before) == VerticesAfterAll(nodes[1..][..k - 1], next);
      assert base + ConstantAlignment + ConstantAlignment * (k - 1) == base + ConstantAlignment * k;
    }
  }

  /** `d` draws one of the node's submeshes, in the node's fill mode, from
      byte `offset` of ring buffer `slot`, and from the node's first vertex
      buffer when its mesh has one. */
  predicate DrawnFor(node: Node, slot: nat, offset: nat, d: DrawCall)
  {
    && node.mesh.Some?
    && d.submesh in node.mesh.value.submeshes
    && d.fillMode == FillModeFor(node.material)
    && (FirstVertexBuffer(node.mesh.value).Some? ==> d.vertices == FirstVertexBuffer(node.mesh.value))
    && d.constants == Some(Binding(ConstantRing(slot), offset))
  }

  /** Every reference draw belongs to some node k with a mesh, and reads slot k. */
  lemma {:induction false} ExpectedDrawOwner(nodes: seq<Node>, slot: nat, base: nat, before: Option<Binding>,
                                             d: DrawCall)
    requires d in ExpectedDraws(nodes, slot, base, before)
    ensures exists k | 0 <= k < |nodes| :: DrawnFor(nodes[k], slot, base + ConstantAlignment * k, d)
    decreases |nodes|
  {
    var own := NodeDraws(nodes[0], slot, base, before);
    if d in own {
      var i :| 0 <= i < |own| && own[i] == d;
      assert DrawnFor(nodes[0], slot, base + ConstantAlignment * 0, d);
    } else {
      ExpectedDrawOwner(nodes[1..], slot, base + ConstantAlignment, VerticesAfter(nodes[0], before), d);
      var k :| 0 <= k < |nodes[1..]| && DrawnFor(nodes[1..][k], slot, base + ConstantAlignment + ConstantAlignment * k, d);
      assert base + ConstantAlignment + ConstantAlignment * k == base + ConstantAlignment * (k + 1);
      assert DrawnFor(nodes[k + 1], slot, base + ConstantAlignment * (k + 1), d);
    }
  }

  /** The encoder has ring buffer `slot` bound at the instance-constants index. */
  predicate ConstantsBoundTo(s: EncoderState, slot: nat)
  {
    InstanceConstantsIndex in s.vertexBuffers && s.vertexBuffers[InstanceConstantsIndex].buffer == ConstantRing(slot)
  }

  /** A mesh whose vertex buffers all sit below the instance-constants index,
      as a mesh built for the renderer's one-layout vertex descriptor does. */
  predicate MeshFits(node: Node)
  {
    node.mesh.Some? ==> |node.mesh.value.vertexBuffers| <= InstanceConstantsIndex
  }

  predicate AllMeshesFit(nodes: seq<Node>)
  {
    forall n | n in nodes :: MeshFits(n)
  }

  lemma {:induction false} SlotWritesAppend(a: seq<Node>, b: seq<Node>, worldTransform: Mat, viewMatrix: Mat,
                                            projectionMatrix: Mat, slot: nat, base: nat)
    ensures SlotWrites(a + b, worldTransform, viewMatrix, projectionMatrix, slot, base)
         == SlotWrites(a, worldTransform, viewMatrix, projectionMatrix, slot, base)
          + SlotWrites(b, worldTransform, viewMatrix, projectionMatrix, slot, base + ConstantAlignment * |a|)
    decreases |a|
  {
    if a == [] {
      assert a + b == b;
    } else {
      assert (a + b)[1..] == a[1..] + b;
      SlotWritesAppend(a[1..], b, worldTransform, viewMatrix, projectionMatrix, slot, base + ConstantAlignment);
    }
  }

  /** The k-th reference write goes to byte `base + 256 * k`. */
  lemma {:induction false} SlotWritesAt(nodes: seq<Node>, worldTransform: Mat, viewMatrix: Mat, projectionMatrix: Mat,
                                        slot: nat, base: nat, k: nat)
    requires k < |nodes|
    ensures SlotWrites(nodes, worldTransform, viewMatrix, projectionMatrix, slot, base)[k]
         == WriteConstants(slot, base + ConstantAlignment * k,
                           ConstantsFor(nodes[k], worldTransform, viewMatrix, projectionMatrix))
    decreases k
  {
    if k > 0 {
      SlotWritesAt(nodes[1..], worldTransform, viewMatrix, projectionMatrix, slot, base + ConstantAlignment, k - 1);
    }
  }

  lemma {:induction false} VerticesAfterAllAppend(a: seq<Node>, b: seq<Node>, before: Option<Binding>)
    ensures VerticesAfterAll(a + b, before) == VerticesAfterAll(b, VerticesAfterAll(a, before))
    decreases |a|
  {
    if a == [] {
      assert a + b == b;
    } else {
      assert (a + b)[1..] == a[1..] + b;
      VerticesAfterAllAppend(a[1..], b, VerticesAfter(a[0], before));
    }
  }

  lemma {:induction false} ExpectedDrawsAppend(a: seq<Node>, b: seq<Node>, slot: nat, base: nat,
                                               before: Option<Binding>)
    ensures ExpectedDraws(a + b, slot, base, before)
         == ExpectedDraws(a, slot, base, before)
          + ExpectedDraws(b, slot, base + ConstantAlignment * |a|, VerticesAfterAll(a, before))
    decreases |a|
  {
    if a == [] {
      assert a + b == b;
    } else {
      var next := VerticesAfter(a[0], before);
      assert (a + b)[1..] == a[1..] + b;
      assert VerticesAfterAll(a, before) == VerticesAfterAll(a[1..], next);
      ExpectedDrawsAppend(a[1..], b, slot, base + ConstantAlignment, next);
      assert base + ConstantAlignment + ConstantAlignment * |a[1..]| == base + ConstantAlignment * |a|;
    }
  }

  lemma NoWrites(log: seq<Event>)
    requires forall e | e in log :: !e.WriteConstants?
    ensures Writes(log) == []
  {
    if Writes(log) != [] {
      assert Writes(log)[0] in Writes(log);
    }
  }

  /** A node's own commands write exactly its own constants, at the offset given. */
  lemma {:induction false} NodeCommandsWrites(node: Node, worldTransform: Mat, viewMatrix: Mat, projectionMatrix: Mat,
                           slot: nat, constantOffset: nat)
    ensures Writes(NodeCommands(node, worldTransform, viewMatrix, projectionMatrix, slot, constantOffset))
         == SlotWrites([node], worldTransform, viewMatrix, projectionMatrix, slot, constantOffset)
  {
    var own := NodeCommands(node, worldTransform, viewMatrix, projectionMatrix, slot, constantOffset);
    var mesh := own[2..];
    assert own[..2] == [own[0], own[1]];
    assert own == own[..2] + mesh;
    WritesAppend(own[..2], mesh);
    NoWrites(mesh);
  }

  /** Two consecutive walks compose: their writes follow one another, the
      second's slots starting where the first's end. */
  lemma {:induction false} ComposeWrites(first: seq<Event>, second: seq<Event>, a: seq<Node>, b: seq<Node>,
                      worldTransform: Mat, viewMatrix: Mat, projectionMatrix: Mat, slot: nat, base: nat, next: nat)
    requires next == base + ConstantAlignment * |a|
    requires Writes(first) == SlotWrites(a, worldTransform, viewMatrix, projectionMatrix, slot, base)
    requires Writes(second) == SlotWrites(b, worldTransform, viewMatrix, projectionMatrix, slot, next)
    ensures Writes(first + second) == SlotWrites(a + b, worldTransform, viewMatrix, projectionMatrix, slot, base)
  {
    WritesAppend(first, second);
    SlotWritesAppend(a, b, worldTransform, viewMatrix, projectionMatrix, slot, base);
    assert SlotWrites(b, worldTransform, viewMatrix, projectionMatrix, slot, next)
        == SlotWrites(b, worldTransform, viewMatrix, projectionMatrix, slot, base + ConstantAlignment * |a|);
  }

  /** The walk of a subtree copies the constants of its nodes, in pre-order,
      to consecutive 256-byte slots starting at the offset it was given, all
      in the one ring buffer, each under the one world transform given. */
  lemma {:induction false} NodeWrites(node: Node, worldTransform: Mat, viewMatrix: Mat, projectionMatrix: Mat,
                                      slot: nat, constantOffset: nat)
    ensures Writes(DrawNode(node, worldTransform, viewMatrix, projectionMatrix, slot, constantOffset).log)
         == SlotWrites(PreOrder(node), worldTransform, viewMatrix, projectionMatrix, slot, constantOffset)
    decreases node
  {
    var own := NodeCommands(node, worldTransform, viewMatrix, projectionMatrix, slot, constantOffset);
    var rest := DrawChildren(node.children, worldTransform, viewMatrix, projectionMatrix,
                             slot, constantOffset + ConstantAlignment);
    NodeCommandsWrites(node, worldTransform, viewMatrix, projectionMatrix, slot, constantOffset);
    ChildrenWrites(node.children, worldTransform, viewMatrix, projectionMatrix, slot, constantOffset + ConstantAlignment);
    ComposeWrites(own, rest.log, [node], PreOrderAll(node.children), worldTransform, viewMatrix, projectionMatrix,
                  slot, constantOffset, constantOffset + ConstantAlignment);
    assert [node] + PreOrderAll(node.children) == PreOrder(node);
  }

  lemma {:induction false} ChildrenWrites(children: seq<Node>, worldTransform: Mat, viewMatrix: Mat,
                                          projectionMatrix: Mat, slot: nat, constantOffset: nat)
    ensures Writes(DrawChildren(children, worldTransform, viewMatrix, projectionMatrix, slot, constantOffset).log)
         == SlotWrites(PreOrderAll(children), worldTransform, viewMatrix, projectionMatrix, slot, constantOffset)
    decreases children
  {
    if children == [] {
    } else {
      var first := DrawNode(children[0], worldTransform, viewMatrix, projectionMatrix, slot, constantOffset);
      var rest := DrawChildren(children[1..], worldTransform, viewMatrix, projectionMatrix,
                               slot, first.constantOffset);
      var head := PreOrder(children[0]);
      var tail := PreOrderAll(children[1..]);
      assert PreOrderAll(children) == head + tail;
      NodeWrites(children[0], worldTransform, viewMatrix, projectionMatrix, slot, constantOffset);
      ChildrenWrites(children[1..], worldTransform, viewMatrix, projectionMatrix, slot, first.constantOffset);
      ComposeWrites(first.log, rest.log, head, tail, worldTransform, viewMatrix, projectionMatrix,
                    slot, constantOffset, first.constantOffset);
    }
  }

  lemma {:induction false} MeshesFitSplit(a: seq<Node>, b: seq<Node>)
    requires AllMeshesFit(a + b)
    ensures AllMeshesFit(a) && AllMeshesFit(b)
  {
    forall n | n in a ensures MeshFits(n) { assert n in a + b; }
    forall n | n in b ensures MeshFits(n) { assert n in a + b; }
  }

  /** Binding the mesh's vertex buffers below the instance-constants index
      issues no draw and leaves the constants binding and fill mode alone;
      the vertex data then comes from the first buffer if it was bound at
      the vertex-data index, and is untouched otherwise. */
  lemma {:induction false} BindsKeepConstants(buffers: seq<MeshBuffer>, index: nat, s: EncoderState)
    requires index + |buffers| <= InstanceConstantsIndex
    ensures DrawCalls(s, BindVertexBuffers(buffers, index)) == []
    ensures ConstantsBinding(Run(s, BindVertexBuffers(buffers, index))) == ConstantsBinding(s)
    ensures Run(s, BindVertexBuffers(buffers, index)).fillMode == s.fillMode
    ensures VerticesBinding(Run(s, BindVertexBuffers(buffers, index)))
         == if index == VertexDataIndex && |buffers| > 0
            then Some(Binding(MeshData(buffers[0]), buffers[0].offset))
            else VerticesBinding(s)
    decreases |buffers|
  {
    if buffers != [] {
      var log := BindVertexBuffers(buffers, index);
      assert log[1..] == BindVertexBuffers(buffers[1..], index + 1);
      BindsKeepConstants(buffers[1..], index + 1, Step(s, log[0]));
    }
  }

  /** Each submesh is drawn once, in order, in the given fill mode, with the
      constants binding in force; the binding is left as it was. */
  lemma {:induction false} SubmeshDrawCalls(submeshes: seq<Submesh>, mode: FillMode, s: EncoderState)
    ensures DrawCalls(s, DrawSubmeshes(submeshes, mode))
         == seq(|submeshes|, i requires 0 <= i < |submeshes| =>
                  DrawCall(submeshes[i], mode, VerticesBinding(s), ConstantsBinding(s)))
    ensures ConstantsBinding(Run(s, DrawSubmeshes(submeshes, mode))) == ConstantsBinding(s)
    ensures VerticesBinding(Run(s, DrawSubmeshes(submeshes, mode))) == VerticesBinding(s)
    decreases |submeshes|
  {
    if submeshes != [] {
      var log := DrawSubmeshes(submeshes, mode);
      var s1 := Step(s, log[0]);
      var s2 := Step(s1, log[1]);
      assert log[1..][1..] == log[2..] == DrawSubmeshes(submeshes[1..], mode);
      SubmeshDrawCalls(submeshes[1..], mode, s2);
      assert ConstantsBinding(s2) == ConstantsBinding(s);
      assert VerticesBinding(s2) == VerticesBinding(s);
      assert s2.fillMode == mode;
    }
  }

  /** Two consecutive walks compose: their draws follow one another, the
      second's slots starting where the first's end. */
  lemma {:induction false} ComposeDraws(s: EncoderState, first: seq<Event>, second: seq<Event>, slot: nat,
                     a: seq<Node>, b: seq<Node>, base: nat, next: nat)
    requires next == base + ConstantAlignment * |a|
    requires DrawCalls(s, first) == ExpectedDraws(a, slot, base, VerticesBinding(s))
    requires VerticesBinding(Run(s, first)) == VerticesAfterAll(a, VerticesBinding(s))
    requires DrawCalls(Run(s, first), second) == ExpectedDraws(b, slot, next, VerticesBinding(Run(s, first)))
    requires VerticesBinding(Run(Run(s, first), second)) == VerticesAfterAll(b, VerticesBinding(Run(s, first)))
    requires ConstantsBoundTo(Run(Run(s, first), second), slot)
    ensures DrawCalls(s, first + second) == ExpectedDraws(a + b, slot, base, VerticesBinding(s))
    ensures VerticesBinding(Run(s, first + second)) == VerticesAfterAll(a + b, VerticesBinding(s))
    ensures ConstantsBoundTo(Run(s, first + second), slot)
  {
    var before := VerticesBinding(s);
    var mid := VerticesAfterAll(a, before);
    assert DrawCalls(Run(s, first), second) == ExpectedDraws(b, slot, base + ConstantAlignment * |a|, mid);
    ComposeDrawLists(s, first, second, slot, a, b, base, before);
    ComposeBindings(s, first, second, slot, a, b);
  }

  /** The draw lists of two consecutive walks concatenate to the reference
      draws of their two node sequences. */
  lemma {:induction false} ComposeDrawLists(s: EncoderState, first: seq<Event>, second: seq<Event>, slot: nat,
                         a: seq<Node>, b: seq<Node>, base: nat, before: Option<Binding>)
    requires DrawCalls(s, first) == ExpectedDraws(a, slot, base, before)
    requires DrawCalls(Run(s, first), second)
          == ExpectedDraws(b, slot, base + ConstantAlignment * |a|, VerticesAfterAll(a, before))
    ensures DrawCalls(s, first + second) == ExpectedDraws(a + b, slot, base, before)
  {
    var d1 := DrawCalls(s, first);
    var d2 := DrawCalls(Run(s, first), second);
    assert DrawCalls(s, first + second) == d1 + d2 by {
      DrawCallsAppend(s, first, second);
    }
    assert ExpectedDraws(a + b, slot, base, before) == d1 + d2 by {
      ExpectedDrawsAppend(a, b, slot, base, before);
    }
  }

  /** The encoder bindings after two consecutive walks: the vertex data of
      the second's last mesh with vertex buffers (or the first's, or what
      came before), and the constants still in the frame's buffer. */
  lemma {:induction false} ComposeBindings(s: EncoderState, first: seq<Event>, second: seq<Event>, slot: nat,
                        a: seq<Node>, b: seq<Node>)
    requires VerticesBinding(Run(s, first)) == VerticesAfterAll(a, VerticesBinding(s))
    requires VerticesBinding(Run(Run(s, first), second)) == VerticesAfterAll(b, VerticesBinding(Run(s, first)))
    requires ConstantsBoundTo(Run(Run(s, first), second), slot)
    ensures VerticesBinding(Run(s, first + second)) == VerticesAfterAll(a + b, VerticesBinding(s))
    ensures ConstantsBoundTo(Run(s, first + second), slot)
  {
    RunAppend(s, first, second);
    VerticesAfterAllAppend(a, b, VerticesBinding(s));
  }

  /** The first two commands of a node, the copy of its constants and the
      binding of their offset, draw nothing, bind the constants at that
      offset of the buffer already bound, and leave the vertex data alone. */
  lemma {:induction false} NodePrologueDrawCalls(node: Node, worldTransform: Mat, viewMatrix: Mat, projectionMatrix: Mat,
                              slot: nat, constantOffset: nat, s: EncoderState)
    requires ConstantsBoundTo(s, slot)
    ensures var pre := NodeCommands(node, worldTransform, viewMatrix, projectionMatrix, slot, constantOffset)[..2];
            && DrawCalls(s, pre) == []
            && ConstantsBinding(Run(s, pre)) == Some(Binding(ConstantRing(slot), constantOffset))
            && VerticesBinding(Run(s, pre)) == VerticesBinding(s)
  {
    var own := NodeCommands(node, worldTransform, viewMatrix, projectionMatrix, slot, constantOffset);
    var s2 := Step(Step(s, own[0]), own[1]);
    assert ConstantsBinding(s2) == Some(Binding(ConstantRing(slot), constantOffset));
    assert VerticesBinding(s2) == VerticesBinding(s);
    var pre := own[..2];
    assert pre[0] == own[0] && pre[1..][0] == own[1] && pre[1..][1..] == [];
    assert DrawCalls(s, pre) == [];
    assert Run(s, pre) == Run(Step(s, own[0]), pre[1..]) == Run(s2, []) == s2;
  }

  /** The mesh part of a node's commands draws each submesh with the
      constants binding in force and the vertex data its first buffer
      provides, leaving the constants binding as it was. */
  lemma {:induction false} MeshCommandsDrawCalls(node: Node, mesh: Mesh, slot: nat, constantOffset: nat, s: EncoderState)
    requires node.mesh == Some(mesh) && |mesh.vertexBuffers| <= InstanceConstantsIndex
    requires ConstantsBinding(s) == Some(Binding(ConstantRing(slot), constantOffset))
    ensures var log := BindVertexBuffers(mesh.vertexBuffers, 0) + DrawSubmeshes(mesh.submeshes, FillModeFor(node.material));
            && DrawCalls(s, log) == NodeDraws(node, slot, constantOffset, VerticesBinding(s))
            && VerticesBinding(Run(s, log)) == VerticesAfter(node, VerticesBinding(s))
            && ConstantsBinding(Run(s, log)) == ConstantsBinding(s)
  {
    var binds := BindVertexBuffers(mesh.vertexBuffers, 0);
    var draws := DrawSubmeshes(mesh.submeshes, FillModeFor(node.material));
    DrawCallsAppend(s, binds, draws);
    RunAppend(s, binds, draws);
    BindsKeepConstants(mesh.vertexBuffers, 0, s);
    SubmeshDrawCalls(mesh.submeshes, FillModeFor(node.material), Run(s, binds));
    assert VerticesBinding(Run(s, binds)) == VerticesAfter(node, VerticesBinding(s));
    var expected := NodeDraws(node, slot, constantOffset, VerticesBinding(s));
    assert |DrawCalls(s, binds + draws)| == |expected|;
    forall i | 0 <= i < |expected| ensures DrawCalls(s, binds + draws)[i] == expected[i] { }
  }

  /** A node's own commands bind the offset of its slot before its first
      draw, so each of its draws reads the constants just written. */
  lemma {:induction false} NodeCommandsDrawCalls(node: Node, worldTransform: Mat, viewMatrix: Mat, projectionMatrix: Mat,
                              slot: nat, constantOffset: nat, s: EncoderState)
    requires ConstantsBoundTo(s, slot)
    requires MeshFits(node)
    ensures DrawCalls(s, NodeCommands(node, worldTransform, viewMatrix, projectionMatrix, slot, constantOffset))
         == NodeDraws(node, slot, constantOffset, VerticesBinding(s))
    ensures VerticesBinding(Run(s, NodeCommands(node, worldTransform, viewMatrix, projectionMatrix, slot, constantOffset)))
         == VerticesAfter(node, VerticesBinding(s))
    ensures ConstantsBoundTo(Run(s, NodeCommands(node, worldTransform, viewMatrix, projectionMatrix, slot, constantOffset)), slot)
  {
    var own := NodeCommands(node, worldTransform, viewMatrix, projectionMatrix, slot, constantOffset);
    var pre := own[..2];
    assert own == pre + own[2..];
    NodePrologueDrawCalls(node, worldTransform, viewMatrix, projectionMatrix, slot, constantOffset, s);
    DrawCallsAppend(s, pre, own[2..]);
    RunAppend(s, pre, own[2..]);
    match node.mesh
    case None =>
      assert own[2..] == [];
    case Some(mesh) =>
      MeshCommandsDrawCalls(node, mesh, slot, constantOffset, Run(s, pre));
  }

  /** The draws of a walk: node k of the pre-order issues one draw per
      submesh, reading its constants from byte `constantOffset + 256 * k` of
      ring buffer `slot`, wireframe iff highlighted; the constants stay bound
      to that buffer afterwards. */
  lemma {:induction false} NodeDrawCalls(node: Node, worldTransform: Mat, viewMatrix: Mat, projectionMatrix: Mat,
                                         slot: nat, constantOffset: nat, s: EncoderState)
    requires ConstantsBoundTo(s, slot)
    requires AllMeshesFit(PreOrder(node))
    ensures DrawCalls(s, DrawNode(node, worldTransform, viewMatrix, projectionMatrix, slot, constantOffset).log)
         == ExpectedDraws(PreOrder(node), slot, constantOffset, VerticesBinding(s))
    ensures VerticesBinding(Run(s, DrawNode(node, worldTransform, viewMatrix, projectionMatrix, slot, constantOffset).log))
         == VerticesAfterAll(PreOrder(node), VerticesBinding(s))
    ensures ConstantsBoundTo(Run(s, DrawNode(node, worldTransform, viewMatrix, projectionMatrix, slot, constantOffset).log), slot)
    decreases node
  {
    var own := NodeCommands(node, worldTransform, viewMatrix, projectionMatrix, slot, constantOffset);
    var rest := DrawChildren(node.children, worldTransform, viewMatrix, projectionMatrix,
                             slot, constantOffset + ConstantAlignment);
    assert [node] + PreOrderAll(node.children) == PreOrder(node);
    MeshesFitSplit([node], PreOrderAll(node.children));
    assert MeshFits(node) by { assert node in [node]; }
    NodeCommandsDrawCalls(node, worldTransform, viewMatrix, projectionMatrix, slot, constantOffset, s);
    assert ExpectedDraws([node], slot, constantOffset, VerticesBinding(s))
        == NodeDraws(node, slot, constantOffset, VerticesBinding(s)) by {
      assert [node][1..] == [];
    }
    assert VerticesAfterAll([node], VerticesBinding(s)) == VerticesAfter(node, VerticesBinding(s)) by {
      assert [node][1..] == [];
    }
    ChildrenDrawCalls(node.children, worldTransform, viewMatrix, projectionMatrix,
                      slot, constantOffset + ConstantAlignment, Run(s, own));
    ComposeDraws(s, own, rest.log, slot, [node], PreOrderAll(node.children),
                 constantOffset, constantOffset + ConstantAlignment);
  }

  lemma {:induction false} ChildrenDrawCalls(children: seq<Node>, worldTransform: Mat, viewMatrix: Mat,
                                             projectionMatrix: Mat, slot: nat, constantOffset: nat, s: EncoderState)
    requires ConstantsBoundTo(s, slot)
    requires AllMeshesFit(PreOrderAll(children))
    ensures DrawCalls(s, DrawChildren(children, worldTransform, viewMatrix, projectionMatrix, slot, constantOffset).log)
         == ExpectedDraws(PreOrderAll(children), slot, constantOffset, VerticesBinding(s))
    ensures VerticesBinding(Run(s, DrawChildren(children, worldTransform, viewMatrix, projectionMatrix, slot, constantOffset).log))
         == VerticesAfterAll(PreOrderAll(children), VerticesBinding(s))
    ensures ConstantsBoundTo(Run(s, DrawChildren(children, worldTransform, viewMatrix, projectionMatrix, slot, constantOffset).log), slot)
    decreases children
  {
    if children != [] {
      var first := DrawNode(children[0], worldTransform, viewMatrix, projectionMatrix, slot, constantOffset);
      var rest := DrawChildren(children[1..], worldTransform, viewMatrix, projectionMatrix,
                               slot, first.constantOffset);
      var head := PreOrder(children[0]);
      var tail := PreOrderAll(children[1..]);
      assert PreOrderAll(children) == head + tail;
      assert DrawChildren(children, worldTransform, viewMatrix, projectionMatrix, slot, constantOffset).log
          == first.log + rest.log;
      MeshesFitSplit(head, tail);
      NodeDrawCalls(children[0], worldTransform, viewMatrix, projectionMatrix, slot, constantOffset, s);
      ChildrenDrawCalls(children[1..], worldTransform, viewMatrix, projectionMatrix, slot, first.constantOffset,
                        Run(s, first.log));
      ComposeDraws(s, first.log, rest.log, slot, head, tail, constantOffset, first.constantOffset);
    }
  }
}
