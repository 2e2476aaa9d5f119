# Per-frame scene traversal and constant-slot allocation of the Metal picking renderer

This project models the part of `Renderer` that runs once per frame:

- `draw(_:from:in:)` checks for a camera, advances the frame index round a ring of three
  65536-byte constant buffers, binds the selected buffer and starts the walk at offset 0.
- The recursive `draw(_:worldTransform:…:constantOffset:in:)` visits the scene graph in
  pre-order, depth first, children in order. For each node it:
  - composes the node's world matrix;
  - copies the node's instance constants to the current offset;
  - binds that offset;
  - issues one indexed draw per submesh (wireframe iff the material is highlighted);
  - advances the offset by the 256-byte stride.

The model is functional. A node is an immutable tree value (`SceneGraph.Node`).

Matrices are symbolic terms (`SceneGraph.Mat`). `Mul` and `Inverse` are free constructors, so
every equation proved holds for any interpretation of matrix product and inverse.

Everything the renderer emits goes into one ordered log of `Commands.Event`s. That covers the
encoder commands and the `memcpy` of constants, which becomes `WriteConstants(slot, offset,
constants)`.

The log has a meaning. `Commands.DrawCalls` replays it against the encoder state: the buffer
and offset bound at each vertex-buffer index, and the fill mode. For every draw it records what
the GPU will use: the fill mode, the vertex data bound at index 0 and the constants bound at
index 1. This is what lets the model state that a node's draws read exactly the slot its
constants were copied to, and the vertex buffer its own mesh bound.

The frame-level results are stated against reference definitions indexed by pre-order position:
- `Traversal.SlotWrites`: node k is written at byte 256·k.
- `Traversal.ExpectedDraws`: node k draws each submesh from byte 256·k, with the vertex data
  its mesh bound. A mesh without vertex buffers draws with whatever an earlier node bound.

They are proved by mutual induction over the tree.

Three facts about the code shape the model:
- Children are drawn under the `worldTransform` their parent received (`Renderer.swift:178`),
  not under the parent's composed world matrix (`Renderer.swift:147`). Every node of a frame
  therefore gets world matrix `identity * node.transform`. `Frames.FrameConstants` spells out
  the constants each node gets. `Frames.ChildDrawnUnderParentArgument` states the same for one
  child inside any subtree walk.
- `frameSemaphore` is not waited on or signalled in `Renderer.swift`. The code that creates the
  encoder and calls `draw(_:from:in:)` is not part of this model, so frame pacing is out of scope.
- Running out of constant-buffer space is not checked. The model keeps the unchecked frame as
  written. `Frames.FrameFitsIff` says exactly when its copies stay inside the buffer: at most
  256 nodes, since 256·255 + 144 ≤ 65536 < 256·256 + 144. `Frames.DrawFrameChecked` adds the
  check as an explicit error.

## Model

| member | source | states |
|---|---|---|
| `Renderer.MakeConstantBuffers` | Shared/View/Renderer.swift:71-73 | produces one buffer per frame in flight (three), each of `ConstantBufferLength` = 65536 bytes |
| `Renderer.Init` | Shared/View/Renderer.swift:30-31 | a new renderer holds a full ring of full-size buffers and frame index 0, so it satisfies the renderer invariant `Valid` |
| `Renderer.FillModeFor` | Shared/View/Renderer.swift:164 | the fill mode is `.lines` exactly when the material is highlighted, `.fill` otherwise |
| `Renderer.NodeCommands` | Shared/View/Renderer.swift:147-171 | a node's own commands begin with the copy of its constants to the current offset, then bind that same offset at index 1; nothing after them is a copy; a node without a mesh contributes nothing else |
| `Renderer.BindVertexBuffers` | Shared/View/Renderer.swift:159-161 | the i-th vertex buffer of the mesh is bound at index i with its own offset |
| `Renderer.DrawSubmeshes` | Shared/View/Renderer.swift:163-171 | two commands per submesh, each either a fill-mode change to the node's mode or an indexed draw |
| `Renderer.DrawNode` | Shared/View/Renderer.swift:145-184 | after a subtree is walked, the offset has grown by 256 times the number of nodes in the subtree: each node takes one slot, with or without a mesh |
| `Renderer.DrawChildren` | Shared/View/Renderer.swift:176-183 | walking siblings in order advances the offset by 256 per node in all their subtrees |
| `Renderer.DrawFrame` | Shared/View/Renderer.swift:114-143 | without a point of view bearing a camera the state is unchanged and nothing is emitted; otherwise the frame index becomes `(old + 1) % 3`, the ring is untouched and the invariant (index in [0, 3)) is kept |
| `SceneGraph.ChildrenInPreOrder` | Shared/View/Renderer.swift:176-183 | child i of a node is visited right after the node and the whole subtrees of its earlier siblings |
| `Traversal.NodeCommandsWrites` | Shared/View/Renderer.swift:147-154 | a node's own commands copy exactly one set of constants: its own, built from `worldTransform * node.transform`, at the offset it was given |
| `Traversal.NodeWrites` | Shared/View/Renderer.swift:145-184 | the writes of a subtree walk are exactly the reference writes: the k-th pre-order node's constants, all under the same `worldTransform`, go to the one ring buffer at `offset + 256*k` |
| `Traversal.ChildrenWrites` | Shared/View/Renderer.swift:176-183 | the same for a sequence of sibling subtrees, in order, with the offset threaded through |
| `Traversal.BindsKeepConstants` | Shared/View/Renderer.swift:159-161 | binding the mesh's vertex buffers below index 1 issues no draw and changes neither the constants binding nor the fill mode; index 0 then holds the first vertex buffer with its own offset, or is untouched when there is none |
| `Traversal.SubmeshDrawCalls` | Shared/View/Renderer.swift:163-171 | each submesh is drawn once, in order, with its own primitive type, index count, index type and index buffer, in the node's fill mode, reading whatever vertex data and constants are bound, and both bindings are left as they were |
| `Traversal.NodePrologueDrawCalls` | Shared/View/Renderer.swift:147-156 | the copy of a node's constants and the binding of their offset draw nothing, bind the constants at that offset, and leave the vertex data bound at index 0 alone |
| `Traversal.MeshCommandsDrawCalls` | Shared/View/Renderer.swift:158-172 | the mesh part of a node's commands draws every submesh with the node's first vertex buffer as vertex data (or the earlier binding if the mesh has none) and the constants already bound |
| `Traversal.NodeCommandsDrawCalls` | Shared/View/Renderer.swift:153-171 | because the offset is bound before the draws and advanced only after them, each of the node's draws reads the constants at the node's own offset of the frame's buffer, and the vertex data its mesh bound |
| `Traversal.NodeDrawCalls` | Shared/View/Renderer.swift:145-184 | the draws of a subtree walk are exactly the reference draws: pre-order node k draws each submesh from `offset + 256*k` with the vertex data bound by then, and nodes without a mesh draw nothing but their children are still drawn |
| `Traversal.ChildrenDrawCalls` | Shared/View/Renderer.swift:176-183 | the same for a sequence of sibling subtrees, with the constants staying bound to the frame's buffer and the vertex binding threaded through |
| `Traversal.ExpectedDrawCount` | Shared/View/Renderer.swift:163-171 | there are exactly as many draws as submeshes over the nodes with a mesh |
| `Traversal.EverySubmeshDrawn` | Shared/View/Renderer.swift:158-171 | every submesh of every node with a mesh is drawn, in the node's fill mode, from the node's slot, with its own first vertex buffer when it has one |
| `Traversal.ExpectedDrawOwner` | Shared/View/Renderer.swift:158-171 | conversely, every draw belongs to some node with a mesh: one of its submeshes, its fill mode, its slot, and its first vertex buffer if it has one |
| `Frames.PrologueEffect` | Shared/View/Renderer.swift:119-134 | the frame's opening commands write nothing and draw nothing, leave the frame's ring buffer bound at index 1 whatever was bound before, and leave index 0 alone |
| `Frames.FrameConstants` | Shared/View/Renderer.swift:122-151 | in a frame with a camera, pre-order node k's copy holds `P * V * (identity * transform)`, `V * (identity * transform)` and its material colour, with V the inverse of the camera node's world transform and P the camera's perspective: no ancestor's transform enters |
| `Frames.FrameCopiesDisjoint` | Shared/View/Renderer.swift:154-174 | two copies of one frame for different nodes go to the same buffer but to disjoint 144-byte ranges |
| `Frames.FrameWritesAreSlotWrites` | Shared/View/Renderer.swift:131-142 | the writes of a frame are the reference writes of the root's pre-order, starting at offset 0, under the identity world transform, into the buffer of the new frame index |
| `Frames.FrameWrites` | Shared/View/Renderer.swift:133-154 | in a frame with a camera there is one write per node, and the k-th visited node's constants go to byte 256·k of `constantBuffers[frameIndex]`, whatever the previous frame left, so offsets restart at 0 every frame |
| `Frames.FrameDraws` | Shared/View/Renderer.swift:134-171 | in a frame with a camera, whatever the encoder held before, the draws are exactly the reference draws of the root's pre-order in the frame's buffer, starting from the vertex data bound before the frame |
| `Frames.FrameDrawsComplete` | Shared/View/Renderer.swift:158-171 | a frame issues exactly one draw per submesh, and every submesh of pre-order node k is drawn from byte 256·k, with node k's own first vertex buffer when it has one |
| `Frames.DrawOwnerWrite` | Shared/View/Renderer.swift:154-166 | each reference draw reads the slot that the reference write of its own node filled |
| `Frames.DrawsReadOwnConstants` | Shared/View/Renderer.swift:153-166 | every draw of a frame reads its constants from the buffer and offset where the constants of the node it draws were copied, belongs to that node's mesh and fill mode, and reads that mesh's first vertex buffer at its own offset whenever the mesh has one |
| `Frames.FrameFitsIff` | Shared/View/Renderer.swift:154 | a frame's copies all end inside the 65536-byte buffer if and only if the scene has at most 256 nodes |
| `Frames.DrawFrameChecked` | Shared/View/Renderer.swift:18 | with the capacity check made explicit: refused with `CapacityExceeded` exactly when a camera frame would need more than 256 slots; otherwise the unchecked frame, with all copies inside the buffer |
| `Frames.RingRotation` | Shared/View/Renderer.swift:117 | three consecutive camera frames use three different constant buffers, and the frame index is back where it started after them |
| `Frames.RunFrames` | Shared/View/Renderer.swift:114-117 | over any number of frames the renderer keeps its ring of three buffers untouched and its frame index in [0, 3) |
| `Frames.FrameIndexAfterFrames` | Shared/View/Renderer.swift:115-117 | after any sequence of frames the frame index has advanced, modulo 3, by the number of frames that had a camera; camera-less frames do not move it |
| `Frames.ChildDrawnUnderParentArgument` | Shared/View/Renderer.swift:145-183 | child i's constants use `worldTransform * child.transform` with the parent's incoming `worldTransform`, not the parent's composed world matrix, at the slot after the earlier siblings' subtrees |
| `Frames.WriteOfPreOrderNode` | Shared/View/Renderer.swift:145-184 | the k-th copy of any subtree walk is the k-th visited node's constants, under the walk's `worldTransform`, at `offset + 256*k` |

## Left out

- Metal device, command queue, pipeline-state, depth-stencil and vertex-descriptor setup, and
  their `fatalError` paths (`Renderer.swift:37-112`). These are calls into the platform.
  `SetRenderPipelineState` and `SetDepthStencilState` appear only as log events.
- Floating-point matrix arithmetic, `inverse` and the aspect ratio from `view.bounds`
  (`Renderer.swift:122-131`, `149-151`). Matrices are symbolic terms. The projection is the term
  `Perspective(camera, viewport)`.
- The byte layout of `InstanceConstants` and the `memcpy` itself. A copy is one
  `WriteConstants` event. Its size is taken as 144 bytes: two 4x4 float matrices and one float4.
- `frameSemaphore` (`Renderer.swift:28`). It is not waited on or signalled in `Renderer.swift`.
  The code that creates the encoder and calls `draw(_:from:in:)` is not part of this model, so
  frame pacing is out of scope.
- `cameraAngle` (`Renderer.swift:35`). It is not read in `Renderer.swift`.
- The camera's own parameters and `camera.projectionMatrix(aspectRatio:)`. Their code is not
  part of this model, so `SceneGraph.Camera` is known only by an identity.
- The hit test and `handleTapClickAt`. Their code is not part of this model.
- `Node.worldTransform` of the camera node is computed by `Node` code that is not part of this
  model. `PointOfView` carries it as an input.
- `ViewController.swift` (gesture wiring; pan deltas are computed and discarded) and
  `AppDelegate.swift` (app lifecycle). Both are UI glue.
- The Swift array-index trap on `constantBuffers[frameIndex]`. It cannot happen while the
  renderer keeps its invariant, so `Renderer.DrawFrame` requires `Valid`.
  `Renderer.Init` establishes `Valid`, and `Renderer.DrawFrame` preserves it.
- 64-bit overflow of `constantOffset` is not modelled. Offsets are unbounded naturals. Overflow
  would need a scene of 2^55 or more nodes, where the addition traps.
- Frames.FrameDraws: requires every mesh to have at most one vertex buffer. The loop at
  `Renderer.swift:159-161` binds the i-th vertex buffer at index i. A second vertex buffer would
  replace the constant buffer at index 1. Meshes built for the renderer's vertex descriptor,
  which declares one buffer layout (`Renderer.swift:37-48`), have one.
- Frames.FrameDrawsComplete: same requirement as `Frames.FrameDraws`, for the same reason.
- Frames.DrawsReadOwnConstants: same requirement as `Frames.FrameDraws`, for the same reason.
- Traversal.NodeDrawCalls: same requirement as `Frames.FrameDraws`, applied to every node of
  the subtree.
- Traversal.ChildrenDrawCalls: same requirement as `Traversal.NodeDrawCalls`.
- Traversal.NodeCommandsDrawCalls: same requirement, for the one node.
- Traversal.MeshCommandsDrawCalls: same requirement, for the one mesh.
- Traversal.BindsKeepConstants: same requirement as `Frames.FrameDraws`, for the same reason.
- A draw of a mesh without vertex buffers reads whatever vertex data an earlier node, or an
  earlier frame, left bound at index 0. The model keeps this, and promises nothing about that
  data beyond naming the binding.
- Frames.DrawFrameChecked: the capacity check is not in the source. The source copies past the
  buffer's end instead. The unchecked `Renderer.DrawFrame` is the model of the source.
