/** The scene graph as far as the renderer reads it.

    `Node`, `Scene` and `Camera` are defined by code that is not part of this
    model; a node here carries only what the renderer looks at: its local
    transform, its ordered children, an optional mesh, its material and an
    optional camera. */
module SceneGraph {
  import opened Wrappers

  /** A 4x4 matrix, kept as a symbolic term. `Mul` and `Inverse` are free
      constructors, so every equation proved about these terms also holds
      for the floating-point matrices they stand for. */
  datatype Mat =
    | Identity
    | Local(tag: nat)
    | Mul(lhs: Mat, rhs: Mat)
    | Inverse(m: Mat)
      /** `camera.projectionMatrix(aspectRatio:)` for the viewport's aspect ratio. */
    | Perspective(camera: Camera, viewport: Viewport)

  /** A camera, known only by identity: the renderer hands it to
      `projectionMatrix(aspectRatio:)`, whose code is not part of this model. */
  datatype Camera = Camera(id: nat)

  /** The size of the view's bounds, from which the aspect ratio is taken. */
  datatype Viewport = Viewport(width: real, height: real)

  datatype Color = Rgba(r: real, g: real, b: real, a: real)

  /** `highlighted` is toggled by picking and selects wireframe drawing. */
  datatype Material = Material(color: Color, highlighted: bool)

  /** A GPU buffer owned by the mesh, with the byte offset its data starts at. */
  datatype MeshBuffer = MeshBuffer(handle: nat, offset: nat)

  /** The kinds of primitive an indexed draw can assemble. */
  datatype PrimitiveType = Point | Line | LineStrip | Triangle | TriangleStrip

  /** The width of one index in an index buffer. */
  datatype IndexType = UInt16 | UInt32

  /** One indexed draw's worth of a mesh: its primitive kind, how many
      indices, their width, and the buffer they are read from. */
  datatype Submesh = Submesh(primitiveType: PrimitiveType, indexCount: nat, indexType: IndexType,
                             indexBuffer: MeshBuffer)

  datatype Mesh = Mesh(vertexBuffers: seq<MeshBuffer>, submeshes: seq<Submesh>)

  /** A scene-graph node; it owns its children, so the graph is a tree. */
  datatype Node = Node(
    transform: Mat,
    children: seq<Node>,
    mesh: Option<Mesh>,
    material: Material,
    camera: Option<Camera>)

  datatype Scene = Scene(rootNode: Node)

  /** The node the scene is seen from, together with its world transform.
      The world transform is a computed property of `Node` whose code is not
      part of this model, so it is carried alongside the node. */
  datatype PointOfView = PointOfView(node: Node, worldTransform: Mat)

  /** True when the point of view exists and bears a camera. */
  predicate HasCamera(pointOfView: Option<PointOfView>)
  {
    pointOfView.Some? && pointOfView.value.node.camera.Some?
  }

  /** The nodes of a subtree in pre-order, depth first, children in order. */
  function PreOrder(node: Node): (nodes: seq<Node>)
    decreases node
    ensures |nodes| >= 1 && nodes[0] == node
  {
    [node] + PreOrderAll(node.children)
  }

  /** The pre-orders of a sequence of sibling subtrees, one after another. */
  function PreOrderAll(forest: seq<Node>): (nodes: seq<Node>)
    decreases forest
    ensures |nodes| >= |forest|
  {
    if forest == [] then [] else PreOrder(forest[0]) + PreOrderAll(forest[1..])
  }

  /** The number of nodes in a subtree. */
  function NodeCount(node: Node): nat
  {
    |PreOrder(node)|
  }

  /** Every child of a node is visited: it appears in the node's pre-order,
      right after the subtrees of its earlier siblings. */
  lemma {:induction false} ChildrenInPreOrder(node: Node, i: nat)
    requires i < |node.children|
    ensures var k := 1 + |PreOrderAll(node.children[..i])|;
              k < |PreOrder(node)| && PreOrder(node)[k] == node.children[i]
  {
    ForestSplit(node.children, i);
    assert PreOrder(node) == [node] + PreOrderAll(node.children[..i]) + PreOrderAll(node.children[i..]);
  }

  /** Pre-order of a forest splits at any sibling boundary. */
  lemma {:induction false} ForestSplit(forest: seq<Node>, i: nat)
    requires i <= |forest|
    ensures PreOrderAll(forest) == PreOrderAll(forest[..i]) + PreOrderAll(forest[i..])
    decreases i
  {
    if i == 0 {
      assert forest[..0] == [];
      assert forest[0..] == forest;
    } else {
      ForestSplit(forest[1..], i - 1);
      assert forest[1..][..i - 1] == forest[..i][1..];
      assert forest[1..][i - 1..] == forest[i..];
      assert forest[..i][0] == forest[0];
    }
  }
}
