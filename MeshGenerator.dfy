/** The mesh buffers of a terrain and the walk over the height grid that fills them.

    `MeshData` holds three preallocated arrays, positions, texture coordinates and triangle
    indices, and a write cursor into the triangle indices. `GenerateTerrainMesh` visits the
    height grid row by row with a running vertex index, writes one position and one texture
    coordinate per sample, and appends the two triangles of every quad. */
module MeshGenerator {
  import opened GridLayout
  import opened GridGeometry

  const INT32_MAX: int := 0x7fff_ffff

  /** Grid sizes for which the mesh buffers can be allocated: no array length is negative and
      neither size product overflows a 32-bit int. */
  predicate Allocatable(meshWidth: int, meshHeight: int) {
    0 <= meshWidth * meshHeight <= INT32_MAX &&
    0 <= (meshWidth - 1) * (meshHeight - 1) * 6 <= INT32_MAX
  }

  /** Unity's Vector3.zero and Vector2.zero, the values of freshly allocated C# arrays. */
  const ZERO3: Vector3 := Vector3(0.0, 0.0, 0.0)
  const ZERO2: Vector2 := Vector2(0.0, 0.0)

  /** The triangle buffer has a slot for every index of the triangulation; only the empty grid,
      whose buffer is sized (0 - 1) * (0 - 1) * 6, has more. */
  lemma TriangleBufferSize(meshWidth: nat, meshHeight: nat)
    requires Allocatable(meshWidth, meshHeight)
    ensures (meshWidth - 1) * (meshHeight - 1) * 6 ==
            if meshWidth == 0 && meshHeight == 0 then 6 else 6 * QuadCount(meshWidth, meshHeight)
  {
    if meshWidth == 0 {
      assert (meshWidth - 1) * (meshHeight - 1) * 6 == -6 * (meshHeight - 1);
    } else if meshHeight == 0 {
      assert (meshWidth - 1) * (meshHeight - 1) * 6 == -6 * (meshWidth - 1);
    }
  }

  class MeshData {
    const vertices: array<Vector3>
    const triangles: array<int>
    const uvs: array<Vector2>
    var triangleIndex: nat

    /** Triangle indices written so far. */
    ghost function Emitted(): seq<int>
      reads this, triangles
      requires triangleIndex <= triangles.Length
    {
      triangles[..triangleIndex]
    }

    /** Buffers for a meshWidth x meshHeight grid, every slot holding the default value. */
    constructor (meshWidth: int, meshHeight: int)
      requires Allocatable(meshWidth, meshHeight)
      ensures fresh(vertices) && fresh(triangles) && fresh(uvs)
      ensures vertices.Length == meshWidth * meshHeight && uvs.Length == meshWidth * meshHeight
      ensures triangles.Length == (meshWidth - 1) * (meshHeight - 1) * 6
      ensures triangleIndex == 0
      ensures forall i :: 0 <= i < vertices.Length ==> vertices[i] == ZERO3
      ensures forall i :: 0 <= i < uvs.Length ==> uvs[i] == ZERO2
      ensures forall k :: 0 <= k < triangles.Length ==> triangles[k] == 0
    {
      vertices := new Vector3[meshWidth * meshHeight](_ => ZERO3);
      uvs := new Vector2[meshWidth * meshHeight](_ => ZERO2);
      triangles := new int[(meshWidth - 1) * (meshHeight - 1) * 6](_ => 0);
      triangleIndex := 0;
    }

    /** Writes one triangle (a, b, c) at the cursor and moves the cursor past it. */
    method AddTriangle(a: int, b: int, c: int)
      requires triangleIndex + 3 <= triangles.Length
      modifies this`triangleIndex, triangles
      ensures triangleIndex == old(triangleIndex) + 3
      ensures triangles[..] == old(triangles[..])[old(triangleIndex) := a][old(triangleIndex) + 1 := b][old(triangleIndex) + 2 := c]
      ensures Emitted() == old(Emitted()) + [a, b, c]
    {
      triangles[triangleIndex] := a;
      triangles[triangleIndex + 1] := b;
      triangles[triangleIndex + 2] := c;
      triangleIndex := triangleIndex + 3;
    }
  }

  /** Position of the vertex of column x and row y: centred on the origin, raised to the sample
      times the multiplier. */
  ghost function VertexAt(heightMap: array2<real>, heightMultiplier: real, x: int, y: int): Vector3
    reads heightMap
    requires 0 <= x < heightMap.Length0 && 0 <= y < heightMap.Length1
  {
    Position(heightMap.Length0, heightMap.Length1, x, y, Elevation(heightMap[x, y], heightMultiplier))
  }

  /** Position of the vertex with index i. */
  ghost function VertexOf(heightMap: array2<real>, heightMultiplier: real, i: int): Vector3
    reads heightMap
    requires 0 <= i < heightMap.Length0 * heightMap.Length1
  {
    CellOf(heightMap.Length0, heightMap.Length1, i);
    VertexAt(heightMap, heightMultiplier, i % heightMap.Length0, i / heightMap.Length0)
  }

  /** The vertex index of column x and row y names the position of that cell. */
  lemma VertexOfCell(heightMap: array2<real>, heightMultiplier: real, x: int, y: int)
    requires 0 <= x < heightMap.Length0 && 0 <= y < heightMap.Length1
    ensures 0 <= Corner(heightMap.Length0, x, y) < heightMap.Length0 * heightMap.Length1
    ensures VertexOf(heightMap, heightMultiplier, Corner(heightMap.Length0, x, y)) == VertexAt(heightMap, heightMultiplier, x, y)
  {
    CornerInGrid(heightMap.Length0, heightMap.Length1, x, y);
    DivMod(Corner(heightMap.Length0, x, y), heightMap.Length0, x, y);
  }

  /** The vertex buffers once the walk has written the first vertexIndex vertices: those positions
      and texture coordinates are the ones of their cells and the rest still hold the default. */
  ghost predicate VerticesWritten(meshData: MeshData, heightMap: array2<real>, heightMultiplier: real, vertexIndex: nat)
    reads meshData.vertices, meshData.uvs, heightMap
  {
    var width, height := heightMap.Length0, heightMap.Length1;
    vertexIndex <= width * height &&
    meshData.vertices.Length == width * height && meshData.uvs.Length == width * height &&
    (forall i :: 0 <= i < vertexIndex ==> meshData.vertices[i] == VertexOf(heightMap, heightMultiplier, i)) &&
    (forall i :: vertexIndex <= i < width * height ==> meshData.vertices[i] == ZERO3) &&
    (forall i :: 0 <= i < vertexIndex ==> meshData.uvs[i] == UvOf(width, height, i)) &&
    (forall i :: vertexIndex <= i < width * height ==> meshData.uvs[i] == ZERO2)
  }

  /** A triangle buffer buf with cursor n on its way to the target buffer tri: the indices before
      the cursor are those of tri and the rest are zero. */
  ghost predicate Agrees(buf: seq<int>, n: nat, tri: seq<int>) {
    n <= |tri| <= |buf| &&
    (forall k :: 0 <= k < n ==> buf[k] == tri[k]) &&
    (forall k :: n <= k < |buf| ==> buf[k] == 0)
  }

  /** Writing the two triangles of the quad of cell (x, y) at the quad's slot keeps the buffer on
      its way to tri. */
  lemma AgreesQuad(buf: seq<int>, tri: seq<int>, width: nat, x: nat, y: nat)
    requires QuadIn(tri, width, x, y) && Agrees(buf, Slot(width, x, y), tri)
    ensures var n, v := Slot(width, x, y), Corner(width, x, y);
            var m := n + 3;
            Agrees(buf[n := v][n + 1 := v + width + 1][n + 2 := v + width][m := v + width + 1][m + 1 := v][m + 2 := v + 1], m + 3, tri)
  {
  }

  /** The triangle buffer of meshData agrees with tri up to its cursor. */
  ghost predicate TrianglesWritten(meshData: MeshData, tri: seq<int>)
    reads meshData, meshData.triangles
  {
    Agrees(meshData.triangles[..], meshData.triangleIndex, tri)
  }

  /** The state of all three buffers part way through the walk. */
  ghost predicate Filled(meshData: MeshData, heightMap: array2<real>, heightMultiplier: real, tri: seq<int>, vertexIndex: nat)
    reads meshData, meshData.vertices, meshData.uvs, meshData.triangles, heightMap
  {
    VerticesWritten(meshData, heightMap, heightMultiplier, vertexIndex) && TrianglesWritten(meshData, tri)
  }

  /** The quad branch of a step: the two triangles of the quad whose top-left corner is cell
      (x, y), split along the diagonal from its top-left to its bottom-right vertex. */
  method AddQuad(meshData: MeshData, width: nat, x: nat, y: nat, vertexIndex: nat, ghost tri: seq<int>)
    requires vertexIndex == Corner(width, x, y)
    requires QuadIn(tri, width, x, y)
    requires meshData.triangleIndex == Slot(width, x, y)
    requires TrianglesWritten(meshData, tri)
    modifies meshData`triangleIndex, meshData.triangles
    ensures meshData.triangleIndex == old(meshData.triangleIndex) + 6
    ensures TrianglesWritten(meshData, tri)
  {
    AgreesQuad(meshData.triangles[..], tri, width, x, y);
    meshData.AddTriangle(vertexIndex, vertexIndex + width + 1, vertexIndex + width);
    meshData.AddTriangle(vertexIndex + width + 1, vertexIndex, vertexIndex + 1);
  }

  /** One step of the walk: writes the position and texture coordinate of cell (x, y) and, when the
      cell is the top-left corner of a quad, its two triangles. */
  method GenerateCell(meshData: MeshData, heightMap: array2<real>, heightMultiplier: real,
                      topLeftX: real, topLeftZ: real, x: nat, y: nat, vertexIndex: nat, ghost tri: seq<int>)
    requires x < heightMap.Length0 && y < heightMap.Length1
    requires topLeftX == TopLeftX(heightMap.Length0) && topLeftZ == TopLeftZ(heightMap.Length1)
    requires vertexIndex == Corner(heightMap.Length0, x, y)
    requires x < heightMap.Length0 - 1 && y < heightMap.Length1 - 1 ==> QuadIn(tri, heightMap.Length0, x, y)
    requires meshData.triangleIndex == Cursor(heightMap.Length0, heightMap.Length1, x, y)
    requires Filled(meshData, heightMap, heightMultiplier, tri, vertexIndex)
    modifies meshData`triangleIndex, meshData.vertices, meshData.uvs, meshData.triangles
    ensures meshData.triangleIndex == Cursor(heightMap.Length0, heightMap.Length1, x + 1, y)
    ensures Filled(meshData, heightMap, heightMultiplier, tri, vertexIndex + 1)
  {
    var width := heightMap.Length0;
    var height := heightMap.Length1;
    assert vertexIndex < width * height &&
           VertexOf(heightMap, heightMultiplier, vertexIndex) == VertexAt(heightMap, heightMultiplier, x, y) &&
           UvOf(width, height, vertexIndex) == Uv(width, height, x, y) by {
      VertexOfCell(heightMap, heightMultiplier, x, y);
      UvOfCell(width, height, x, y);
    }
    meshData.vertices[vertexIndex] := Vector3(topLeftX + x as real, Elevation(heightMap[x, y], heightMultiplier), topLeftZ - y as real);
    meshData.uvs[vertexIndex] := Vector2(x as real / width as real, y as real / height as real);
    assert VerticesWritten(meshData, heightMap, heightMultiplier, vertexIndex + 1);

    ghost var n := meshData.triangleIndex;
    assert if x < width - 1 && y < height - 1
           then n == Slot(width, x, y) && Cursor(width, height, x + 1, y) == n + 6
           else Cursor(width, height, x + 1, y) == n by {
      CursorStep(width, height, x, y);
    }
    if x < width - 1 && y < height - 1 {
      AddQuad(meshData, width, x, y, vertexIndex, tri);
    }
  }

  /** One row of the walk: visits the cells of row y from left to right, starting with the vertex
      index of the row's first cell, and returns the vertex index of the next row's first cell. */
  method GenerateRow(meshData: MeshData, heightMap: array2<real>, heightMultiplier: real,
                     topLeftX: real, topLeftZ: real, y: nat, vertexIndex: nat, ghost tri: seq<int>)
    returns (next: nat)
    requires y < heightMap.Length1
    requires topLeftX == TopLeftX(heightMap.Length0) && topLeftZ == TopLeftZ(heightMap.Length1)
    requires vertexIndex == Corner(heightMap.Length0, 0, y)
    requires Laid(tri, heightMap.Length0, heightMap.Length1)
    requires meshData.triangleIndex == Cursor(heightMap.Length0, heightMap.Length1, 0, y)
    requires Filled(meshData, heightMap, heightMultiplier, tri, vertexIndex)
    modifies meshData`triangleIndex, meshData.vertices, meshData.uvs, meshData.triangles
    ensures next == Corner(heightMap.Length0, 0, y + 1)
    ensures meshData.triangleIndex == Cursor(heightMap.Length0, heightMap.Length1, 0, y + 1)
    ensures Filled(meshData, heightMap, heightMultiplier, tri, next)
  {
    var width := heightMap.Length0;
    next := vertexIndex;
    for x := 0 to width
      invariant next == Corner(width, x, y)
      invariant meshData.triangleIndex == Cursor(width, heightMap.Length1, x, y)
      invariant Filled(meshData, heightMap, heightMultiplier, tri, next)
    {
      GenerateCell(meshData, heightMap, heightMultiplier, topLeftX, topLeftZ, x, y, next, tri);
      next := next + 1;
    }
    MulSucc(y, width);
    CursorRowEnd(width, heightMap.Length1, y);
  }

  /** The finished mesh of a height grid: buffers of the allocated sizes, the position and the
      texture coordinate of every cell at the cell's vertex index, the triangulation before the
      cursor, every triangle index naming a vertex, zeros after the cursor, and the cursor at the
      end of the buffer unless the grid is empty. */
  ghost predicate TerrainMesh(meshData: MeshData, heightMap: array2<real>, heightMultiplier: real)
    reads meshData, meshData.vertices, meshData.uvs, meshData.triangles, heightMap
  {
    var width, height := heightMap.Length0, heightMap.Length1;
    meshData.vertices.Length == width * height && meshData.uvs.Length == width * height &&
    meshData.triangles.Length == (width - 1) * (height - 1) * 6 &&
    (forall i :: 0 <= i < meshData.vertices.Length ==> meshData.vertices[i] == VertexOf(heightMap, heightMultiplier, i)) &&
    (forall i :: 0 <= i < meshData.uvs.Length ==> meshData.uvs[i] == UvOf(width, height, i)) &&
    (forall x, y :: 0 <= x < width && 0 <= y < height ==>
       0 <= Corner(width, x, y) < meshData.vertices.Length &&
       meshData.vertices[Corner(width, x, y)] == VertexAt(heightMap, heightMultiplier, x, y) &&
       meshData.uvs[Corner(width, x, y)] == Uv(width, height, x, y)) &&
    meshData.triangleIndex <= meshData.triangles.Length &&
    meshData.Emitted() == Triangulation(width, height) &&
    (forall k :: 0 <= k < meshData.triangleIndex ==> 0 <= meshData.triangles[k] < width * height) &&
    (forall k :: meshData.triangleIndex <= k < meshData.triangles.Length ==> meshData.triangles[k] == 0) &&
    (meshData.triangleIndex == meshData.triangles.Length <==> !(width == 0 && height == 0))
  }

  /** Once every vertex is written and the cursor has passed every quad, the buffers hold the
      whole mesh. */
  lemma Completed(meshData: MeshData, heightMap: array2<real>, heightMultiplier: real, tri: seq<int>, vertexIndex: nat)
    requires Allocatable(heightMap.Length0, heightMap.Length1)
    requires meshData.triangles.Length == (heightMap.Length0 - 1) * (heightMap.Length1 - 1) * 6
    requires Laid(tri, heightMap.Length0, heightMap.Length1)
    requires vertexIndex == Corner(heightMap.Length0, 0, heightMap.Length1)
    requires meshData.triangleIndex == Cursor(heightMap.Length0, heightMap.Length1, 0, heightMap.Length1)
    requires Filled(meshData, heightMap, heightMultiplier, tri, vertexIndex)
    ensures TerrainMesh(meshData, heightMap, heightMultiplier)
  {
    var width, height := heightMap.Length0, heightMap.Length1;
    CursorEnds(width, height);
    TriangleBufferSize(width, height);
    LaidUnique(tri, width, height);
    assert meshData.Emitted() == tri;
    IndicesInRange(width, height);
    forall x, y | 0 <= x < width && 0 <= y < height
      ensures 0 <= Corner(width, x, y) < width * height
      ensures meshData.vertices[Corner(width, x, y)] == VertexAt(heightMap, heightMultiplier, x, y)
      ensures meshData.uvs[Corner(width, x, y)] == Uv(width, height, x, y)
    {
      VertexOfCell(heightMap, heightMultiplier, x, y);
      UvOfCell(width, height, x, y);
    }
  }

  /** The freshly allocated buffers are the state of the walk before its first step. */
  lemma Started(meshData: MeshData, heightMap: array2<real>, heightMultiplier: real, tri: seq<int>)
    requires Allocatable(heightMap.Length0, heightMap.Length1)
    requires Laid(tri, heightMap.Length0, heightMap.Length1)
    requires meshData.vertices.Length == heightMap.Length0 * heightMap.Length1
    requires meshData.uvs.Length == heightMap.Length0 * heightMap.Length1
    requires meshData.triangles.Length == (heightMap.Length0 - 1) * (heightMap.Length1 - 1) * 6
    requires meshData.triangleIndex == 0
    requires forall i :: 0 <= i < meshData.vertices.Length ==> meshData.vertices[i] == ZERO3
    requires forall i :: 0 <= i < meshData.uvs.Length ==> meshData.uvs[i] == ZERO2
    requires forall k :: 0 <= k < meshData.triangles.Length ==> meshData.triangles[k] == 0
    ensures meshData.triangleIndex == Cursor(heightMap.Length0, heightMap.Length1, 0, 0)
    ensures Filled(meshData, heightMap, heightMultiplier, tri, 0)
  {
    TriangleBufferSize(heightMap.Length0, heightMap.Length1);
    CursorEnds(heightMap.Length0, heightMap.Length1);
  }

  /** Builds the mesh of a height grid; heightMap[x, y] is the sample of column x and row y. */
  method GenerateTerrainMesh(heightMap: array2<real>, heightMultiplier: real) returns (meshData: MeshData)
    requires Allocatable(heightMap.Length0, heightMap.Length1)
    ensures fresh(meshData) && fresh(meshData.vertices) && fresh(meshData.uvs) && fresh(meshData.triangles)
    ensures TerrainMesh(meshData, heightMap, heightMultiplier)
  {
    var width := heightMap.Length0;
    var height := heightMap.Length1;
    var topLeftX := (width - 1) as real / -2.0;
    var topLeftZ := (height - 1) as real / 2.0;

    meshData := new MeshData(width, height);
    var vertexIndex: nat := 0;

    assert exists t :: Laid(t, width, height) by {
      TriangulationLaid(width, height);
    }
    ghost var tri :| Laid(tri, width, height);
    Started(meshData, heightMap, heightMultiplier, tri);
    for y := 0 to height
      invariant vertexIndex == Corner(width, 0, y)
      invariant meshData.triangleIndex == Cursor(width, height, 0, y)
      invariant Filled(meshData, heightMap, heightMultiplier, tri, vertexIndex)
    {
      vertexIndex := GenerateRow(meshData, heightMap, heightMultiplier, topLeftX, topLeftZ, y, vertexIndex, tri);
    }
    Completed(meshData, heightMap, heightMultiplier, tri, vertexIndex);
  }
}
