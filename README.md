# Terrain mesh generation from a height grid

This project models the mesh builder of a procedural-landmass generator. The builder takes a
`width x height` grid of height samples and produces three preallocated buffers:

- one vertex position per sample, centred on the origin and raised to the sample times a height
  multiplier;
- one texture coordinate per sample, `(x / width, y / height)`;
- the triangle indices, two triangles for every quad of neighbouring samples, always split along
  the diagonal from the top-left to the bottom-right vertex.

`MeshData` is the buffer object. Its constructor sizes the three arrays. `AddTriangle` writes three
indices at a private cursor and then advances the cursor by three. `GenerateTerrainMesh` walks the
grid row by row with a running vertex index and fills all three buffers.

The project has three modules:

- `GridLayout` holds the index arithmetic. It defines the expected triangle buffer
  (`Triangulation`) as a row-major concatenation of quads. It proves the buffer's size, the
  per-quad layout, that the layout determines the buffer, that every index names a vertex, and how
  the walk's cursor advances.
- `GridGeometry` holds positions and texture coordinates. It proves that the grid is centred, that
  samples are one unit apart, that texture coordinates lie in [0, 1), and that every triangle faces
  the same way.
- `MeshGenerator` holds the class `MeshData` and the method `GenerateTerrainMesh`. They are written
  imperatively over arrays, with loop invariants. The method's postcondition `TerrainMesh` says
  that, at the end of the walk:
  - every buffer has its allocated size;
  - every position and texture coordinate is the one of its cell;
  - the indices before the cursor are exactly `Triangulation`;
  - every index names a vertex;
  - the cursor sits at the end of the triangle buffer, except for the empty grid.

Floating-point values are modelled as exact reals. The height map is an `array2<real>` indexed as
`heightMap[x, y]`, with `Length0` as the width, as in the source. The nested loops over `y` and `x`
are two methods: `GenerateRow` holds the inner loop and `GenerateCell` holds its body. `AddQuad`
holds the pair of `AddTriangle` calls of the quad branch. The walk's reasoning uses a ghost copy
of the expected triangle buffer.

## Model

| member | source | states |
|---|---|---|
| MeshGenerator.MeshData.constructor | Assets/Scripts/MeshGenerator.cs:61-69 | Allocates fresh arrays: vertices and uvs of length meshWidth * meshHeight, triangles of length (meshWidth - 1) * (meshHeight - 1) * 6. Every slot holds the default value and the cursor starts at 0. |
| MeshGenerator.MeshData.AddTriangle | Assets/Scripts/MeshGenerator.cs:71-78 | Requires room for three indices at the cursor. Writes a, b, c at cursor, cursor+1 and cursor+2, leaves every other slot unchanged, and advances the cursor by 3. The emitted prefix grows by exactly [a, b, c]. |
| MeshGenerator.TriangleBufferSize | Assets/Scripts/MeshGenerator.cs:68 | The allocated triangle buffer has exactly six slots per quad. The only exception is the empty 0 x 0 grid, where (0 - 1) * (0 - 1) * 6 gives 6 slots for no quad. |
| MeshGenerator.AddQuad | Assets/Scripts/MeshGenerator.cs:27-43 | The two AddTriangle calls for the quad at cell (x, y), at the quad's own slot, advance the cursor by 6. The buffer still agrees with the expected triangulation up to the new cursor and is zero beyond it. |
| MeshGenerator.GenerateCell | Assets/Scripts/MeshGenerator.cs:23-46 | When the running vertex index equals y * width + x, one step writes that cell's position and texture coordinate at the index. It emits the quad exactly when x < width - 1 and y < height - 1, so the cursor moves to its value for the next cell. The vertex invariant is extended by one index. |
| MeshGenerator.GenerateRow | Assets/Scripts/MeshGenerator.cs:20-47 | The inner loop over x keeps vertexIndex == y * width + x. It ends with the vertex index of the next row's first cell and the cursor at the next row's start. |
| MeshGenerator.Started | Assets/Scripts/MeshGenerator.cs:15-16 | The freshly allocated buffers, with the cursor at 0 and vertexIndex at 0, are the walk's state before its first cell. |
| MeshGenerator.Completed | Assets/Scripts/MeshGenerator.cs:18-49 | After the last row the buffers satisfy TerrainMesh with cursor count 6 * (width - 1) * (height - 1): the whole mesh is written. |
| MeshGenerator.GenerateTerrainMesh | Assets/Scripts/MeshGenerator.cs:7-50 | Returns fresh buffers satisfying TerrainMesh (see above). Every cell's position is (-(width-1)/2 + x, heightMap[x, y] * heightMultiplier, (height-1)/2 - y) and its texture coordinate is (x / width, y / height), both at index y * width + x. The triangle prefix is the triangulation, every index is below width * height, and the cursor ends at triangles.Length unless the grid is 0 x 0. |
| MeshGenerator.VertexOfCell | Assets/Scripts/MeshGenerator.cs:23 | Index y * width + x of cell (x, y) lies in the vertex buffer and names that cell's position. |
| GridGeometry.Uv | Assets/Scripts/MeshGenerator.cs:24 | Both texture-coordinate components lie in [0, 1). Multiplying them back by width and height gives x and y. |
| GridGeometry.UvOfCell | Assets/Scripts/MeshGenerator.cs:24 | Index y * width + x of cell (x, y) lies in the buffer and names that cell's texture coordinate. |
| GridGeometry.Centred | Assets/Scripts/MeshGenerator.cs:12-13 | Mirroring a cell through the middle of the grid negates its horizontal position, so the grid is centred on the origin. |
| GridGeometry.Corners | Assets/Scripts/MeshGenerator.cs:12-13 | The first vertex sits at (-(w-1)/2, e, (h-1)/2) and the last at ((w-1)/2, e', -(h-1)/2). |
| GridGeometry.UnitSpacing | Assets/Scripts/MeshGenerator.cs:23 | Neighbouring columns are one unit apart along +X and neighbouring rows one unit apart along -Z. The elevation is carried through unchanged. |
| GridGeometry.QuadWinding | Assets/Scripts/MeshGenerator.cs:42-43 | Both triangles of every quad have signed area -1 in the (X, Z) plane, so they have the same orientation. |
| GridGeometry.UniformWinding | Assets/Scripts/MeshGenerator.cs:42-43 | Every triangle of the whole buffer, wherever it lies in the grid, has signed area -1 seen from above: the winding is consistent. |
| GridLayout.TriangulationSize | Assets/Scripts/MeshGenerator.cs:27 | The expected buffer has six indices per quad. That is (width - 1) * (height - 1) * 6, or 0 when a side is 0. |
| GridLayout.QuadLayout | Assets/Scripts/MeshGenerator.cs:27-43 | For quad (x, y) with corner v = y * width + x, the six slots from 6 * (y * (width - 1) + x) hold v, v+width+1, v+width, v+width+1, v, v+1. |
| GridLayout.QuadAt | Assets/Scripts/MeshGenerator.cs:42-43 | The same six slots, one by one, for every inner cell. |
| GridLayout.TriangulationLaid | Assets/Scripts/MeshGenerator.cs:27-43 | The expected buffer has the triangulation's length and holds every quad at its slot. |
| GridLayout.LaidUnique | Assets/Scripts/MeshGenerator.cs:27-43 | Conversely, any buffer of that length holding every quad at its slot is the expected buffer, because every slot belongs to some quad. |
| GridLayout.Decompose | Assets/Scripts/MeshGenerator.cs:27 | Every slot k of the buffer is index j < 6 of the quad at some inner cell (x, y): k == 6 * (y * (width - 1) + x) + j. |
| GridLayout.IndicesInRange | Assets/Scripts/MeshGenerator.cs:42-43 | Every index held by the buffer lies in [0, width * height), so each one names a vertex. |
| GridLayout.CornerInGrid | Assets/Scripts/MeshGenerator.cs:16 | The running vertex index y * width + x of every cell lies in [0, width * height). |
| GridLayout.CellOf | Assets/Scripts/MeshGenerator.cs:16 | Every vertex index below width * height is the index of the cell (i % width, i / width) of the grid. |
| GridLayout.CursorStep | Assets/Scripts/MeshGenerator.cs:27 | Visiting cell (x, y) advances the cursor by 6 exactly when x < width - 1 and y < height - 1, and the quad then starts at its own slot. The cursor never passes 6 * quads. |
| GridLayout.CursorRowEnd | Assets/Scripts/MeshGenerator.cs:18-20 | The cursor at the end of row y equals the cursor at the start of row y + 1. |
| GridLayout.CursorEnds | Assets/Scripts/MeshGenerator.cs:16 | The cursor is 0 before the first cell and 6 * (width - 1) * (height - 1) after the last row. |

## Left out

- `MeshData.CreateMesh` (Assets/Scripts/MeshGenerator.cs:80-88) is a call into the engine's `Mesh` type and `RecalculateNormals`.
- The noise generator (Assets/Scripts/Noise.cs) is not part of this model. It is floating-point numerics over the engine's Perlin noise and the platform's random numbers.
- Level-of-detail downsampling and height-curve shaping do not appear in this builder, so the model has neither: stride 1, raw sample times multiplier.
- Floating point: positions and texture coordinates are exact reals. Rounding of `x / (float)width` and of the centring offsets is not modelled.
- Array-size failures: `Allocatable` requires that no size product is negative or overflows a 32-bit `int`. The source throws for a `0 x h` grid with `h >= 2`, where the triangle size (-1) * (h - 1) * 6 is negative, and wraps around for huge grids. Neither is modelled.
- GenerateTerrainMesh: the array fields are `const`, because the source assigns them only in the constructor. Writes to them from outside the builder are not modelled.
- The engine's `Vector3` and `Vector2` are plain value datatypes.
- Winding: the orientation is stated as a signed area of -1 in the (X, Z) plane, i.e. the cross product (q - p) x (r - p) points along +Y. With X to the right and Z up the page, p, q, r run clockwise, which is the front-face order of the engine's left-handed convention. A right-handed description of the same triangles calls them counter-clockwise.
- The empty grid: for the 0 x 0 grid the source allocates six triangle slots that are never written. The model states this (the cursor stays at 0 and the six slots stay 0) rather than treating it as an error.
