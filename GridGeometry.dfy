/** Where the vertices of a height grid go, and which texture coordinates they get.

    Floating-point values are modelled as exact reals. The grid is centred on the origin of the
    horizontal (X, Z) plane: column x is placed at X = x - (width-1)/2 and row y at
    Z = (height-1)/2 - y, one unit apart, so rows run towards -Z. */
module GridGeometry {
  import opened GridLayout

  /** A point or direction in space (Unity's Vector3); Y is up. */
  datatype Vector3 = Vector3(x: real, y: real, z: real)

  /** A texture coordinate (Unity's Vector2). */
  datatype Vector2 = Vector2(x: real, y: real)

  /** X of the first column: (width - 1) / -2. */
  function TopLeftX(width: int): real {
    (width - 1) as real / -2.0
  }

  /** Z of the first row: (height - 1) / 2. */
  function TopLeftZ(height: int): real {
    (height - 1) as real / 2.0
  }

  /** Height of a vertex: its sample times the height multiplier. */
  function Elevation(sample: real, heightMultiplier: real): real {
    sample * heightMultiplier
  }

  /** Position of the sample in column x and row y, raised to `elevation`. */
  function Position(width: int, height: int, x: int, y: int, elevation: real): Vector3 {
    Vector3(TopLeftX(width) + x as real, elevation, TopLeftZ(height) - y as real)
  }

  /** A non-negative quotient a / b with a below b lies in [0, 1) and multiplies back to a. */
  lemma Ratio(a: real, b: real)
    requires 0.0 <= a < b
    ensures 0.0 <= a / b < 1.0 && (a / b) * b == a
  {
  }

  /** Texture coordinate of the sample in column x and row y: (x / width, y / height). */
  function Uv(width: int, height: int, x: int, y: int): (uv: Vector2)
    requires 0 <= x < width && 0 <= y < height
    ensures 0.0 <= uv.x < 1.0 && 0.0 <= uv.y < 1.0
    ensures uv.x * width as real == x as real && uv.y * height as real == y as real
  {
    Ratio(x as real, width as real);
    Ratio(y as real, height as real);
    Vector2(x as real / width as real, y as real / height as real)
  }

  /** Texture coordinate of the vertex with index i. */
  function UvOf(width: nat, height: nat, i: int): Vector2
    requires 0 <= i < width * height
  {
    CellOf(width, height, i);
    Uv(width, height, i % width, i / width)
  }

  /** The vertex index of column x and row y names the texture coordinate of that cell. */
  lemma UvOfCell(width: nat, height: nat, x: int, y: int)
    requires 0 <= x < width && 0 <= y < height
    ensures 0 <= Corner(width, x, y) < width * height
    ensures UvOf(width, height, Corner(width, x, y)) == Uv(width, height, x, y)
  {
    CornerInGrid(width, height, x, y);
    DivMod(Corner(width, x, y), width, x, y);
  }

  /** The grid is centred: reflecting column x and row y through the middle of the grid negates
      the horizontal position. */
  lemma Centred(width: int, height: int, x: int, y: int, e: real, e': real)
    ensures Position(width, height, x, y, e).x + Position(width, height, width - 1 - x, height - 1 - y, e').x == 0.0
    ensures Position(width, height, x, y, e).z + Position(width, height, width - 1 - x, height - 1 - y, e').z == 0.0
  {
  }

  /** The first vertex sits at (-(w-1)/2, _, (h-1)/2) and the last at ((w-1)/2, _, -(h-1)/2). */
  lemma Corners(width: int, height: int, e: real, e': real)
    ensures Position(width, height, 0, 0, e) == Vector3(-(width - 1) as real / 2.0, e, (height - 1) as real / 2.0)
    ensures Position(width, height, width - 1, height - 1, e') == Vector3((width - 1) as real / 2.0, e', -(height - 1) as real / 2.0)
  {
  }

  /** Neighbouring columns are one unit apart along +X, neighbouring rows one unit apart along -Z,
      and the elevation is carried through unchanged. */
  lemma UnitSpacing(width: int, height: int, x: int, y: int, e: real, e': real)
    ensures Position(width, height, x + 1, y, e).x - Position(width, height, x, y, e').x == 1.0
    ensures Position(width, height, x, y + 1, e).z - Position(width, height, x, y, e').z == -1.0
    ensures Position(width, height, x, y, e).y == e
  {
  }

  /** Position, on the ground plane, of the vertex with index i. */
  function GroundPoint(width: int, height: int, i: int): Vector3
    requires 0 < width
  {
    Position(width, height, i % width, i / width, 0.0)
  }

  /** Twice the signed area of triangle (p, q, r) projected onto the (X, Z) plane. */
  function SignedAreaXZ(p: Vector3, q: Vector3, r: Vector3): real {
    (q.x - p.x) * (r.z - p.z) - (q.z - p.z) * (r.x - p.x)
  }

  /** Both triangles of a quad have the same orientation seen from above. */
  lemma QuadWinding(width: nat, height: nat, x: nat, y: nat)
    requires 0 <= x < width - 1
    ensures var q := Quad(Corner(width, x, y), width);
            SignedAreaXZ(GroundPoint(width, height, q[0]), GroundPoint(width, height, q[1]), GroundPoint(width, height, q[2])) == -1.0 &&
            SignedAreaXZ(GroundPoint(width, height, q[3]), GroundPoint(width, height, q[4]), GroundPoint(width, height, q[5])) == -1.0
  {
    var v := Corner(width, x, y);
    DivMod(v, width, x, y);
    DivMod(v + 1, width, x + 1, y);
    DivMod(v + width, width, x, y + 1);
    DivMod(v + width + 1, width, x + 1, y + 1);
  }

  /** A triangle starts at a multiple of three, so within its quad it starts at slot 0 or 3. */
  lemma TriangleStart(t: int, m: int, j: int)
    requires 3 * t == 6 * m + j && 0 <= j < 6
    ensures j == 0 || j == 3
  {
    assert 3 * (t - 2 * m) == j;
  }

  /** Consistent winding: every triangle of the buffer has the same orientation seen from above,
      independently of where it lies in the grid. */
  lemma UniformWinding(width: nat, height: nat, t: nat)
    requires 3 * t + 2 < |Triangulation(width, height)|
    ensures 0 < width
    ensures var tri := Triangulation(width, height);
            SignedAreaXZ(GroundPoint(width, height, tri[3 * t]),
                         GroundPoint(width, height, tri[3 * t + 1]),
                         GroundPoint(width, height, tri[3 * t + 2])) == -1.0
  {
    var tri := Triangulation(width, height);
    var x, y, j := Decompose(width, height, 3 * t);
    var s := Slot(width, x, y);
    QuadLayout(width, height, x, y);
    QuadWinding(width, height, x, y);
    var q := Quad(Corner(width, x, y), width);
    TriangleStart(t, y * (width - 1) + x, j);
    assert tri[s + j] == q[j] && tri[s + (j + 1)] == q[j + 1] && tri[s + (j + 2)] == q[j + 2];
  }
}
