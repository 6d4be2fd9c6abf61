/** Index arithmetic of the terrain triangulation.

    A height grid of `width` x `height` samples becomes `width * height` vertices, numbered row by
    row: the vertex of column x and row y has index y * width + x. Every cell that is not on the
    last row or column is the top-left corner of a quad, and each quad becomes two triangles, split
    along the same diagonal. This module defines the expected triangle-index buffer as a row-major
    concatenation of quads and proves its size, its per-quad layout, and that every index it holds
    names a vertex. */
module GridLayout {

  /** Number of quads along a line of `n` vertices. */
  function QuadsPerLine(n: nat): nat {
    if n == 0 then 0 else n - 1
  }

  /** Index of the vertex in column x and row y. */
  function Corner(width: nat, x: nat, y: nat): nat {
    y * width + x
  }

  /** First slot of the six triangle indices of the quad whose top-left corner is (x, y). */
  function Slot(width: nat, x: nat, y: nat): nat {
    6 * (y * QuadsPerLine(width) + x)
  }

  /** The two triangles of the quad whose top-left vertex is v: (v, v+width+1, v+width) and
      (v+width+1, v, v+1). Both share the diagonal from v to v+width+1. */
  function Quad(v: int, width: int): seq<int> {
    [v, v + width + 1, v + width, v + width + 1, v, v + 1]
  }

  /** Triangle indices of the first n quads of row y. */
  function RowQuads(width: nat, y: nat, n: nat): (r: seq<int>)
    ensures |r| == 6 * n
  {
    if n == 0 then [] else RowQuads(width, y, n - 1) + Quad(Corner(width, n - 1, y), width)
  }

  /** Triangle indices of the first n complete rows of quads. */
  function Rows(width: nat, n: nat): (r: seq<int>)
    ensures |r| == 6 * (n * QuadsPerLine(width))
  {
    if n == 0 then []
    else
      var r := Rows(width, n - 1) + RowQuads(width, n - 1, QuadsPerLine(width));
      MulSucc(n - 1, QuadsPerLine(width));
      r
  }

  /** The whole triangle-index buffer of a width x height grid. */
  function Triangulation(width: nat, height: nat): seq<int> {
    Rows(width, QuadsPerLine(height))
  }

  /** Multiplying both sides of a <= b by a non-negative factor keeps the order. */
  lemma MulMono(a: int, b: int, c: int)
    ensures a <= b && 0 <= c ==> a * c <= b * c
  {
    var d := b - a;
    assert b * c == a * c + d * c;
  }

  /** A factor one larger adds one more copy of the other factor. */
  lemma MulSucc(a: int, c: int)
    ensures (a + 1) * c == a * c + c
  {
  }

  /** Euclidean division recovers column and row from a vertex index. */
  lemma DivMod(i: int, width: int, x: int, y: int)
    requires 0 < width && 0 <= x < width && i == y * width + x
    ensures i / width == y && i % width == x
  {
    var q, r := i / width, i % width;
    assert i == q * width + r && 0 <= r < width;
    MulMono(q + 1, y, width);
    MulMono(y + 1, q, width);
    MulSucc(q, width);
    MulSucc(y, width);
  }

  /** Buffer size: six indices for each of the (width-1) * (height-1) quads. */
  lemma TriangulationSize(width: nat, height: nat)
    ensures |Triangulation(width, height)| == 6 * QuadCount(width, height)
    ensures |Triangulation(width, height)| ==
            if width == 0 || height == 0 then 0 else (width - 1) * (height - 1) * 6
  {
  }

  lemma {:induction false} RowQuadsAt(width: nat, y: nat, n: nat, x: nat, j: nat)
    requires x < n && j < 6
    ensures RowQuads(width, y, n)[6 * x + j] == Quad(Corner(width, x, y), width)[j]
  {
    if x < n - 1 {
      RowQuadsAt(width, y, n - 1, x, j);
    }
  }

  lemma {:induction false} RowsAt(width: nat, n: nat, x: nat, y: nat, j: nat)
    requires x < QuadsPerLine(width) && y < n && j < 6
    ensures Slot(width, x, y) + j < |Rows(width, n)|
    ensures Rows(width, n)[Slot(width, x, y) + j] == Quad(Corner(width, x, y), width)[j]
  {
    if y < n - 1 {
      RowsAt(width, n - 1, x, y, j);
    } else {
      LastRowAt(width, y, x, j);
    }
  }

  /** The slot of quad (x, y) lies 6 * x past the first y rows of quads. */
  lemma SlotAfterRows(width: nat, y: nat, x: nat)
    requires x < QuadsPerLine(width)
    ensures Slot(width, x, y) == 6 * (QuadsPerLine(width) * y) + 6 * x
  {
  }

  /** Within the last of y + 1 rows, slots are those of the row's own quads. */
  lemma LastRowAt(width: nat, y: nat, x: nat, j: nat)
    requires x < QuadsPerLine(width) && j < 6
    ensures Slot(width, x, y) + j < |Rows(width, y + 1)|
    ensures Rows(width, y + 1)[Slot(width, x, y) + j] == Quad(Corner(width, x, y), width)[j]
  {
    var prefix := Rows(width, y);
    var row := RowQuads(width, y, QuadsPerLine(width));
    assert Rows(width, y + 1) == prefix + row;
    SlotAfterRows(width, y, x);
    RowQuadsAt(width, y, QuadsPerLine(width), x, j);
    assert (prefix + row)[|prefix| + 6 * x + j] == row[6 * x + j];
  }

  /** Per-quad layout: the six slots from Slot(width, x, y) hold the quad of Corner(width, x, y),
      the same diagonal for every quad. */
  lemma QuadLayout(width: nat, height: nat, x: nat, y: nat)
    requires x < QuadsPerLine(width) && y < QuadsPerLine(height)
    ensures Slot(width, x, y) + 6 <= |Triangulation(width, height)|
    ensures forall j :: 0 <= j < 6 ==>
              Triangulation(width, height)[Slot(width, x, y) + j] == Quad(Corner(width, x, y), width)[j]
  {
    RowsAt(width, QuadsPerLine(height), x, y, 5);
    forall j | 0 <= j < 6
      ensures Triangulation(width, height)[Slot(width, x, y) + j] == Quad(Corner(width, x, y), width)[j]
    {
      RowsAt(width, QuadsPerLine(height), x, y, j);
    }
  }

  /** Every slot of the buffer belongs to exactly the quad layout: slot k is index j of the quad
      with top-left corner (x, y). */
  lemma Decompose(width: nat, height: nat, k: nat) returns (x: nat, y: nat, j: nat)
    requires k < |Triangulation(width, height)|
    ensures x < QuadsPerLine(width) && y < QuadsPerLine(height) && j < 6
    ensures k == Slot(width, x, y) + j
  {
    var w, h := QuadsPerLine(width), QuadsPerLine(height);
    assert k < 6 * (w * h);
    x, y, j := SplitIndex(k, w, h);
    assert w == width - 1;
  }

  /** Splits k < 6 * w * h into a slot within a quad, a column and a row of quads. */
  lemma SplitIndex(k: nat, w: nat, h: nat) returns (x: nat, y: nat, j: nat)
    requires k < 6 * (w * h)
    ensures x < w && y < h && j < 6 && k == 6 * (y * w + x) + j
  {
    var q := k / 6;
    j := k % 6;
    assert k == 6 * q + j;
    assert q < w * h;
    assert 0 < w by {
      MulMono(w, 0, h);
    }
    x := q % w;
    y := q / w;
    assert q == y * w + x;
    assert y < h by {
      MulMono(h, y, w);
    }
  }

  /** Every index in the buffer names a vertex of the grid. */
  lemma IndicesInRange(width: nat, height: nat)
    ensures forall k :: 0 <= k < |Triangulation(width, height)| ==>
              0 <= Triangulation(width, height)[k] < width * height
  {
    var t := Triangulation(width, height);
    forall k | 0 <= k < |t|
      ensures 0 <= t[k] < width * height
    {
      var x, y, j := Decompose(width, height, k);
      QuadLayout(width, height, x, y);
      var v := Corner(width, x, y);
      assert t[k] == Quad(v, width)[j];
      MulSucc(y, width);
      MulSucc(y + 1, width);
      MulMono(y + 2, height, width);
    }
  }

  /** Every cell (x, y) of the grid has a vertex index within the buffer. */
  lemma CornerInGrid(width: nat, height: nat, x: int, y: int)
    requires 0 <= x < width && 0 <= y < height
    ensures 0 <= Corner(width, x, y) < width * height
  {
    MulMono(0, y, width);
    MulSucc(y, width);
    MulMono(y + 1, height, width);
  }

  /** Every vertex index within the buffer is the index of a cell of the grid. */
  lemma CellOf(width: nat, height: nat, i: int)
    requires 0 <= i < width * height
    ensures 0 < width && 0 <= i % width < width && 0 <= i / width < height
    ensures i == Corner(width, i % width, i / width)
  {
    MulMono(width, 0, height);
    MulMono(height, i / width, width);
  }

  function Min(a: int, b: int): int {
    if a <= b then a else b
  }

  /** Number of triangle indices emitted before cell (x, y) when the grid is walked row by row,
      each row from column 0: six for every quad of the rows above and of the columns to the
      left. */
  function Cursor(width: nat, height: nat, x: nat, y: nat): nat {
    6 * (Min(y, QuadsPerLine(height)) * QuadsPerLine(width) +
         (if y < QuadsPerLine(height) then Min(x, QuadsPerLine(width)) else 0))
  }

  /** Number of quads of a width x height grid. */
  function QuadCount(width: nat, height: nat): nat {
    QuadsPerLine(width) * QuadsPerLine(height)
  }

  /** Visiting cell (x, y) advances the cursor by one quad exactly when the cell is not on the
      last column or the last row; the quad then starts at the cell's own slot and fits in the
      buffer. */
  lemma CursorStep(width: nat, height: nat, x: nat, y: nat)
    requires x < width && y < height
    ensures x < width - 1 && y < height - 1 ==>
              Cursor(width, height, x, y) == Slot(width, x, y) &&
              Cursor(width, height, x + 1, y) == Cursor(width, height, x, y) + 6 &&
              Cursor(width, height, x, y) + 6 <= 6 * QuadCount(width, height)
    ensures !(x < width - 1 && y < height - 1) ==> Cursor(width, height, x + 1, y) == Cursor(width, height, x, y)
    ensures Cursor(width, height, x + 1, y) <= 6 * QuadCount(width, height)
  {
    var w, h := QuadsPerLine(width), QuadsPerLine(height);
    MulSucc(y, w);
    MulMono(y + 1, h, w);
  }

  /** The end of a row is the start of the next one. */
  lemma CursorRowEnd(width: nat, height: nat, y: nat)
    requires y < height
    ensures Cursor(width, height, width, y) == Cursor(width, height, 0, y + 1)
  {
    MulSucc(y, QuadsPerLine(width));
  }

  /** Before the first cell nothing is emitted; after the last row, six indices for every quad. */
  lemma CursorEnds(width: nat, height: nat)
    ensures Cursor(width, height, 0, 0) == 0
    ensures Cursor(width, height, 0, height) == 6 * QuadCount(width, height)
  {
  }

  /** The six slots from Slot(width, x, y) of buffer t hold the quad of Corner(width, x, y). */
  predicate QuadIn(t: seq<int>, width: nat, x: nat, y: nat) {
    var s, v := Slot(width, x, y), Corner(width, x, y);
    s + 6 <= |t| &&
    t[s] == v && t[s + 1] == v + width + 1 && t[s + 2] == v + width &&
    t[s + 3] == v + width + 1 && t[s + 4] == v && t[s + 5] == v + 1
  }

  /** Buffer t has the length of the triangulation and holds every quad at its slot. */
  predicate Laid(t: seq<int>, width: nat, height: nat) {
    |t| == 6 * QuadCount(width, height) &&
    forall x, y :: 0 <= x < width - 1 && 0 <= y < height - 1 ==> QuadIn(t, width, x, y)
  }

  /** The six slots of an inner cell's quad, one by one. */
  lemma QuadAt(width: nat, height: nat, x: nat, y: nat)
    requires x < width - 1 && y < height - 1
    ensures QuadIn(Triangulation(width, height), width, x, y)
  {
    QuadLayout(width, height, x, y);
    var t, s := Triangulation(width, height), Slot(width, x, y);
    var q := Quad(Corner(width, x, y), width);
    assert t[s + 0] == q[0] && t[s + 1] == q[1] && t[s + 2] == q[2];
    assert t[s + 3] == q[3] && t[s + 4] == q[4] && t[s + 5] == q[5];
  }

  /** The triangulation is laid out quad by quad. */
  lemma TriangulationLaid(width: nat, height: nat)
    ensures Laid(Triangulation(width, height), width, height)
  {
    TriangulationSize(width, height);
    forall x, y | 0 <= x < width - 1 && 0 <= y < height - 1
      ensures QuadIn(Triangulation(width, height), width, x, y)
    {
      QuadAt(width, height, x, y);
    }
  }

  /** The layout determines the buffer: any buffer of the right length holding every quad at its
      slot is the triangulation, since every slot belongs to a quad. */
  lemma LaidUnique(t: seq<int>, width: nat, height: nat)
    requires Laid(t, width, height)
    ensures t == Triangulation(width, height)
  {
    var tri := Triangulation(width, height);
    TriangulationSize(width, height);
    forall k | 0 <= k < |t|
      ensures t[k] == tri[k]
    {
      var x, y, j := Decompose(width, height, k);
      QuadAt(width, height, x, y);
      assert QuadIn(t, width, x, y);
    }
  }
}
