/**
 * The grid that the Vulkano display draws the CHIP-8 screen on
 * (`get_square_vertices_and_indexes_from_screen` in
 * `src/chip8/vulkano_interface.rs`). A `width` by `height` screen becomes
 * a grid of `(width + 1) * (height + 1)` vertices, numbered row by row,
 * and every pixel square becomes two triangles: six entries of the index
 * buffer, each naming a vertex by its number.
 *
 * The source places each vertex at a float position; here a vertex is its
 * grid point `(x, y)`, from which the position is computed.
 */
module Tessellation {

  /** A vertex: its grid point and the `is_white` attribute the shader reads. */
  datatype Vertex = Vertex(x: nat, y: nat, isWhite: nat)

  // ---------------------------------------------------------------------
  // Specification: what the two loops push, row by row
  // ---------------------------------------------------------------------

  /** The vertices of row `y` for the columns `0 .. x`, with `is_white` left at 0. */
  function RowVertices(y: nat, x: nat): seq<Vertex>
  {
    if x == 0 then [] else RowVertices(y, x - 1) + [Vertex(x - 1, y, 0)]
  }

  /** The vertices of rows `0 .. rows` of a grid `width + 1` vertices wide. */
  function GridVertices(width: nat, rows: nat): seq<Vertex>
  {
    if rows == 0 then [] else GridVertices(width, rows - 1) + RowVertices(rows - 1, width + 1)
  }

  /**
   * The two triangles of the square whose top-left vertex is number `k`,
   * in a grid `w` vertices wide: top-left half, then bottom-right half.
   */
  function Square(w: nat, k: nat): seq<nat>
  {
    [k, k + 1, k + w, k + 1, k + w, k + w + 1]
  }

  /** The indices of the squares `0 .. i` of row `j`. */
  function RowIndexes(width: nat, j: nat, i: nat): seq<nat>
  {
    if i == 0 then [] else RowIndexes(width, j, i - 1) + Square(width + 1, (i - 1) + j * (width + 1))
  }

  /** The indices of the squares of rows `0 .. rows`. */
  function GridIndexes(width: nat, rows: nat): seq<nat>
  {
    if rows == 0 then [] else GridIndexes(width, rows - 1) + RowIndexes(width, rows - 1, width)
  }

  // ---------------------------------------------------------------------
  // The method
  // ---------------------------------------------------------------------

  /**
   * `get_square_vertices_and_indexes_from_screen`: the vertex loop pushes
   * row by row, `x` fastest; the index loop pushes six indices per square,
   * row by row.
   */
  method SquareVerticesAndIndexes(width: nat, height: nat) returns (vertices: seq<Vertex>, indexes: seq<nat>)
    ensures vertices == GridVertices(width, height + 1)
    ensures indexes == GridIndexes(width, height)
  {
    var widthVertices := width + 1;
    vertices := [];
    var y := 0;
    while y < height + 1
      invariant y <= height + 1
      invariant vertices == GridVertices(width, y)
    {
      var x := 0;
      while x < width + 1
        invariant x <= width + 1
        invariant vertices == GridVertices(width, y) + RowVertices(y, x)
      {
        vertices := vertices + [Vertex(x, y, 0)];
        x := x + 1;
      }
      y := y + 1;
    }

    indexes := [];
    var j := 0;
    while j < height
      invariant j <= height
      invariant indexes == GridIndexes(width, j)
    {
      var i := 0;
      while i < width
        invariant i <= width
        invariant indexes == GridIndexes(width, j) + RowIndexes(width, j, i)
      {
        var topLeft: nat := i + j * widthVertices;
        var topRight: nat := topLeft + 1;
        var bottomLeft: nat := i + (j + 1) * widthVertices;
        var bottomRight: nat := bottomLeft + 1;
        // top left half triangle
        indexes := indexes + [topLeft];
        indexes := indexes + [topRight];
        indexes := indexes + [bottomLeft];
        // bottom right half triangle
        indexes := indexes + [topRight];
        indexes := indexes + [bottomLeft];
        indexes := indexes + [bottomRight];
        NextRow(j, widthVertices);
        PushSquare(width, j, i, widthVertices, topLeft, topRight, bottomLeft, bottomRight);
        i := i + 1;
      }
      j := j + 1;
    }
  }

  /**
   * The six pushes for square `i` of row `j`, one per corner of its two
   * triangles, extend the index buffer by that square.
   */
  lemma PushSquare(width: nat, j: nat, i: nat, w: nat, topLeft: nat, topRight: nat, bottomLeft: nat, bottomRight: nat)
    requires w == width + 1 && topLeft == i + j * w && topRight == topLeft + 1
    requires bottomLeft == topLeft + w && bottomRight == bottomLeft + 1
    ensures GridIndexes(width, j) + RowIndexes(width, j, i)
              + [topLeft] + [topRight] + [bottomLeft] + [topRight] + [bottomLeft] + [bottomRight]
            == GridIndexes(width, j) + RowIndexes(width, j, i + 1)
  {
    assert RowIndexes(width, j, i + 1) == RowIndexes(width, j, i) + Square(w, topLeft);
  }

  // ---------------------------------------------------------------------
  // Properties
  // ---------------------------------------------------------------------

  lemma {:induction false} RowVerticesLength(y: nat, x: nat)
    ensures |RowVertices(y, x)| == x
  {
    if x > 0 {
      RowVerticesLength(y, x - 1);
    }
  }

  /** The vertex buffer holds `(width + 1) * rows` vertices. */
  lemma {:induction false} GridVerticesLength(width: nat, rows: nat)
    ensures |GridVertices(width, rows)| == rows * (width + 1)
  {
    if rows > 0 {
      GridVerticesLength(width, rows - 1);
      RowVerticesLength(rows - 1, width + 1);
      assert rows * (width + 1) == (rows - 1) * (width + 1) + (width + 1);
    }
  }

  /** Column `c` of a row is the grid point `(c, y)`, not yet white. */
  lemma {:induction false} RowVerticesAt(y: nat, x: nat, c: nat)
    requires c < x
    ensures |RowVertices(y, x)| == x
    ensures RowVertices(y, x)[c] == Vertex(c, y, 0)
  {
    RowVerticesLength(y, x);
    if c < x - 1 {
      RowVerticesAt(y, x - 1, c);
    } else {
      RowVerticesLength(y, x - 1);
    }
  }

  /** One more row is `w` more vertices. */
  lemma NextRow(a: nat, w: nat)
    ensures (a + 1) * w == a * w + w
  {
  }

  /** `a * w + c < b * w` when row `a` comes before row `b` and `c < w`. */
  lemma {:induction false} RowBefore(a: nat, b: nat, w: nat, c: nat)
    requires a < b && c < w
    ensures a * w + c < b * w
    decreases b
  {
    NextRow(b - 1, w);
    if a < b - 1 {
      RowBefore(a, b - 1, w, c);
    }
  }

  /** Vertex number `r * (width + 1) + c` is the grid point `(c, r)`: the vertices are row-major. */
  lemma {:induction false} GridVerticesAt(width: nat, rows: nat, r: nat, c: nat)
    requires r < rows && c <= width
    ensures |GridVertices(width, rows)| == rows * (width + 1)
    ensures GridVertices(width, rows)[r * (width + 1) + c] == Vertex(c, r, 0)
  {
    GridVerticesLength(width, rows);
    GridVerticesLength(width, rows - 1);
    var prefix := GridVertices(width, rows - 1);
    if r < rows - 1 {
      RowBefore(r, rows - 1, width + 1, c);
      GridVerticesAt(width, rows - 1, r, c);
      assert GridVertices(width, rows)[r * (width + 1) + c] == prefix[r * (width + 1) + c];
    } else {
      RowVerticesAt(r, width + 1, c);
      assert GridVertices(width, rows)[r * (width + 1) + c] == RowVertices(r, width + 1)[c];
    }
  }

  lemma {:induction false} RowIndexesLength(width: nat, j: nat, i: nat)
    ensures |RowIndexes(width, j, i)| == 6 * i
  {
    if i > 0 {
      RowIndexesLength(width, j, i - 1);
    }
  }

  /** The index buffer holds six indices for each of the `width` squares of each row. */
  lemma {:induction false} GridIndexesLength(width: nat, rows: nat)
    ensures |GridIndexes(width, rows)| == rows * (6 * width)
  {
    if rows > 0 {
      GridIndexesLength(width, rows - 1);
      RowIndexesLength(width, rows - 1, width);
      NextRow(rows - 1, 6 * width);
    }
  }

  /** Square `q` of row `j` holds the entries `6 * q .. 6 * q + 6` of the row. */
  lemma {:induction false} RowIndexesAt(width: nat, j: nat, i: nat, q: nat, t: nat)
    requires q < i && t < 6
    ensures |RowIndexes(width, j, i)| == 6 * i
    ensures RowIndexes(width, j, i)[6 * q + t] == Square(width + 1, q + j * (width + 1))[t]
  {
    RowIndexesLength(width, j, i);
    RowIndexesLength(width, j, i - 1);
    if q < i - 1 {
      RowIndexesAt(width, j, i - 1, q, t);
    }
  }

  /** Row `j` of the squares fills the entries `j * (6 * width) ..` of the index buffer. */
  lemma {:induction false} GridIndexesRow(width: nat, rows: nat, j: nat, p: nat)
    requires j < rows && p < 6 * width
    ensures |GridIndexes(width, rows)| == rows * (6 * width)
    ensures j * (6 * width) + p < rows * (6 * width)
    ensures |RowIndexes(width, j, width)| == 6 * width
    ensures GridIndexes(width, rows)[j * (6 * width) + p] == RowIndexes(width, j, width)[p]
  {
    GridIndexesLength(width, rows);
    GridIndexesLength(width, rows - 1);
    RowIndexesLength(width, j, width);
    RowBefore(j, rows, 6 * width, p);
    if j < rows - 1 {
      RowBefore(j, rows - 1, 6 * width, p);
      GridIndexesRow(width, rows - 1, j, p);
    }
  }

  /** The entry of square `i` of row `j`, as the two ways of counting it. */
  lemma SquareEntry(width: nat, i: nat, j: nat, t: nat)
    ensures 6 * (j * width + i) + t == j * (6 * width) + (6 * i + t)
  {
  }

  /** `a * b == b * a`, for the counts of the index buffer. */
  lemma Commute(a: nat, b: nat)
    ensures a * b == b * a
  {
  }

  /**
   * Square `(i, j)` holds the entries `6 * (j * width + i) .. + 6` of the
   * index buffer: with `k = i + j * (width + 1)` and `W = width + 1`, they
   * are `k, k + 1, k + W, k + 1, k + W, k + W + 1`.
   */
  lemma GridIndexesAt(width: nat, rows: nat, i: nat, j: nat, t: nat)
    requires i < width && j < rows && t < 6
    ensures |GridIndexes(width, rows)| == 6 * width * rows
    ensures 6 * (j * width + i) + t < 6 * width * rows
    ensures GridIndexes(width, rows)[6 * (j * width + i) + t] == Square(width + 1, i + j * (width + 1))[t]
  {
    GridIndexesRow(width, rows, j, 6 * i + t);
    RowIndexesAt(width, j, width, i, t);
    SquareEntry(width, i, j, t);
    Commute(rows, 6 * width);
  }

  /** Every index of row `j` names a vertex of rows `0 .. j + 2`. */
  lemma {:induction false} RowIndexesBound(width: nat, j: nat, i: nat)
    requires i <= width
    ensures forall k :: k in RowIndexes(width, j, i) ==> k < (j + 2) * (width + 1)
  {
    if i > 0 {
      RowIndexesBound(width, j, i - 1);
      assert (j + 2) * (width + 1) == j * (width + 1) + 2 * (width + 1);
    }
  }

  /** Every index of rows `0 .. rows` names a vertex of rows `0 .. rows + 1`. */
  lemma {:induction false} GridIndexesBound(width: nat, rows: nat)
    ensures forall k :: k in GridIndexes(width, rows) ==> k < (rows + 1) * (width + 1)
  {
    if rows > 0 {
      GridIndexesBound(width, rows - 1);
      RowIndexesBound(width, rows - 1, width);
      assert rows * (width + 1) <= (rows + 1) * (width + 1);
    }
  }

  /**
   * What the function returns as vertices: `(height + 1) * (width + 1)`
   * grid points, none of them white.
   */
  lemma TessellateVertices(width: nat, height: nat)
    ensures |GridVertices(width, height + 1)| == (height + 1) * (width + 1)
    ensures forall v :: v in GridVertices(width, height + 1) ==> v.isWhite == 0 && v.x <= width && v.y <= height
  {
    GridVerticesLength(width, height + 1);
    forall v | v in GridVertices(width, height + 1)
      ensures v.isWhite == 0 && v.x <= width && v.y <= height
    {
      GridVerticesMembers(width, height + 1, v);
    }
  }

  /**
   * What the function returns as indices: `6 * width * height` of them,
   * each naming one of the `(height + 1) * (width + 1)` vertices.
   */
  lemma TessellateIndexes(width: nat, height: nat)
    ensures |GridIndexes(width, height)| == 6 * width * height
    ensures forall k :: k in GridIndexes(width, height) ==> k < (height + 1) * (width + 1)
  {
    GridIndexesLength(width, height);
    Commute(height, 6 * width);
    GridIndexesBound(width, height);
  }

  /** Every vertex of rows `0 .. rows` is a grid point of those rows, not white. */
  lemma {:induction false} GridVerticesMembers(width: nat, rows: nat, v: Vertex)
    requires v in GridVertices(width, rows)
    ensures v.isWhite == 0 && v.x <= width && v.y < rows
  {
    if v in GridVertices(width, rows - 1) {
      GridVerticesMembers(width, rows - 1, v);
    } else {
      RowVerticesMembers(rows - 1, width + 1, v);
    }
  }

  lemma {:induction false} RowVerticesMembers(y: nat, x: nat, v: Vertex)
    requires v in RowVertices(y, x)
    ensures v.isWhite == 0 && v.x < x && v.y == y
  {
    if v in RowVertices(y, x - 1) {
      RowVerticesMembers(y, x - 1, v);
    }
  }
}
