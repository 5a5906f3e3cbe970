/**
 * Mesh sizing and triangle-index generation of a terrain chunk
 * (GenerateTerrainMesh in Terrain.c).
 *
 * A chunk of `size` vertices per side is a grid of (size - 1)^2 quads; each
 * quad becomes two triangles whose corners are written, six entries per quad,
 * into an `unsigned short` index buffer through a running cursor.
 */
module TerrainMesh {

  /** Number of values an `unsigned short` index can hold. */
  const UShortRange: int := 65536

  /** C's conversion of an `int` to `unsigned short`: reduction modulo 2^16. */
  function ToUShort(v: int): (r: int)
    ensures 0 <= r < UShortRange
    ensures 0 <= v < UShortRange ==> r == v
  {
    v % UShortRange
  }

  /** The CPU side of a generated mesh: its announced sizes and its index buffer. */
  datatype Mesh = Mesh(vertexCount: int, triangleCount: int, indices: seq<int>)

  /** Quads per side that the index loop visits: `size - 1`, or none at all. */
  function Cells(size: nat): nat
  {
    if size >= 1 then size - 1 else 0
  }

  /**
   * The six entries of the quad whose first corner is vertex i0: with
   * i1 = i0 + 1, i2 = i0 + size and i3 = i2 + 1, the triangles (i0, i2, i1)
   * and (i1, i2, i3), each entry narrowed to `unsigned short`.
   */
  function QuadIndices(i0: int, size: nat): (r: seq<int>)
    ensures |r| == 6
  {
    var i1 := i0 + 1;
    var i2 := i0 + size;
    var i3 := i2 + 1;
    [ToUShort(i0), ToUShort(i2), ToUShort(i1), ToUShort(i1), ToUShort(i2), ToUShort(i3)]
  }

  /**
   * Entries written for quads x = 0 .. n-1 of the row whose first vertex is
   * `base`, in loop order.
   */
  function RowIndices(base: int, size: nat, n: nat): seq<int>
  {
    if n == 0 then [] else RowIndices(base, size, n - 1) + QuadIndices(base + (n - 1), size)
  }

  /** Entries written for the rows z = 0 .. n-1, in loop order. */
  function RowsIndices(size: nat, n: nat): seq<int>
  {
    if n == 0 then [] else RowsIndices(size, n - 1) + RowIndices((n - 1) * size, size, Cells(size))
  }

  /**
   * First vertex of quad q when the quads of a grid with `size` vertices per
   * side are numbered row by row: row q / (size - 1), column q % (size - 1).
   */
  function QuadBase(size: nat, q: nat): int
    requires Cells(size) > 0
  {
    (q / Cells(size)) * size + q % Cells(size)
  }

  /** Entry k of the buffer: entry k % 6 of quad k / 6. */
  function Entry(size: nat, k: nat): int
    requires k < 6 * (Cells(size) * Cells(size))
  {
    QuadIndices(QuadBase(size, k / 6), size)[k % 6]
  }

  /**
   * The whole index buffer in closed form: entry k is entry k % 6 of quad
   * k / 6. It holds six entries for each of the (size - 1)^2 quads.
   */
  function IndexBuffer(size: nat): seq<int>
  {
    seq(6 * (Cells(size) * Cells(size)), k requires 0 <= k < 6 * (Cells(size) * Cells(size)) => Entry(size, k))
  }

  /** Triangles announced for `size` vertices per side: two per quad. */
  function TriangleCount(size: nat): int
  {
    (size - 1) * (size - 1) * 2
  }

  /** The mesh GenerateTerrainMesh returns for `size` vertices per side. */
  function MeshOf(size: nat): Mesh
  {
    Mesh(size * size, TriangleCount(size), IndexBuffer(size))
  }

  /** Position of entry j of quad (x, z) in the index buffer. */
  function Slot(size: nat, x: nat, z: nat, j: nat): nat
  {
    6 * (z * Cells(size) + x) + j
  }

  // ---------------------------------------------------------------------------
  // Arithmetic helpers

  lemma MulMonotone(a: nat, b: nat, c: nat)
    requires a <= b
    ensures a * c <= b * c
  {
  }

  lemma MulSucc(a: nat, c: nat)
    ensures (a + 1) * c == a * c + c
  {
  }

  /** The index buffer holds three entries per announced triangle. */
  lemma BufferLength(size: nat)
    ensures size >= 1 ==> 3 * TriangleCount(size) == 6 * (Cells(size) * Cells(size))
    ensures size == 0 ==> 3 * TriangleCount(size) == 6
  {
  }

  /** Row z of the loop still fits in the buffer of 3 * triangleCount entries. */
  lemma RowsFit(size: nat, z: nat)
    requires z < Cells(size)
    ensures RowsIndices(size, z + 1) == RowsIndices(size, z) + RowIndices(z * size, size, size - 1)
    ensures |RowsIndices(size, z + 1)| == |RowsIndices(size, z)| + 6 * (size - 1)
    ensures |RowsIndices(size, z + 1)| <= 3 * TriangleCount(size)
  {
    var c := Cells(size);
    RowsIndicesLength(size, z);
    RowsIndicesLength(size, z + 1);
    MulSucc(z, c);
    MulMonotone(z + 1, c, c);
    BufferLength(size);
  }

  /** Once every row is written the buffer of 3 * triangleCount entries is full. */
  lemma RowsFill(size: nat)
    requires size >= 1
    ensures |RowsIndices(size, Cells(size))| == 3 * TriangleCount(size)
  {
    RowsIndicesLength(size, Cells(size));
    BufferLength(size);
  }

  /** Quad (x, z) of a c-by-c grid ends no later than the grid does. */
  lemma QuadFits(c: nat, x: nat, z: nat)
    requires x < c && z < c
    ensures z * c + x + 1 <= c * c
  {
    MulMonotone(z + 1, c, c);
    MulSucc(z, c);
  }

  /** The corners of every quad of row z lie inside the size-by-size grid. */
  lemma RowFits(size: nat, z: nat)
    requires z + 1 < size
    ensures z * size + (size - 1) + size < size * size
  {
    MulMonotone(z + 2, size, size);
    MulSucc(z, size);
    MulSucc(z + 1, size);
  }

  // ---------------------------------------------------------------------------
  // Properties of the index buffer

  lemma {:induction false} RowIndicesLength(base: int, size: nat, n: nat)
    ensures |RowIndices(base, size, n)| == 6 * n
  {
    if n > 0 {
      RowIndicesLength(base, size, n - 1);
    }
  }

  lemma {:induction false} RowsIndicesLength(size: nat, n: nat)
    ensures |RowsIndices(size, n)| == 6 * (n * Cells(size))
  {
    if n > 0 {
      RowsIndicesLength(size, n - 1);
      RowIndicesLength((n - 1) * size, size, Cells(size));
      MulSucc(n - 1, Cells(size));
    }
  }

  lemma {:induction false} RowIndicesAt(base: int, size: nat, n: nat, x: nat, j: nat)
    requires x < n && j < 6
    ensures 6 * x + j < |RowIndices(base, size, n)|
    ensures RowIndices(base, size, n)[6 * x + j] == QuadIndices(base + x, size)[j]
  {
    var prev := RowIndices(base, size, n - 1);
    var quad := QuadIndices(base + (n - 1), size);
    assert RowIndices(base, size, n) == prev + quad;
    RowIndicesLength(base, size, n - 1);
    if x < n - 1 {
      RowIndicesAt(base, size, n - 1, x, j);
      assert (prev + quad)[6 * x + j] == prev[6 * x + j];
    } else {
      assert (prev + quad)[6 * x + j] == quad[j];
    }
  }

  /** Rows written earlier stay in place: the output of fewer rows is a prefix. */
  lemma {:induction false} RowsIndicesPrefix(size: nat, z: nat, n: nat)
    requires z <= n
    ensures RowsIndices(size, z) <= RowsIndices(size, n)
  {
    if z < n {
      RowsIndicesPrefix(size, z, n - 1);
    }
  }

  lemma RowsIndicesAt(size: nat, n: nat, x: nat, z: nat, j: nat)
    requires x < Cells(size) && z < n && j < 6
    ensures Slot(size, x, z, j) < |RowsIndices(size, n)|
    ensures RowsIndices(size, n)[Slot(size, x, z, j)] == QuadIndices(z * size + x, size)[j]
  {
    var c := Cells(size);
    var prev := RowsIndices(size, z);
    var row := RowIndices(z * size, size, c);
    var k := Slot(size, x, z, j);
    assert k == |prev| + (6 * x + j) && 6 * x + j < |row| by {
      RowsIndicesLength(size, z);
      RowIndicesLength(z * size, size, c);
    }
    assert (prev + row)[k] == QuadIndices(z * size + x, size)[j] by {
      RowIndicesAt(z * size, size, c, x, j);
    }
    assert RowsIndices(size, z + 1) == prev + row;
    RowsIndicesPrefix(size, z + 1, n);
  }

  /** Quad q of a c-by-c grid sits in row q / c and column q % c, both below c. */
  lemma QuadOf(c: nat, q: nat)
    requires q < c * c
    ensures c > 0 && q / c < c && q % c < c
    ensures q == (q / c) * c + q % c
  {
    if q / c >= c {
      MulMonotone(c, q / c, c);
    }
  }

  /** Every position k of the buffer is the slot of entry k % 6 of quad k / 6. */
  lemma SlotOf(size: nat, k: nat) returns (x: nat, z: nat, j: nat)
    requires k < 6 * (Cells(size) * Cells(size))
    ensures x < Cells(size) && z < Cells(size) && j < 6
    ensures Slot(size, x, z, j) == k
    ensures IndexBuffer(size)[k] == QuadIndices(z * size + x, size)[j]
  {
    var c := Cells(size);
    var q := k / 6;
    assert k == 6 * q + k % 6;
    QuadOf(c, q);
    x, z, j := q % c, q / c, k % 6;
    assert IndexBuffer(size)[k] == Entry(size, k);
  }

  /** Entry k of the loop's output is entry k of the closed form. */
  lemma RowsIndicesEntry(size: nat, k: nat)
    requires k < 6 * (Cells(size) * Cells(size))
    ensures k < |RowsIndices(size, Cells(size))| && k < |IndexBuffer(size)|
    ensures RowsIndices(size, Cells(size))[k] == IndexBuffer(size)[k]
  {
    var x, z, j := SlotOf(size, k);
    RowsIndicesAt(size, Cells(size), x, z, j);
  }

  /** The loop writes exactly the closed-form buffer, entry for entry. */
  lemma RowsIndicesAreIndexBuffer(size: nat)
    ensures RowsIndices(size, Cells(size)) == IndexBuffer(size)
  {
    var c := Cells(size);
    RowsIndicesLength(size, c);
    forall k | 0 <= k < 6 * (c * c)
      ensures RowsIndices(size, c)[k] == IndexBuffer(size)[k]
    {
      RowsIndicesEntry(size, k);
    }
  }

  /**
   * For at least one vertex per side the loop fills the whole buffer of
   * 3 * triangleCount entries; for size 0 the sizes announce two triangles
   * while the loop writes nothing.
   */
  lemma IndexBufferLength(size: nat)
    ensures size >= 1 ==> |IndexBuffer(size)| == 3 * MeshOf(size).triangleCount
    ensures size == 0 ==> IndexBuffer(size) == [] && MeshOf(size).triangleCount == 2
  {
    BufferLength(size);
  }

  /**
   * Quad (x, z) writes i0, i2, i1, i1, i2, i3, with i0 = z * size + x, at
   * offset 6 * (z * (size - 1) + x) of the index buffer: the quads are laid
   * out row after row, x varying fastest.
   */
  lemma IndexBufferAt(size: nat, x: nat, z: nat, j: nat)
    requires x < Cells(size) && z < Cells(size) && j < 6
    ensures Slot(size, x, z, j) < |IndexBuffer(size)|
    ensures IndexBuffer(size)[Slot(size, x, z, j)] == QuadIndices(z * size + x, size)[j]
  {
    RowsIndicesAreIndexBuffer(size);
    RowsIndicesAt(size, Cells(size), x, z, j);
  }

  /** Distinct (quad, entry) pairs occupy distinct positions of the buffer. */
  lemma SlotInjective(size: nat, x: nat, z: nat, j: nat, x': nat, z': nat, j': nat)
    requires x < Cells(size) && z < Cells(size) && j < 6
    requires x' < Cells(size) && z' < Cells(size) && j' < 6
    requires Slot(size, x, z, j) == Slot(size, x', z', j')
    ensures x == x' && z == z' && j == j'
  {
    var c := Cells(size);
    assert j == j' && z * c + x == z' * c + x';
    if z < z' {
      MulMonotone(z + 1, z', c);
      MulSucc(z, c);
      assert false;
    } else if z' < z {
      MulMonotone(z' + 1, z, c);
      MulSucc(z', c);
      assert false;
    }
  }

  /** A quad whose corners lie in the grid keeps its indices through the narrowing. */
  lemma QuadIndicesInGrid(i0: int, size: nat)
    requires 0 <= i0 && i0 + size + 1 < size * size <= UShortRange
    ensures QuadIndices(i0, size) == [i0, i0 + size, i0 + 1, i0 + 1, i0 + size, i0 + size + 1]
    ensures forall j :: 0 <= j < 6 ==> 0 <= QuadIndices(i0, size)[j] < size * size
  {
  }

  /** Entry k of the buffer names a vertex of the grid. */
  lemma EntryInGrid(size: nat, k: nat)
    requires 1 <= size <= 256 && k < |IndexBuffer(size)|
    ensures 0 <= IndexBuffer(size)[k] < size * size
  {
    assert size * size <= UShortRange by {
      MulMonotone(size, 256, size);
      MulMonotone(size, 256, 256);
    }
    var x, z, j := SlotOf(size, k);
    var i0 := z * size + x;
    assert 0 <= i0 && i0 + size + 1 < size * size by {
      RowFits(size, z);
    }
    QuadIndicesInGrid(i0, size);
  }

  /**
   * With at most 256 vertices per side no index is narrowed by the
   * `unsigned short` buffer: every entry names a vertex of the grid.
   */
  lemma IndexBufferInGrid(size: nat)
    requires 1 <= size <= 256
    ensures forall k :: 0 <= k < |IndexBuffer(size)| ==> 0 <= IndexBuffer(size)[k] < size * size
  {
    forall k | 0 <= k < |IndexBuffer(size)|
      ensures 0 <= IndexBuffer(size)[k] < size * size
    {
      EntryInGrid(size, k);
    }
  }

  /**
   * With at most 256 vertices per side the narrowing changes nothing: quad
   * (x, z) stores its corners i0, i2, i1, i1, i2, i3 exactly as computed.
   */
  lemma IndexBufferUnnarrowed(size: nat, x: nat, z: nat, j: nat)
    requires 1 <= size <= 256 && x < Cells(size) && z < Cells(size) && j < 6
    ensures Slot(size, x, z, j) < |IndexBuffer(size)|
    ensures IndexBuffer(size)[Slot(size, x, z, j)]
         == (var i0 := z * size + x; [i0, i0 + size, i0 + 1, i0 + 1, i0 + size, i0 + size + 1][j])
  {
    var i0 := z * size + x;
    IndexBufferAt(size, x, z, j);
    QuadUnnarrowed(size, z, i0);
  }

  /** The corners of an in-grid quad of row z survive the narrowing. */
  lemma QuadUnnarrowed(size: nat, z: nat, i0: int)
    requires 1 <= size <= 256 && z < Cells(size)
    requires z * size <= i0 < z * size + Cells(size)
    ensures QuadIndices(i0, size) == [i0, i0 + size, i0 + 1, i0 + 1, i0 + size, i0 + size + 1]
  {
    assert size * size <= UShortRange by {
      MulMonotone(size, 256, size);
      MulMonotone(size, 256, 256);
    }
    assert 0 <= i0 && i0 + size + 1 < size * size by {
      RowFits(size, z);
    }
    QuadIndicesInGrid(i0, size);
  }

  /**
   * When the loop stops, the rows written fill the buffer and form the closed
   * form. The buffer's contents and length are parameters fixed by equalities
   * so that the caller's proof needs no search for them.
   */
  lemma FullBuffer(size: nat, z: nat, written: seq<int>, total: nat)
    requires size >= 1 && z == Cells(size) && written == RowsIndices(size, z)
    requires total == 3 * TriangleCount(size)
    ensures |written| == total
    ensures written == IndexBuffer(size)
  {
    RowsFill(size);
    RowsIndicesAreIndexBuffer(size);
  }

  // ---------------------------------------------------------------------------
  // The generator

  /**
   * One iteration of the index loop: writes the corners of quad (x, z) at the
   * cursor and returns the advanced cursor.
   */
  method WriteQuad(indices: array<int>, index: nat, size: nat, i0: int) returns (next: nat)
    requires index + 6 <= indices.Length
    modifies indices
    ensures next == index + 6
    ensures indices[..next] == old(indices[..index]) + QuadIndices(i0, size)
    ensures indices[next..] == old(indices[next..])
  {
    var i1 := i0 + 1;
    var i2 := i0 + size;
    var i3 := i2 + 1;
    next := index;

    // Triangle 1
    indices[next] := ToUShort(i0); next := next + 1;
    indices[next] := ToUShort(i2); next := next + 1;
    indices[next] := ToUShort(i1); next := next + 1;

    // Triangle 2
    indices[next] := ToUShort(i1); next := next + 1;
    indices[next] := ToUShort(i2); next := next + 1;
    indices[next] := ToUShort(i3); next := next + 1;

    assert indices[..index] == old(indices[..index]);
    assert indices[index..next] == QuadIndices(i0, size);
    assert indices[..next] == indices[..index] + indices[index..next];
  }

  /**
   * The inner loop of the index generation: writes the quads x = 0 .. size-2
   * of row z at the cursor and returns the advanced cursor.
   */
  method WriteRow(indices: array<int>, index: nat, size: nat, z: nat) returns (next: nat)
    requires z + 1 < size
    requires index + 6 * (size - 1) <= indices.Length
    modifies indices
    ensures next == index + 6 * (size - 1)
    ensures indices[..next] == old(indices[..index]) + RowIndices(z * size, size, size - 1)
    ensures indices[next..] == old(indices[next..])
  {
    ghost var written := indices[..index];
    next := index;
    var x := 0;
    while x < size - 1
      invariant 0 <= x <= size - 1
      invariant next == index + 6 * x
      invariant indices[..next] == written + RowIndices(z * size, size, x)
      invariant indices[next..] == old(indices[next..])
    {
      var i0 := z * size + x;
      next := WriteQuad(indices, next, size, i0);
      assert written + RowIndices(z * size, size, x + 1)
          == (written + RowIndices(z * size, size, x)) + QuadIndices(i0, size);
      x := x + 1;
    }
  }

  /**
   * The index loop of GenerateTerrainMesh: writes the quads of rows
   * z = 0 .. size-2, row after row, through the cursor `index`. For at least
   * one vertex per side it fills the whole buffer with the closed form.
   */
  method WriteIndices(indices: array<int>, size: nat)
    requires indices.Length == 3 * TriangleCount(size)
    modifies indices
    ensures size >= 1 ==> indices[..] == IndexBuffer(size)
  {
    var index := 0;
    var z := 0;
    while z < size - 1
      invariant 0 <= z <= Cells(size)
      invariant index == |RowsIndices(size, z)| <= indices.Length
      invariant indices[..index] == RowsIndices(size, z)
    {
      RowsFit(size, z);
      index := WriteRow(indices, index, size, z);
      z := z + 1;
    }
    if size >= 1 {
      FullBuffer(size, z, indices[..index], indices.Length);
      assert indices[..] == indices[..index];
    }
  }

  /**
   * Sizes the mesh buffers for `size` vertices per side and fills the index
   * buffer quad by quad. Heights, texture coordinates, colours and normals
   * are not part of this model.
   */
  method GenerateTerrainMesh(size: nat) returns (mesh: Mesh)
    ensures size >= 1 ==> mesh == MeshOf(size)
    ensures size == 0 ==> mesh.vertexCount == 0 && mesh.triangleCount == 2 && |mesh.indices| == 6
  {
    var vertexCount := size * size;
    var triangleCount := TriangleCount(size);
    var indices := new int[triangleCount * 3];
    WriteIndices(indices, size);
    mesh := Mesh(vertexCount, triangleCount, indices[..]);
  }
}
