/**
 * The terrain chunk cache of Terrain.c: a TerrainManager holds a fixed array
 * of MAX_CHUNKS chunk slots whose first `chunkCount` entries are live, in the
 * order they were inserted. UpdateTerrain loads every missing chunk of a
 * square window around the observer's chunk, evicting the oldest chunk when
 * the array is full; UnloadFarChunks drops the chunks beyond a distance.
 *
 * Chunks are identified by their integer grid coordinate (cx, cz); a chunk's
 * world origin is (cx * CellSize, 0, cz * CellSize).
 */
module Terrain {
  import TerrainMesh

  /** Vertices per side of a chunk (CHUNK_SIZE). */
  const ChunkSize: nat := 64
  /** World units between neighbouring vertices (TILE_SCALE). */
  const TileScale: nat := 3
  /** Capacity of the chunk array (MAX_CHUNKS). */
  const MaxChunks: nat := 100
  /** Side of one chunk's footprint in world units: (CHUNK_SIZE - 1) * TILE_SCALE. */
  const CellSize: nat := (ChunkSize - 1) * TileScale

  /** A chunk origin; every origin the cache creates has integral coordinates. */
  datatype Vector3 = Vector3(x: int, y: int, z: int)

  /** The observer's world position. */
  datatype Point = Point(x: real, y: real, z: real)

  /** A grid coordinate, the cache key. */
  datatype Key = Key(cx: int, cz: int)

  /** A loaded chunk: its world origin and the mesh generated for it. */
  datatype Chunk = Chunk(position: Vector3, mesh: TerrainMesh.Mesh)

  // ---------------------------------------------------------------------------
  // Keys and residency

  /** World origin UpdateTerrain gives the chunk at grid coordinate k. */
  function ChunkOrigin(k: Key): Vector3
  {
    Vector3(k.cx * CellSize, 0, k.cz * CellSize)
  }

  /** The test IsChunkLoaded applies to one slot: origin x and z match key k. */
  predicate IsAt(c: Chunk, k: Key)
  {
    c.position.x == k.cx * CellSize && c.position.z == k.cz * CellSize
  }

  /** Some chunk of s sits at grid coordinate k. */
  predicate Resident(s: seq<Chunk>, k: Key)
  {
    exists i :: 0 <= i < |s| && IsAt(s[i], k)
  }

  /** Two chunks occupy the same spot of the grid. */
  predicate SameSpot(a: Chunk, b: Chunk)
  {
    a.position.x == b.position.x && a.position.z == b.position.z
  }

  /** No two chunks of s occupy the same spot. */
  predicate Distinct(s: seq<Chunk>)
  {
    forall i, j :: 0 <= i < j < |s| ==> !SameSpot(s[i], s[j])
  }

  /** Every key of ks is resident in s. */
  predicate AllResident(s: seq<Chunk>, ks: seq<Key>)
  {
    forall i :: 0 <= i < |ks| ==> Resident(s, ks[i])
  }

  /** A grid coordinate names exactly one origin. */
  lemma OriginDeterminesKey(c: Chunk, k: Key, k': Key)
    requires IsAt(c, k) && IsAt(c, k')
    ensures k == k'
  {
  }

  // ---------------------------------------------------------------------------
  // Insertion: AddTerrainChunk and UpdateTerrain

  /** The chunk AddTerrainChunk builds at `offset`. */
  function NewChunk(offset: Vector3): Chunk
  {
    Chunk(offset, TerrainMesh.MeshOf(ChunkSize))
  }

  /** Live chunks after AddTerrainChunk: full means drop the oldest, then append. */
  function AddFifo(s: seq<Chunk>, c: Chunk): seq<Chunk>
  {
    if |s| >= MaxChunks then s[1..] + [c] else s + [c]
  }

  /**
   * The live chunks after AddTerrainChunk: those kept by the eviction, then
   * the chunk built from the generated mesh. The intermediate values are
   * parameters fixed by equalities so that the caller's proof needs no search.
   */
  lemma FifoAdded(s: seq<Chunk>, kept: seq<Chunk>, offset: Vector3, mesh: TerrainMesh.Mesh, after: seq<Chunk>)
    requires kept == if |s| >= MaxChunks then s[1..] else s
    requires mesh == TerrainMesh.MeshOf(ChunkSize)
    requires after == kept + [Chunk(offset, mesh)]
    ensures after == AddFifo(s, NewChunk(offset))
  {
  }

  /**
   * FIFO insert: the count never exceeds MaxChunks, the new chunk is last,
   * and the chunks before it are the old ones in their order, minus the
   * oldest exactly when the array was full.
   */
  lemma FifoLaws(s: seq<Chunk>, c: Chunk)
    requires |s| <= MaxChunks
    ensures |AddFifo(s, c)| == if |s| == MaxChunks then |s| else |s| + 1
    ensures |AddFifo(s, c)| <= MaxChunks
    ensures AddFifo(s, c)[|AddFifo(s, c)| - 1] == c
    ensures |s| < MaxChunks ==> AddFifo(s, c)[..|s|] == s
    ensures |s| == MaxChunks ==> AddFifo(s, c)[..|s| - 1] == s[1..]
  {
  }

  /**
   * Every index of a chunk's mesh names one of its CHUNK_SIZE^2 vertices, so
   * none is narrowed by the `unsigned short` buffer.
   */
  lemma ChunkMeshInGrid(offset: Vector3)
    ensures forall k :: 0 <= k < |NewChunk(offset).mesh.indices| ==>
              0 <= NewChunk(offset).mesh.indices[k] < ChunkSize * ChunkSize <= TerrainMesh.UShortRange
  {
    TerrainMesh.IndexBufferInGrid(ChunkSize);
  }

  /** One coordinate of the window: load it unless it is already resident. */
  function Step(s: seq<Chunk>, k: Key): seq<Chunk>
  {
    if Resident(s, k) then s else AddFifo(s, NewChunk(ChunkOrigin(k)))
  }

  /** Live chunks after visiting the coordinates ks in order. */
  function Fill(s: seq<Chunk>, ks: seq<Key>): seq<Chunk>
  {
    if |ks| == 0 then s else Step(Fill(s, ks[..|ks| - 1]), ks[|ks| - 1])
  }

  /** The coordinates (x0 + i, cz) for i = 0 .. n-1, left to right. */
  function Row(x0: int, cz: int, n: nat): seq<Key>
  {
    seq(n, i => Key(x0 + i, cz))
  }

  /** A row one coordinate longer ends in the next coordinate to the right. */
  lemma RowSnoc(x0: int, cz: int, n: nat, k: Key)
    requires k == Key(x0 + n, cz)
    ensures Row(x0, cz, n + 1) == Row(x0, cz, n) + [k]
  {
  }

  /**
   * Visiting one more coordinate is one more Step. `before` and `after` name
   * the caller's states, so that the loop proof needs no search for them.
   */
  lemma FillSnoc(s: seq<Chunk>, ks: seq<Key>, k: Key, before: seq<Chunk>, after: seq<Chunk>)
    requires before == Fill(s, ks) && after == Step(before, k)
    ensures after == Fill(s, ks + [k])
  {
    assert (ks + [k])[..|ks|] == ks;
  }

  /** Rows z0 .. z0 + n - 1 of width w starting at x0, row after row. */
  function Rows(x0: int, z0: int, w: nat, n: nat): seq<Key>
  {
    if n == 0 then [] else Rows(x0, z0, w, n - 1) + Row(x0, z0 + n - 1, w)
  }

  /**
   * The coordinates UpdateTerrain visits around chunk (pcx, pcz) with radius
   * r: z is the outer loop, x the inner one, both from -r to r.
   */
  function Window(pcx: int, pcz: int, r: int): seq<Key>
  {
    if r < 0 then [] else Rows(pcx - r, pcz - r, 2 * r + 1, 2 * r + 1)
  }

  /** Visiting a then b is visiting a + b. */
  lemma {:induction false} FillAppend(s: seq<Chunk>, a: seq<Key>, b: seq<Key>)
    ensures Fill(s, a + b) == Fill(Fill(s, a), b)
  {
    if |b| == 0 {
      assert a + b == a;
    } else {
      FillAppend(s, a, b[..|b| - 1]);
      assert (a + b)[..|a + b| - 1] == a + b[..|b| - 1];
    }
  }

  /** Appending a chunk at a free spot keeps the live chunks free of duplicates. */
  lemma FifoKeepsDistinct(s: seq<Chunk>, c: Chunk)
    requires Distinct(s)
    requires forall i :: 0 <= i < |s| ==> !SameSpot(s[i], c)
    ensures Distinct(AddFifo(s, c))
  {
  }

  /** The check before the insert keeps the live chunks free of duplicates. */
  lemma StepKeepsDistinct(s: seq<Chunk>, k: Key)
    requires Distinct(s)
    ensures Distinct(Step(s, k))
  {
    if !Resident(s, k) {
      forall i | 0 <= i < |s|
        ensures !SameSpot(s[i], NewChunk(ChunkOrigin(k)))
      {
        assert !IsAt(s[i], k);
      }
      FifoKeepsDistinct(s, NewChunk(ChunkOrigin(k)));
    }
  }

  /** Resident keys stay pairwise distinct through any visiting order. */
  lemma {:induction false} FillKeepsDistinct(s: seq<Chunk>, ks: seq<Key>)
    requires Distinct(s)
    ensures Distinct(Fill(s, ks))
  {
    if |ks| > 0 {
      FillKeepsDistinct(s, ks[..|ks| - 1]);
      StepKeepsDistinct(Fill(s, ks[..|ks| - 1]), ks[|ks| - 1]);
    }
  }

  /** Loading never exceeds the capacity, and grows by at most one per coordinate. */
  lemma {:induction false} FillBounded(s: seq<Chunk>, ks: seq<Key>)
    requires |s| <= MaxChunks
    ensures |Fill(s, ks)| <= MaxChunks
    ensures |Fill(s, ks)| <= |s| + |ks|
  {
    if |ks| > 0 {
      FillBounded(s, ks[..|ks| - 1]);
    }
  }

  /** The coordinate just visited is resident afterwards. */
  lemma StepLoads(s: seq<Chunk>, k: Key)
    ensures Resident(Step(s, k), k)
  {
    if !Resident(s, k) {
      var t := Step(s, k);
      assert IsAt(t[|t| - 1], k);
    }
  }

  /** Without an eviction a step keeps every resident chunk resident. */
  lemma StepKeeps(s: seq<Chunk>, k: Key, k': Key)
    requires |s| < MaxChunks && Resident(s, k')
    ensures Resident(Step(s, k), k')
  {
    var i :| 0 <= i < |s| && IsAt(s[i], k');
    assert Step(s, k)[i] == s[i];
  }

  /**
   * When the window fits in the free slots nothing is evicted, so after the
   * visit every coordinate of the window is loaded.
   */
  lemma {:induction false} FillLoadsAll(s: seq<Chunk>, ks: seq<Key>)
    requires |s| + |ks| <= MaxChunks
    ensures AllResident(Fill(s, ks), ks)
  {
    if |ks| > 0 {
      var ks' := ks[..|ks| - 1];
      var k := ks[|ks| - 1];
      var f := Fill(s, ks');
      FillLoadsAll(s, ks');
      FillBounded(s, ks');
      StepLoads(f, k);
      forall i | 0 <= i < |ks|
        ensures Resident(Fill(s, ks), ks[i])
      {
        if i < |ks| - 1 {
          assert ks[i] == ks'[i];
          StepKeeps(f, k, ks[i]);
        }
      }
    }
  }

  /** Visiting coordinates that are all resident changes nothing. */
  lemma {:induction false} FillResident(s: seq<Chunk>, ks: seq<Key>)
    requires AllResident(s, ks)
    ensures Fill(s, ks) == s
  {
    if |ks| > 0 {
      var ks' := ks[..|ks| - 1];
      assert AllResident(s, ks') by {
        forall i | 0 <= i < |ks'| ensures Resident(s, ks'[i]) {
          assert ks'[i] == ks[i];
        }
      }
      FillResident(s, ks');
    }
  }

  /**
   * A second visit of the same window right after the first loads nothing,
   * as long as the first visit evicted nothing.
   */
  lemma FillIdempotent(s: seq<Chunk>, ks: seq<Key>)
    requires |s| + |ks| <= MaxChunks
    ensures Fill(Fill(s, ks), ks) == Fill(s, ks)
  {
    FillLoadsAll(s, ks);
    FillResident(Fill(s, ks), ks);
  }

  lemma {:induction false} RowsLength(x0: int, z0: int, w: nat, n: nat)
    ensures |Rows(x0, z0, w, n)| == n * w
  {
    if n > 0 {
      RowsLength(x0, z0, w, n - 1);
      TerrainMesh.MulSucc(n - 1, w);
    }
  }

  lemma {:induction false} RowsMember(x0: int, z0: int, w: nat, n: nat, k: Key)
    ensures k in Rows(x0, z0, w, n) <==> x0 <= k.cx < x0 + w && z0 <= k.cz < z0 + n
  {
    if n > 0 {
      RowsMember(x0, z0, w, n - 1, k);
      if x0 <= k.cx < x0 + w && k.cz == z0 + n - 1 {
        assert Row(x0, z0 + n - 1, w)[k.cx - x0] == k;
      }
    }
  }

  lemma {:induction false} RowsAt(x0: int, z0: int, w: nat, n: nat, i: nat, j: nat)
    requires i < w && j < n
    ensures j * w + i < |Rows(x0, z0, w, n)|
    ensures Rows(x0, z0, w, n)[j * w + i] == Key(x0 + i, z0 + j)
  {
    RowsLength(x0, z0, w, n - 1);
    TerrainMesh.MulSucc(n - 1, w);
    if j < n - 1 {
      TerrainMesh.MulSucc(j, w);
      TerrainMesh.MulMonotone(j + 1, n - 1, w);
      RowsAt(x0, z0, w, n - 1, i, j);
    }
  }

  /** The window holds (2r + 1)^2 coordinates. */
  lemma WindowLength(pcx: int, pcz: int, r: int)
    requires r >= 0
    ensures |Window(pcx, pcz, r)| == (2 * r + 1) * (2 * r + 1)
  {
    RowsLength(pcx - r, pcz - r, 2 * r + 1, 2 * r + 1);
  }

  /** A coordinate is visited iff it lies in [pcx - r, pcx + r] x [pcz - r, pcz + r]. */
  lemma WindowMember(pcx: int, pcz: int, r: int, k: Key)
    ensures k in Window(pcx, pcz, r) <==>
              pcx - r <= k.cx <= pcx + r && pcz - r <= k.cz <= pcz + r
  {
    if r >= 0 {
      RowsMember(pcx - r, pcz - r, 2 * r + 1, 2 * r + 1, k);
    }
  }

  /**
   * Visiting order: coordinate (pcx - r + i, pcz - r + j) is the
   * (j * (2r + 1) + i)-th visited, so rows of equal z come one after another.
   */
  lemma WindowAt(pcx: int, pcz: int, r: int, i: nat, j: nat)
    requires r >= 0 && i < 2 * r + 1 && j < 2 * r + 1
    ensures j * (2 * r + 1) + i < |Window(pcx, pcz, r)|
    ensures Window(pcx, pcz, r)[j * (2 * r + 1) + i] == Key(pcx - r + i, pcz - r + j)
  {
    RowsAt(pcx - r, pcz - r, 2 * r + 1, 2 * r + 1, i, j);
  }

  // ---------------------------------------------------------------------------
  // Removal: UnloadFarChunks

  /**
   * UnloadFarChunks drops chunk c when the distance from its centre
   * (origin + (chunkSize / 2, 0, chunkSize / 2)) to the observer exceeds
   * maxRange * chunkSize. Distances are compared squared; a negative bound is
   * exceeded by every distance.
   */
  predicate Far(c: Chunk, observer: Point, chunkSize: real, maxRange: int)
  {
    var maxDistance := maxRange as real * chunkSize;
    var dx := c.position.x as real + chunkSize / 2.0 - observer.x;
    var dy := c.position.y as real - observer.y;
    var dz := c.position.z as real + chunkSize / 2.0 - observer.z;
    maxDistance < 0.0 || dx * dx + dy * dy + dz * dz > maxDistance * maxDistance
  }

  /** The chunks of s that are not far, in their original order. */
  function Near(s: seq<Chunk>, observer: Point, chunkSize: real, maxRange: int): seq<Chunk>
  {
    if |s| == 0 then []
    else
      var rest := Near(s[..|s| - 1], observer, chunkSize, maxRange);
      if Far(s[|s| - 1], observer, chunkSize, maxRange) then rest else rest + [s[|s| - 1]]
  }

  /** One more chunk examined: it is kept iff it is not far. */
  lemma NearStep(s: seq<Chunk>, p: nat, observer: Point, chunkSize: real, maxRange: int)
    requires p < |s|
    ensures Near(s[..p + 1], observer, chunkSize, maxRange) ==
              if Far(s[p], observer, chunkSize, maxRange) then Near(s[..p], observer, chunkSize, maxRange)
              else Near(s[..p], observer, chunkSize, maxRange) + [s[p]]
  {
    assert s[..p + 1][..p] == s[..p];
  }

  /** The element after a prefix a of a + t, and what lies on either side of it. */
  lemma SplitAt(a: seq<Chunk>, t: seq<Chunk>)
    requires |t| > 0
    ensures (a + t)[|a|] == t[0]
    ensures (a + t)[..|a|] == a && (a + t)[|a| + 1..] == t[1..]
    ensures a + t == (a + [t[0]]) + t[1..]
  {
    assert (a + t)[..|a|] == a;
    assert (a + t)[|a| + 1..] == t[1..];
    assert a + t == (a + [t[0]]) + t[1..];
  }

  /** A chunk survives iff it was live and is not far. */
  lemma {:induction false} NearMember(s: seq<Chunk>, observer: Point, chunkSize: real, maxRange: int, c: Chunk)
    ensures c in Near(s, observer, chunkSize, maxRange) <==>
              c in s && !Far(c, observer, chunkSize, maxRange)
  {
    if |s| > 0 {
      var init := s[..|s| - 1];
      NearMember(init, observer, chunkSize, maxRange, c);
      assert s == init + [s[|s| - 1]];
    }
  }

  /** Removal keeps the survivors' relative order: it distributes over concatenation. */
  lemma {:induction false} NearAppend(s: seq<Chunk>, t: seq<Chunk>, observer: Point, chunkSize: real, maxRange: int)
    ensures Near(s + t, observer, chunkSize, maxRange) ==
              Near(s, observer, chunkSize, maxRange) + Near(t, observer, chunkSize, maxRange)
  {
    if |t| == 0 {
      assert s + t == s;
    } else {
      var t' := t[..|t| - 1];
      NearAppend(s, t', observer, chunkSize, maxRange);
      assert (s + t)[..|s + t| - 1] == s + t';
    }
  }

  /** Removal never adds chunks. */
  lemma {:induction false} NearShorter(s: seq<Chunk>, observer: Point, chunkSize: real, maxRange: int)
    ensures |Near(s, observer, chunkSize, maxRange)| <= |s|
  {
    if |s| > 0 {
      NearShorter(s[..|s| - 1], observer, chunkSize, maxRange);
    }
  }

  /** Removal keeps the live chunks free of duplicates. */
  lemma {:induction false} NearKeepsDistinct(s: seq<Chunk>, observer: Point, chunkSize: real, maxRange: int)
    requires Distinct(s)
    ensures Distinct(Near(s, observer, chunkSize, maxRange))
  {
    if |s| > 0 {
      var init := s[..|s| - 1];
      var last := s[|s| - 1];
      var rest := Near(init, observer, chunkSize, maxRange);
      NearKeepsDistinct(init, observer, chunkSize, maxRange);
      if !Far(last, observer, chunkSize, maxRange) {
        forall i | 0 <= i < |rest|
          ensures !SameSpot(rest[i], last)
        {
          NearMember(init, observer, chunkSize, maxRange, rest[i]);
          var j :| 0 <= j < |init| && init[j] == rest[i];
          assert s[j] == rest[i];
        }
      }
    }
  }

  // ---------------------------------------------------------------------------
  // The chunk manager

  class TerrainManager {
    /** The MAX_CHUNKS chunk slots. */
    const chunks: array<Chunk>
    /** Number of live slots, a prefix of `chunks`. */
    var chunkCount: int

    ghost predicate Valid()
      reads this
    {
      chunks.Length == MaxChunks && 0 <= chunkCount <= MaxChunks
    }

    /** The live chunks, oldest first. */
    ghost function Loaded(): seq<Chunk>
      reads this, chunks
      requires Valid()
    {
      chunks[..chunkCount]
    }

    /** InitTerrain: no chunk is loaded. */
    constructor ()
      ensures Valid() && fresh(chunks)
      ensures Loaded() == []
    {
      chunks := new Chunk[MaxChunks];
      chunkCount := 0;
    }

    /** Linear scan for a live chunk whose origin is that of (chunkX, chunkZ). */
    method IsChunkLoaded(chunkX: int, chunkZ: int) returns (loaded: bool)
      requires Valid()
      ensures loaded <==> Resident(Loaded(), Key(chunkX, chunkZ))
    {
      var posX := chunkX * CellSize;
      var posZ := chunkZ * CellSize;
      for i := 0 to chunkCount
        invariant forall j :: 0 <= j < i ==> !IsAt(chunks[j], Key(chunkX, chunkZ))
      {
        if chunks[i].position.x == posX && chunks[i].position.z == posZ {
          assert IsAt(Loaded()[i], Key(chunkX, chunkZ));
          return true;
        }
      }
      return false;
    }

    /**
     * FIFO insert: when every slot is taken, the chunk in slot 0 is dropped
     * and the others move down one slot; the new chunk goes to the end.
     */
    method AddTerrainChunk(offset: Vector3)
      requires Valid()
      modifies this, chunks
      ensures Valid()
      ensures Loaded() == AddFifo(old(Loaded()), NewChunk(offset))
    {
      ghost var s0 := Loaded();
      if chunkCount >= MaxChunks {
        EvictOldest();
      }
      ghost var kept := Loaded();
      var mesh := TerrainMesh.GenerateTerrainMesh(ChunkSize);
      chunks[chunkCount] := Chunk(offset, mesh);
      chunkCount := chunkCount + 1;
      assert Loaded() == kept + [Chunk(offset, mesh)];
      FifoAdded(s0, kept, offset, mesh, Loaded());
    }

    /**
     * The eviction of AddTerrainChunk: every chunk moves down one slot,
     * overwriting the oldest, and the live count drops by one.
     */
    method EvictOldest()
      requires Valid() && chunkCount > 0
      modifies this, chunks
      ensures Valid()
      ensures Loaded() == old(Loaded())[1..]
    {
      ghost var s0 := Loaded();
      for i := 1 to chunkCount
        invariant Valid() && chunkCount == |s0|
        invariant forall j :: 0 <= j < i - 1 ==> chunks[j] == s0[j + 1]
        invariant forall j :: i <= j < chunkCount ==> chunks[j] == s0[j]
      {
        chunks[i - 1] := chunks[i];
      }
      chunkCount := chunkCount - 1;
      assert Loaded() == s0[1..];
    }

    /**
     * One coordinate of UpdateTerrain's window: the chunk at
     * (chunkX, chunkZ) is added unless it is already loaded.
     */
    method LoadChunk(chunkX: int, chunkZ: int)
      requires Valid()
      modifies this, chunks
      ensures Valid()
      ensures Loaded() == Step(old(Loaded()), Key(chunkX, chunkZ))
    {
      var loaded := IsChunkLoaded(chunkX, chunkZ);
      if !loaded {
        AddTerrainChunk(ChunkOrigin(Key(chunkX, chunkZ)));
      }
    }

    /**
     * The inner loop of UpdateTerrain: loads the missing chunks of row
     * planeChunkZ + z, x running from -range to range.
     */
    method LoadRow(planeChunkX: int, planeChunkZ: int, range: int, z: int)
      requires Valid() && range >= 0
      modifies this, chunks
      ensures Valid()
      ensures Loaded() == Fill(old(Loaded()), Row(planeChunkX - range, planeChunkZ + z, 2 * range + 1))
    {
      ghost var s0 := Loaded();
      ghost var visited: seq<Key> := [];
      var x := -range;
      while x <= range
        invariant Valid()
        invariant -range <= x <= range + 1
        invariant visited == Row(planeChunkX - range, planeChunkZ + z, x + range)
        invariant Loaded() == Fill(s0, visited)
      {
        ghost var before := Loaded();
        ghost var key := Key(planeChunkX + x, planeChunkZ + z);
        LoadChunk(planeChunkX + x, planeChunkZ + z);
        FillSnoc(s0, visited, key, before, Loaded());
        RowSnoc(planeChunkX - range, planeChunkZ + z, x + range, key);
        visited := visited + [key];
        x := x + 1;
      }
    }

    /**
     * Loads every missing chunk of the window of radius `range` around chunk
     * (planeChunkX, planeChunkZ), z outer and x inner.
     */
    method UpdateTerrain(planeChunkX: int, planeChunkZ: int, range: int)
      requires Valid()
      modifies this, chunks
      ensures Valid()
      ensures Loaded() == Fill(old(Loaded()), Window(planeChunkX, planeChunkZ, range))
      ensures Distinct(old(Loaded())) ==> Distinct(Loaded())
    {
      ghost var s0 := Loaded();
      ghost var w: nat := if range >= 0 then 2 * range + 1 else 0;
      var z := -range;
      while z <= range
        invariant Valid()
        invariant range >= 0 ==> -range <= z <= range + 1
        invariant range < 0 ==> z == -range
        invariant Loaded() == Fill(s0, Rows(planeChunkX - range, planeChunkZ - range, w, z + range))
      {
        ghost var done := Rows(planeChunkX - range, planeChunkZ - range, w, z + range);
        ghost var row := Row(planeChunkX - range, planeChunkZ + z, w);
        LoadRow(planeChunkX, planeChunkZ, range, z);
        FillAppend(s0, done, row);
        assert Rows(planeChunkX - range, planeChunkZ - range, w, z + 1 + range) == done + row;
        z := z + 1;
      }
      assert Window(planeChunkX, planeChunkZ, range) == Rows(planeChunkX - range, planeChunkZ - range, w, z + range) by {
        if range >= 0 {
          assert z == range + 1;
        } else {
          assert z + range == 0;
        }
      }
      if Distinct(s0) {
        FillKeepsDistinct(s0, Window(planeChunkX, planeChunkZ, range));
      }
    }

    /**
     * The shift of UnloadFarChunks: slot i is overwritten by the chunks after
     * it, each moved down one slot, and the live count drops by one.
     */
    method RemoveAt(i: int)
      requires Valid() && 0 <= i < chunkCount
      modifies this, chunks
      ensures Valid()
      ensures Loaded() == old(Loaded()[..i] + Loaded()[i + 1..])
    {
      ghost var before := Loaded();
      for j := i to chunkCount - 1
        invariant Valid() && chunkCount == |before|
        invariant forall k :: 0 <= k < i ==> chunks[k] == before[k]
        invariant forall k :: i <= k < j ==> chunks[k] == before[k + 1]
        invariant forall k :: j <= k < chunkCount ==> chunks[k] == before[k]
      {
        chunks[j] := chunks[j + 1];
      }
      chunkCount := chunkCount - 1;
      assert Loaded() == before[..i] + before[i + 1..];
    }

    /**
     * One pass of the loop of UnloadFarChunks: the chunk in slot i, the
     * p-th of the original live chunks, is removed when far, and the index of
     * the next slot to examine is returned.
     */
    method Examine(i: int, planePosition: Point, chunkSize: real, maxRange: int, ghost s0: seq<Chunk>, ghost p: nat)
      returns (next: int)
      requires Valid() && p < |s0|
      requires i == |Near(s0[..p], planePosition, chunkSize, maxRange)|
      requires Loaded() == Near(s0[..p], planePosition, chunkSize, maxRange) + s0[p..]
      modifies this, chunks
      ensures Valid()
      ensures next == |Near(s0[..p + 1], planePosition, chunkSize, maxRange)|
      ensures Loaded() == Near(s0[..p + 1], planePosition, chunkSize, maxRange) + s0[p + 1..]
    {
      ghost var kept := Near(s0[..p], planePosition, chunkSize, maxRange);
      NearStep(s0, p, planePosition, chunkSize, maxRange);
      SplitAt(kept, s0[p..]);
      assert s0[p..][1..] == s0[p + 1..];
      next := i;
      if Far(chunks[i], planePosition, chunkSize, maxRange) {
        RemoveAt(i);
        next := next - 1;
      }
      next := next + 1;
    }

    /**
     * In-place filter: every chunk whose centre lies farther than
     * maxRange * chunkSize from the observer is removed and the chunks after
     * it move down one slot; the slot is then examined again.
     */
    method UnloadFarChunks(planePosition: Point, chunkSize: real, maxRange: int)
      requires Valid()
      modifies this, chunks
      ensures Valid()
      ensures Loaded() == Near(old(Loaded()), planePosition, chunkSize, maxRange)
    {
      ghost var s0 := Loaded();
      ghost var p := 0;
      var i := 0;
      while i < chunkCount
        invariant Valid()
        invariant 0 <= p <= |s0|
        invariant i == |Near(s0[..p], planePosition, chunkSize, maxRange)|
        invariant Loaded() == Near(s0[..p], planePosition, chunkSize, maxRange) + s0[p..]
        decreases |s0| - p
      {
        i := Examine(i, planePosition, chunkSize, maxRange, s0, p);
        p := p + 1;
      }
      assert s0[..p] == s0;
    }

    /** Releases every live chunk, oldest first, and empties the cache. */
    method UnloadTerrain() returns (unloaded: seq<Chunk>)
      requires Valid()
      modifies this
      ensures Valid()
      ensures unloaded == old(Loaded())
      ensures Loaded() == []
    {
      unloaded := [];
      for i := 0 to chunkCount
        invariant unloaded == chunks[..i]
      {
        unloaded := unloaded + [chunks[i]];
      }
      chunkCount := 0;
    }
  }
}
