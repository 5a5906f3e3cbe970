# Terrain chunk cache, mesh indices and model array of raylib-game

This project is a Dafny model of the sequential core of the raylib-game
flight demo:

- **`TerrainMesh`** (`terrain_mesh.dfy`) models the integer part of
  `GenerateTerrainMesh` in `Terrain.c`. It covers the announced vertex and
  triangle counts, and the index loop that writes six `unsigned short`
  entries per grid quad through the running cursor `index`. The loop
  becomes imperative Dafny over an `array<int>`: `WriteIndices` for the
  z loop, `WriteRow` for the x loop and `WriteQuad` for one quad. It is
  proved equal to a closed-form buffer `IndexBuffer`, whose layout, length
  and in-grid property are proved as lemmas.
- **`Terrain`** (`terrain.dfy`) models the chunk cache. `TerrainManager` is a
  class holding the fixed `chunks` array of `MAX_CHUNKS` slots and the live
  count `chunkCount`. Its methods are the scan `IsChunkLoaded`, the FIFO
  insert `AddTerrainChunk` (evicting slot 0 when full), the window walk
  `UpdateTerrain`, the in-place filter `UnloadFarChunks` and
  `UnloadTerrain`. Each method is proved against a function on the
  sequence of live chunks:
  - `AddFifo` for one insert;
  - `Step`/`Fill` for visiting coordinates;
  - `Window` for the coordinates `UpdateTerrain` visits;
  - `Near` for the chunks `UnloadFarChunks` keeps.

  Lemmas state what those functions promise: capacity bound, FIFO order,
  keys kept distinct, exact window contents and order, and order-preserving
  removal.

  `UnloadFarChunks` is `static` in Terrain.c and nothing in the program calls
  it, so its properties hold for code the game never runs.
- **`ModelArrays`** (`model_array.dfy`) models `ModelArray.c`, a growable
  array whose capacity doubles when full. `ModelArray` is a class with
  `size`, `capacity` and the element buffer `models`. malloc and realloc
  outcomes are boolean inputs. A realloc copies into a fresh array.

Chunks are keyed by integer grid coordinates `(cx, cz)`. A chunk's origin is
`(cx * 189, 0, cz * 189)`, where `189 = (CHUNK_SIZE - 1) * TILE_SCALE`. The
float comparisons of `IsChunkLoaded` are modelled as integer equality. This
matches the single-precision products of the source only while those
products are exact (see "## Left out").

The sequential loops of the source are kept as loops. A few inner loops, or
groups of statements, are separate methods:

- `WriteQuad`, `WriteRow` and `WriteIndices` in the mesh generator;
- `EvictOldest` (the shift of `AddTerrainChunk`);
- `LoadChunk` and `LoadRow` (one coordinate, and the x loop, of `UpdateTerrain`);
- `RemoveAt` and `Examine` (the shift, and one pass, of `UnloadFarChunks`).

Where the code and the specification text differ, the model follows the
code. Two cases matter:

- The normals loop (Terrain.c:277-287) only normalises a zero-filled buffer,
  because no face normals are ever accumulated (Terrain.c:272). Normals are
  not modelled.
- For `size == 0`, `GenerateTerrainMesh` announces two triangles and a
  six-entry buffer that the loop never writes. `GenerateTerrainMesh`'s
  contract says exactly that.

## Model

| member | source | states |
|---|---|---|
| TerrainMesh.ToUShort | Terrain.c:187 | storing an `int` into the `unsigned short` buffer reduces it modulo 2^16; values already in range are unchanged |
| TerrainMesh.BufferLength | Terrain.c:176-187 | the buffer of `triangleCount * 3` entries has six entries per quad, i.e. 6(size-1)^2, and 6 when size is 0 |
| TerrainMesh.RowsFit | Terrain.c:255-257 | writing row z appends exactly its 6(size-1) entries and still fits in the buffer of 3 * triangleCount entries |
| TerrainMesh.RowsFill | Terrain.c:254-274 | after all size-1 rows the cursor has reached 3 * triangleCount, filling the buffer |
| TerrainMesh.RowFits | Terrain.c:257-261 | every corner i0, i1, i2, i3 of a quad of row z < size-1 is below size^2 |
| TerrainMesh.RowIndicesLength | Terrain.c:256-270 | a row of n quads writes 6n entries |
| TerrainMesh.RowsIndicesLength | Terrain.c:255-273 | n rows write 6n(size-1) entries |
| TerrainMesh.RowIndicesAt | Terrain.c:256-270 | quad x of a row occupies entries 6x .. 6x+5 of that row's output, in the order i0, i2, i1, i1, i2, i3 |
| TerrainMesh.RowsIndicesPrefix | Terrain.c:254-274 | rows once written are never overwritten: the output of fewer rows is a prefix |
| TerrainMesh.RowsIndicesAt | Terrain.c:254-274 | entry j of quad (x, z) is written at offset 6(z(size-1)+x)+j |
| TerrainMesh.SlotOf | Terrain.c:254-274 | every position of the buffer is the slot of some in-grid (quad, corner) pair and holds that pair's entry (uniqueness is SlotInjective) |
| TerrainMesh.RowsIndicesEntry | Terrain.c:254-274 | the loop's output and the closed-form buffer agree at every position |
| TerrainMesh.RowsIndicesAreIndexBuffer | Terrain.c:254-274 | the loop's output is the closed-form buffer |
| TerrainMesh.IndexBufferLength | Terrain.c:180-187 | the closed-form buffer has 3 * triangleCount entries for size >= 1; for size 0 the sizes announce two triangles while nothing is written |
| TerrainMesh.IndexBufferAt | Terrain.c:257-269 | quad (x, z) writes i0, i2, i1, i1, i2, i3 with i0 = z*size+x, i1 = i0+1, i2 = i0+size, i3 = i2+1, at offset 6(z(size-1)+x) |
| TerrainMesh.SlotInjective | Terrain.c:254-274 | distinct (quad, corner) pairs are written to distinct positions, so no entry is overwritten |
| TerrainMesh.QuadIndicesInGrid | Terrain.c:257-269 | a quad whose corners lie in the grid stores i0, i2, i1, i1, i2, i3 unchanged by the narrowing, each below size^2 |
| TerrainMesh.EntryInGrid | Terrain.c:254-274 | for 1 <= size <= 256 each entry names a vertex below size^2 |
| TerrainMesh.IndexBufferInGrid | Terrain.c:254-274 | for 1 <= size <= 256 every stored entry names a vertex of the grid, below size^2 <= 65536 |
| TerrainMesh.IndexBufferUnnarrowed | Terrain.c:257-269 | for 1 <= size <= 256 nothing is truncated: quad (x, z) stores exactly i0, i2, i1, i1, i2, i3 as computed |
| TerrainMesh.FullBuffer | Terrain.c:254-274 | when the z loop stops, the written prefix has length 3 * triangleCount and is the closed-form buffer |
| TerrainMesh.WriteQuad | Terrain.c:257-269 | one quad writes its six entries at the cursor and advances it by 6, leaving earlier entries alone |
| TerrainMesh.WriteRow | Terrain.c:256-271 | the x loop appends the row's 6(size-1) entries after the earlier ones |
| TerrainMesh.WriteIndices | Terrain.c:254-274 | the z loop fills the whole buffer with the closed-form indices when size >= 1 |
| TerrainMesh.GenerateTerrainMesh | Terrain.c:175-187 | vertexCount = size^2, triangleCount = 2(size-1)^2, indices = the closed form, for size >= 1; for size 0, counts 0 and 2 over a 6-entry buffer |
| Terrain.OriginDeterminesKey | Terrain.c:141-152 | a chunk origin matches at most one grid coordinate, so the origin test identifies keys |
| Terrain.FifoLaws | Terrain.c:154-173 | an insert keeps the count at MAX_CHUNKS when full and adds one otherwise, so it never exceeds MAX_CHUNKS; the new chunk is last; the old chunks keep their order, minus slot 0 exactly when the array was full |
| Terrain.ChunkMeshInGrid | Terrain.c:165-169 | every index of a stored chunk's mesh names one of its 64^2 vertices and fits an `unsigned short` |
| Terrain.FifoKeepsDistinct | Terrain.c:154-173 | appending a chunk whose spot is free keeps the live chunks pairwise distinct |
| Terrain.StepKeepsDistinct | Terrain.c:53-60 | the check before each insert keeps resident keys pairwise distinct |
| Terrain.FillAppend | Terrain.c:48-62 | visiting a then b has the same effect as visiting a + b |
| Terrain.FillKeepsDistinct | Terrain.c:48-62 | any visit keeps distinct resident keys distinct |
| Terrain.FillBounded | Terrain.c:48-62 | a visit never exceeds MAX_CHUNKS and adds at most one chunk per coordinate |
| Terrain.StepLoads | Terrain.c:53-60 | after a coordinate is visited its chunk is resident |
| Terrain.StepKeeps | Terrain.c:53-60 | without eviction, a visit keeps every resident chunk resident |
| Terrain.FillLoadsAll | Terrain.c:48-62 | when the window fits in the free slots, every visited coordinate is resident afterwards |
| Terrain.FillResident | Terrain.c:53-60 | visiting coordinates that are all resident changes nothing |
| Terrain.FillIdempotent | Terrain.c:48-62 | a second update with the same window right after the first, without eviction, loads nothing |
| Terrain.RowsLength | Terrain.c:48-49 | n rows of width w hold n*w coordinates |
| Terrain.RowsMember | Terrain.c:48-52 | a coordinate is visited by n rows iff it lies in their rectangle |
| Terrain.RowsAt | Terrain.c:48-52 | coordinate (x0+i, z0+j) is visited j*w+i-th: z outer, x inner |
| Terrain.WindowLength | Terrain.c:48-49 | the window holds (2r+1)^2 coordinates |
| Terrain.WindowMember | Terrain.c:48-52 | a coordinate is visited iff it lies in [pcx-r, pcx+r] x [pcz-r, pcz+r] |
| Terrain.WindowAt | Terrain.c:48-52 | coordinate (pcx-r+i, pcz-r+j) is the (j(2r+1)+i)-th visited |
| Terrain.NearStep | Terrain.c:66-82 | examining one more chunk keeps it iff its distance does not exceed maxRange * chunkSize |
| Terrain.NearMember | Terrain.c:66-82 | a chunk survives iff it was live and is not farther than maxRange * chunkSize |
| Terrain.NearAppend | Terrain.c:66-82 | removal distributes over concatenation, so survivors keep their relative order |
| Terrain.NearShorter | Terrain.c:66-82 | removal never adds chunks |
| Terrain.NearKeepsDistinct | Terrain.c:66-82 | removal keeps the live chunks pairwise distinct |
| Terrain.TerrainManager.constructor | Terrain.c:23-24 | InitTerrain: no chunk is loaded |
| Terrain.TerrainManager.IsChunkLoaded | Terrain.c:141-152 | true iff some live slot has origin x/z equal to (chunkX*189, chunkZ*189) |
| Terrain.TerrainManager.AddTerrainChunk | Terrain.c:154-173 | the live chunks become AddFifo(old, new chunk): the count stays <= MAX_CHUNKS, slot 0 is evicted only when full, the rest move down in order, and the new chunk with the generated mesh is last |
| Terrain.TerrainManager.EvictOldest | Terrain.c:155-161 | the shift loop drops slot 0 and moves every other live chunk down one slot, in order |
| Terrain.TerrainManager.LoadChunk | Terrain.c:50-60 | one coordinate: add the chunk at (cx*189, 0, cz*189) unless it is already loaded |
| Terrain.TerrainManager.LoadRow | Terrain.c:49-61 | the x loop visits the row's 2r+1 coordinates left to right |
| Terrain.TerrainManager.UpdateTerrain | Terrain.c:48-62 | the live chunks become Fill(old, Window(pcx, pcz, r)), and distinct keys stay distinct |
| Terrain.TerrainManager.RemoveAt | Terrain.c:76-80 | the shift loop removes slot i and moves the later chunks down one slot |
| Terrain.TerrainManager.Examine | Terrain.c:67-81 | one pass: a far chunk is removed and its slot re-examined (the `i--`); a near one is kept and the cursor moves on |
| Terrain.TerrainManager.UnloadFarChunks | Terrain.c:65-83 | the live chunks become Near(old): exactly the far ones are removed, the others keep their order |
| Terrain.TerrainManager.UnloadTerrain | Terrain.c:91-96 | every live chunk is released, oldest first, and the count becomes 0 |
| ModelArrays.Realloc | ModelArray.c:22-23 | a successful realloc yields a fresh block of the new size starting with the old contents; a failed one yields NULL |
| ModelArrays.ModelArray.constructor | ModelArray.c:9-11 | an empty header over a buffer whose length is the capacity |
| ModelArrays.ModelArray.AppendModel | ModelArray.c:19-32 | as written: when not full the buffer is kept; when full, capacity doubles before realloc, and a successful realloc gives a fresh buffer of that length; on failure nothing is stored but the doubled capacity stays, exceeding the buffer; otherwise the instance lands at old index size and earlier elements are unchanged; from a state whose capacity is the buffer length no write is out of bounds, and a store keeps that |
| ModelArrays.ModelArray.AppendModelChecked | ModelArray.c:19-32 | corrected append: stored unless a needed realloc fails; contents gain the instance at the end; capacity equals the buffer length before and after |
| ModelArrays.CreateModelArray | ModelArray.c:5-17 | NULL iff an allocation fails, the header freed first when only the buffer fails; otherwise size 0 and capacity initial_capacity, or 4 when that is 0 |
| ModelArrays.UnloadModelArray | ModelArray.c:34-41 | releases the model and texture of every stored instance in index order; nothing for NULL |
| ModelArrays.FreeModelArray | ModelArray.c:43-48 | frees the element buffer, then the header; nothing for NULL |
| ModelArrays.FailedReallocThenAppend | ModelArray.c:20-31 | after a failed growth, the next append writes past the end of the buffer |
| ModelArrays.SuccessfulAppends | ModelArray.c:19-32 | when every realloc succeeds, four appends from a one-slot array all store, and both the recorded capacity and the buffer's length end at 4 |
| ModelArrays.FailedReallocThenAppendChecked | ModelArray.c:20-31 | with the corrected append, the same calls store nothing on the failure and store on the retry |

## Left out

- Heights: noise sampling (`GetNoiseValue`, `GetOctaveNoise`, Terrain.c:104-128) calls FastNoiseLite and uses floats.
- Vertex positions, texture coordinates and colours (Terrain.c:189-251, `ColorLerp` at Terrain.c:130-139) are float arithmetic on buffers the index loop does not read.
- Normals: the loop at Terrain.c:277-287 normalises a buffer that stays zero; floating-point normalisation is not modelled.
- The observer-derived inputs of `UpdateTerrain` are integer parameters: the `floorf` of the plane position and the range from `camera.fovy` (Terrain.c:34-42). `planeForward` is unused (Terrain.c:45).
- Terrain.TerrainManager.IsChunkLoaded: origins are exact integers. In the source `chunkX * chunkSize` (Terrain.c:143-144) and `offsetX * chunkSize` (Terrain.c:55-57) are single-precision products, exact only while |cx * 189| <= 2^24, i.e. |cx| <= 88768. Beyond that the origins are rounded, and from about |cx| = 1.1 * 10^7 two keys can round to the same origin, so neither OriginDeterminesKey nor IsChunkLoaded describes the source there; distances in UnloadFarChunks also shift.
- Terrain.TerrainManager.UnloadFarChunks: the Euclidean distance is compared squared over exact reals, not in single-precision floats. A negative bound counts every chunk as far, as `distance > maxDistance` does for the non-negative `distance`.
- GPU and raylib calls are left out: `UploadMesh`, `LoadModelFromMesh`, `UnloadModel`, `UnloadTexture`, `DrawModel` and `DrawTerrain`. The five `RL_MALLOC`/`RL_CALLOC` calls of `GenerateTerrainMesh` (Terrain.c:183-187) are never checked for NULL; the model's `GenerateTerrainMesh` always allocates. `UnloadTerrain` and `UnloadModelArray` return the list of released chunks or instances, in order. The `UnloadModel` of the evicted slot 0 in `AddTerrainChunk` (Terrain.c:157) and of each removed chunk in `UnloadFarChunks` (Terrain.c:74) is not reported; the released chunk is only the one that leaves the live sequence.
- The diffuse-texture assignment of `AppendModel` (ModelArray.c:30) writes into a foreign raylib struct.
- `size_t` overflow of `capacity * 2` and of `capacity * sizeof(ModelInstance)` is not modelled: sizes are unbounded naturals.
- ModelArrays.ModelArray.AppendModel: a write past the end of the buffer is undefined behaviour in C. The model reports it as the outcome `WriteOutOfBounds` and changes nothing.
- ModelArrays.CreateModelArray: `free` of the header is reported as a flag, not as a change to an allocator state.
- game.c, main.c and terraingeneration.c are not part of this model: window, input, camera, bullets and drawing. Neither is extract_textures.py (Blender and filesystem I/O).

## Findings

| source | as written | input that shows it | evidently intended | confidence | as-written member | corrected member |
|---|---|---|---|---|---|---|
| ModelArray.c:20-31 | `capacity` is doubled before `realloc`, and a failed `realloc` returns without restoring it. The next append sees `size < capacity` and writes `models[size]` with `size` equal to the buffer length. | An array holding one instance in a one-element buffer: append with a failing realloc, then append again. | Commit the doubled capacity only after `realloc` succeeds, so the capacity always equals the buffer length and every write is in bounds. | not executed | ModelArrays.ModelArray.AppendModel, exhibited by ModelArrays.FailedReallocThenAppend | ModelArrays.ModelArray.AppendModelChecked, exercised by ModelArrays.FailedReallocThenAppendChecked |
