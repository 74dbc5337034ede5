# Planet terrain streaming: a Dafny model

This project models the runtime streaming engine of a cube-sphere planet
renderer (`Assets/Scripts/PlanetTerrain/Runtime/`), and proves properties of
that model. The planet's surface is cut into `6·T²` tiles, identified by a
key `(face, x, y)`. Each tick, the engine does the following:

1. It decides whether to refresh, using a throttle gate driven by camera
   motion.
2. It stamps a new visibility pass.
3. It culls the tile grid against the camera frustum, either from a
   precomputed table of tile boxes or on the fly.
4. It optionally orders the visible keys by priority. Cached tiles come
   first.
5. It shows the cached tiles. It creates new tiles up to a per-pass budget,
   taking scene objects from a pool when it can, and queues the rest in a
   duplicate-free FIFO.
6. It drains the queue with whatever budget is left.
7. It hides every tile that was not seen in the pass.
8. It evicts hidden tiles, least recently used first, until the cache is
   back within its capacity.

Unity objects become opaque handles: a scene object carries an identity, its
`activeSelf` flag, its mesh and an optional deformer with an `enabled` flag.
Floats become `real`s. Several things are inputs of the operations that use
them:

- the clock;
- whether the camera moved;
- the frustum test;
- the priority score;
- the mesh a new tile turns out to have.

One module per source file:

| file | module | source |
|---|---|---|
| `tile_key.dfy` | `TileKeys` | `Geometry/TileKey.cs` |
| `face_axes.dfy` | `FaceAxes` | `Geometry/FaceAxes.cs` |
| `tile_cache.dfy` | `Cache` | `TerrainStreaming/Cache/TileCache.cs`, `CachedChunk.cs` |
| `terrain_update_scheduler.dfy` | `Scheduling` | `TerrainStreaming/Scheduling/TerrainUpdateScheduler.cs` |
| `camera_change_detector.dfy` | `ChangeDetection` | `TerrainStreaming/Scheduling/CameraChangeDetector.cs` |
| `tile_factory.dfy` | `Creation` | `TerrainStreaming/Creation/TileFactory.cs` |
| `frustum_culling_provider.dfy` | `Culling` | `VisibilityCulling/FrustumCullingProvider.cs` |
| `mesh_cache.dfy` | `Meshing` | `Meshing/MeshCache.cs` |
| `height_sampler_cache.dfy` | `HeightData` | `HeightData/HeightSamplerCache.cs` |
| `dynamic_terrain_manager.dfy` | `Orchestration` | `Orchestration/DynamicTerrainManager.cs` |

The remaining two modules are shared helpers:

- `Wrappers` holds `Option`.
- `Seqs` holds `NoDup`, `Elems`, `Without`, `RemoveSet` and `MoveToBack`.

Files with state become classes whose fields the methods update:

- `TileCache`: the map, the LRU list and the pool.
- `TerrainUpdateScheduler`: the queue and its membership set.
- `CameraChangeDetector`: the snapshot, the time and the force flag.
- `TileFactory`: its counters.
- `FrustumCullingProvider`: its axis arrays and box table.
- `MeshCache` and `HeightSamplerCache`: their memo tables.
- `DynamicTerrainManager`: the stamp, the counters and its components.

Loops stay loops, with invariants. Each method is proved against a
specification function, for example:

- `Plan` for the visiting loop;
- `DrainLength` and `Successes` for `Drain`;
- `Evictions` for the eviction walk;
- `TableOf` and `OnTheFly` for culling;
- `Triangles` for the index buffer.

The source's promises are proved about those functions as lemmas.

`CachedChunk.lruNode` is not stored: the entry's LRU position is the index
of its key in `TileCache.lru`. The invariant `TileCache.Valid` says the LRU
list holds exactly the map's keys, each once. The manager's invariant also
says that every entry has a scene object, which holds because only the
factory creates entries and it always attaches one.

## Model

Source cells name files under the repository root `Assets/Scripts/PlanetTerrain/Runtime/`, with the lines each member models.

| member | source | states |
|---|---|---|
| TileKeys.MakeKey | Assets/Scripts/PlanetTerrain/Runtime/Geometry/TileKey.cs:15-20 | each stored field equals its argument modulo 256 (face) or 65536 (x, y), and equals it exactly when the argument is in range |
| TileKeys.MakeKeyWraps | Assets/Scripts/PlanetTerrain/Runtime/Geometry/TileKey.cs:15-20 | arguments that differ by multiples of 256 / 65536 build the same key |
| TileKeys.Equals | Assets/Scripts/PlanetTerrain/Runtime/Geometry/TileKey.cs:22 | true exactly when face, x and y all match, i.e. value equality |
| TileKeys.EqualsIsEquivalence | Assets/Scripts/PlanetTerrain/Runtime/Geometry/TileKey.cs:22 | `Equals` is reflexive, symmetric and transitive |
| TileKeys.EqualsObject | Assets/Scripts/PlanetTerrain/Runtime/Geometry/TileKey.cs:23 | true exactly when the object is a boxed key equal to this one; for a boxed key it agrees with the typed `Equals`, for any other object it is false |
| TileKeys.Hash | Assets/Scripts/PlanetTerrain/Runtime/Geometry/TileKey.cs:25-29 | the hash is a signed 32-bit value, in `[-2^31, 2^31)`; it is the two's-complement reading of the `Xor` (bitwise, by `XorBits`) of the three products, each wrapped to 32 bits (`WrapMul`) |
| TileKeys.XorBits | Assets/Scripts/PlanetTerrain/Runtime/Geometry/TileKey.cs:28 | `Xor` is C#'s `^` on non-negative values: bit `i` of the result is set exactly when bit `i` of the two operands differ |
| TileKeys.HashRespectsEquals | Assets/Scripts/PlanetTerrain/Runtime/Geometry/TileKey.cs:25-29 | keys that compare equal hash equally |
| TileKeys.HashWrapsAround | Assets/Scripts/PlanetTerrain/Runtime/Geometry/TileKey.cs:28 | the products overflow: face 29 hashes to 2141826697, face 30 to -2079284506 |
| TileKeys.DecimalRoundTrip | Assets/Scripts/PlanetTerrain/Runtime/Geometry/TileKey.cs:31 | the decimal digits written for a number read back as that number |
| TileKeys.SplitAtFirst | Assets/Scripts/PlanetTerrain/Runtime/Geometry/TileKey.cs:31 | splitting `p + [c] + q` at the first `c` gives back `p` and `q` when `p` has no `c` |
| TileKeys.ParseKeyString | Assets/Scripts/PlanetTerrain/Runtime/Geometry/TileKey.cs:31 | parsing `F{face}_X{x}_Y{y}` gives back the key |
| TileKeys.KeyStringInjective | Assets/Scripts/PlanetTerrain/Runtime/Geometry/TileKey.cs:31 | distinct keys have distinct string forms |
| FaceAxes.ClampFace | Assets/Scripts/PlanetTerrain/Runtime/Geometry/FaceAxes.cs:59 | the clamped index is below 6; it is the index itself below 6 and 5 otherwise |
| FaceAxes.AxesOf | Assets/Scripts/PlanetTerrain/Runtime/Geometry/FaceAxes.cs:60-62 | the frame keeps the given normal as `localUp` |
| FaceAxes.AxesOfUnitAxis | Assets/Scripts/PlanetTerrain/Runtime/Geometry/FaceAxes.cs:61-62 | for any unit axis normal, `axisA = (up.y, up.z, up.x)` and `axisB = up × axisA` are unit axis vectors; up, A and B are pairwise orthogonal, exactly, with `A × B = up` |
| FaceAxes.GetAxes | Assets/Scripts/PlanetTerrain/Runtime/Geometry/FaceAxes.cs:57-63 | `localUp` is `FaceUp[clamp(face, 0, 5)]`, and the frame is such an orthonormal frame of unit axes |
| FaceAxes.FaceUpPairs | Assets/Scripts/PlanetTerrain/Runtime/Geometry/FaceAxes.cs:46-52 | the six normals (+Y, −Y, −X, +X, +Z, −Z) are distinct and come in opposite pairs |
| FaceAxes.GetAxesClamps | Assets/Scripts/PlanetTerrain/Runtime/Geometry/FaceAxes.cs:59 | every face byte of 6 or more yields face 5's frame |
| Cache.Activated | Assets/Scripts/PlanetTerrain/Runtime/TerrainStreaming/Cache/TileCache.cs:64-70 | an activated entry is active and its scene object is active |
| Cache.Deactivated | Assets/Scripts/PlanetTerrain/Runtime/TerrainStreaming/Cache/TileCache.cs:79-84 | a deactivated entry and its scene object are inactive, and its visibility stamp is unchanged |
| Cache.Released | Assets/Scripts/PlanetTerrain/Runtime/TerrainStreaming/Cache/TileCache.cs:174-187 | the object pushed on the pool is the entry's object, made inactive, with its deformer disabled when the entry named one |
| Cache.PooledHandles | Assets/Scripts/PlanetTerrain/Runtime/TerrainStreaming/Cache/TileCache.cs:172-194 | eviction pushes at most one object per evicted key |
| Cache.Inactives | Assets/Scripts/PlanetTerrain/Runtime/TerrainStreaming/Cache/TileCache.cs:130 | the keys of an LRU walk the eviction may take: exactly those cached and inactive, in walk order |
| Cache.EvictionsArePrefix | Assets/Scripts/PlanetTerrain/Runtime/TerrainStreaming/Cache/TileCache.cs:119-143 | the evicted keys are the first `min(count − max, #inactive)` inactive keys in LRU order, and none when `count ≤ max` |
| Cache.CapacityAfterEviction | Assets/Scripts/PlanetTerrain/Runtime/TerrainStreaming/Cache/TileCache.cs:119-143 | eviction takes only inactive entries, each once, never goes below the capacity, and afterwards the count is within capacity or every remaining entry is active |
| Cache.TouchKeepsOthersInOrder | Assets/Scripts/PlanetTerrain/Runtime/TerrainStreaming/Cache/TileCache.cs:196-204 | moving a key to the LRU tail leaves the relative order of the other keys unchanged |
| Cache.TileCache.constructor | Assets/Scripts/PlanetTerrain/Runtime/TerrainStreaming/Cache/TileCache.cs:27-32 | capacity `max(1, maxTiles)`, the keep-all flag as given, everything empty |
| Cache.TileCache.Count | Assets/Scripts/PlanetTerrain/Runtime/TerrainStreaming/Cache/TileCache.cs:34 | the count is the number of entries, which is also the LRU list's length |
| Cache.TileCache.Put | Assets/Scripts/PlanetTerrain/Runtime/TerrainStreaming/Cache/TileCache.cs:42-54 | refuses a key already present and changes nothing; otherwise inserts the entry and appends the key at the LRU tail; the invariant is kept |
| Cache.TileCache.TouchLru | Assets/Scripts/PlanetTerrain/Runtime/TerrainStreaming/Cache/TileCache.cs:196-204 | a listed key moves to the LRU tail; otherwise nothing changes |
| Cache.TileCache.Activate | Assets/Scripts/PlanetTerrain/Runtime/TerrainStreaming/Cache/TileCache.cs:62-75 | fails without change for an absent key or one without a scene object; otherwise the entry becomes `Activated` (active, access time, stamp) and its key moves to the LRU tail |
| Cache.TileCache.Deactivate | Assets/Scripts/PlanetTerrain/Runtime/TerrainStreaming/Cache/TileCache.cs:77-89 | the same failure cases; otherwise the entry becomes `Deactivated` (stamp kept) and its key moves to the LRU tail |
| Cache.TileCache.ResetFrameStats | Assets/Scripts/PlanetTerrain/Runtime/TerrainStreaming/Cache/TileCache.cs:99 | the pooled-this-frame counter is 0 |
| Cache.TileCache.SweepDeactivateStale | Assets/Scripts/PlanetTerrain/Runtime/TerrainStreaming/Cache/TileCache.cs:101-117 | no entry is added or removed; every active entry with another stamp (and a scene object) becomes `Deactivated`, every other entry is unchanged; the turned-off keys go to the LRU tail in sweep order, the rest keep their order |
| Cache.TileCache.CollectStale | Assets/Scripts/PlanetTerrain/Runtime/TerrainStreaming/Cache/TileCache.cs:103-110 | the collected keys are exactly the active entries with another stamp, each once |
| Cache.TileCache.DeactivateInOrder | Assets/Scripts/PlanetTerrain/Runtime/TerrainStreaming/Cache/TileCache.cs:112-116 | after deactivating the listed keys in order, each listed key with a scene object is `Deactivated` and moved to the LRU tail in list order; all other entries are unchanged |
| Cache.TileCache.ReturnToPool | Assets/Scripts/PlanetTerrain/Runtime/TerrainStreaming/Cache/TileCache.cs:172-194 | an entry with a scene object pushes its `Released` object and counts one pooled object; an entry without one changes nothing |
| Cache.TileCache.EnforceCapacity | Assets/Scripts/PlanetTerrain/Runtime/TerrainStreaming/Cache/TileCache.cs:119-143 | removes exactly the keys `Evictions` names (none with keep-all), from the map and the LRU list; pushes their objects on the pool and counts them |
| Cache.TileCache.VisitForEviction | Assets/Scripts/PlanetTerrain/Runtime/TerrainStreaming/Cache/TileCache.cs:125-142 | the walk from LRU node `j` on: the evicted keys are the inactive keys before the node where it stops, and the count never drops below capacity |
| Cache.TileCache.EvictEntry | Assets/Scripts/PlanetTerrain/Runtime/TerrainStreaming/Cache/TileCache.cs:130-135 | one eviction: the entry leaves the map and the LRU list, and its object goes to the pool |
| Cache.TileCache.RentFromPool | Assets/Scripts/PlanetTerrain/Runtime/TerrainStreaming/Cache/TileCache.cs:145-151 | pops the last pushed object (LIFO), or gives none from an empty pool |
| Cache.TileCache.DestroyAll | Assets/Scripts/PlanetTerrain/Runtime/TerrainStreaming/Cache/TileCache.cs:153-170 | map, LRU list and pool end empty and the counter 0; the destroyed objects are exactly the entries' objects and the pooled ones |
| Scheduling.Enqueued | Assets/Scripts/PlanetTerrain/Runtime/TerrainStreaming/Scheduling/TerrainUpdateScheduler.cs:17-23 | the queue after an enqueue holds the key and exactly the old keys besides |
| Scheduling.NoDupOccurrences | Assets/Scripts/PlanetTerrain/Runtime/TerrainStreaming/Scheduling/TerrainUpdateScheduler.cs:12-13 | in a duplicate-free queue a key occurs once or not at all |
| Scheduling.EnqueueTwice | Assets/Scripts/PlanetTerrain/Runtime/TerrainStreaming/Scheduling/TerrainUpdateScheduler.cs:19 | enqueuing a key twice equals enqueuing it once, and it occurs exactly once |
| Scheduling.DrainLength | Assets/Scripts/PlanetTerrain/Runtime/TerrainStreaming/Scheduling/TerrainUpdateScheduler.cs:29-34 | a drain dequeues at most the whole queue |
| Scheduling.DrainBudget | Assets/Scripts/PlanetTerrain/Runtime/TerrainStreaming/Scheduling/TerrainUpdateScheduler.cs:26-35 | at most `max(budget, 0)` creates succeed; a drain that stops before the queue is empty stops exactly at the budget |
| Scheduling.DrainNothing | Assets/Scripts/PlanetTerrain/Runtime/TerrainStreaming/Scheduling/TerrainUpdateScheduler.cs:29 | with `budget ≤ 0` nothing is dequeued |
| Scheduling.DrainAllSucceed | Assets/Scripts/PlanetTerrain/Runtime/TerrainStreaming/Scheduling/TerrainUpdateScheduler.cs:26-35 | when every create succeeds, a drain dequeues `min(budget, |queue|)` keys, or none for `budget ≤ 0` |
| Scheduling.DrainStep | Assets/Scripts/PlanetTerrain/Runtime/TerrainStreaming/Scheduling/TerrainUpdateScheduler.cs:29-33 | after `i` dequeues, the rest of the drain is a drain of the remaining queue with the budget less the successes so far |
| Scheduling.TerrainUpdateScheduler.constructor | Assets/Scripts/PlanetTerrain/Runtime/TerrainStreaming/Scheduling/TerrainUpdateScheduler.cs:12-13 | empty queue and set; the invariant (set = queued keys, no duplicates) holds |
| Scheduling.TerrainUpdateScheduler.Count | Assets/Scripts/PlanetTerrain/Runtime/TerrainStreaming/Scheduling/TerrainUpdateScheduler.cs:15 | the count is the queue length, which is also the set's size |
| Scheduling.TerrainUpdateScheduler.EnqueueIfAbsent | Assets/Scripts/PlanetTerrain/Runtime/TerrainStreaming/Scheduling/TerrainUpdateScheduler.cs:17-23 | returns true exactly when the key was not queued; then the key is appended and recorded, otherwise nothing changes |
| Scheduling.TerrainUpdateScheduler.Drain | Assets/Scripts/PlanetTerrain/Runtime/TerrainStreaming/Scheduling/TerrainUpdateScheduler.cs:26-35 | the dequeued keys are the first `DrainLength` keys of the queue, in FIFO order; the queue is the rest, each dequeued key leaves the set, and the count of successes is `Successes` of the dequeued keys |
| Scheduling.TerrainUpdateScheduler.Dequeue | Assets/Scripts/PlanetTerrain/Runtime/TerrainStreaming/Scheduling/TerrainUpdateScheduler.cs:31-32 | takes the head and removes it from the set |
| Scheduling.TerrainUpdateScheduler.Clear | Assets/Scripts/PlanetTerrain/Runtime/TerrainStreaming/Scheduling/TerrainUpdateScheduler.cs:37-41 | queue and set end empty |
| ChangeDetection.Max | Assets/Scripts/PlanetTerrain/Runtime/TerrainStreaming/Scheduling/CameraChangeDetector.cs:40-44 | `Mathf.Max`: the larger argument |
| ChangeDetection.PositionThreshold | Assets/Scripts/PlanetTerrain/Runtime/TerrainStreaming/Scheduling/CameraChangeDetector.cs:69 | the threshold is `max(0.01, radius·posEpsRel)` |
| ChangeDetection.ForcedOpens | Assets/Scripts/PlanetTerrain/Runtime/TerrainStreaming/Scheduling/CameraChangeDetector.cs:57 | a forced request opens the gate whatever the elapsed time |
| ChangeDetection.UnforcedSpacing | Assets/Scripts/PlanetTerrain/Runtime/TerrainStreaming/Scheduling/CameraChangeDetector.cs:53-63 | unforced, the gate opens no sooner than the floor interval; while the camera is unmoved it stays shut until the idle interval has elapsed |
| ChangeDetection.CameraChangeDetector.constructor | Assets/Scripts/PlanetTerrain/Runtime/TerrainStreaming/Scheduling/CameraChangeDetector.cs:28-47 | both intervals floored at 0.01, all epsilons at 0; the camera pose and time snapshotted; not forced |
| ChangeDetection.CameraChangeDetector.ForceOnce | Assets/Scripts/PlanetTerrain/Runtime/TerrainStreaming/Scheduling/CameraChangeDetector.cs:49 | the force flag is set |
| ChangeDetection.CameraChangeDetector.Snapshot | Assets/Scripts/PlanetTerrain/Runtime/TerrainStreaming/Scheduling/CameraChangeDetector.cs:78-84 | position, rotation, field of view and time are those given |
| ChangeDetection.CameraChangeDetector.ShouldUpdate | Assets/Scripts/PlanetTerrain/Runtime/TerrainStreaming/Scheduling/CameraChangeDetector.cs:51-64 | true exactly when forced or `now − lastTime ≥` the interval for the camera's motion; when true it snapshots and clears the flag, when false nothing changes |
| Creation.MeshBytesLayout | Assets/Scripts/PlanetTerrain/Runtime/TerrainStreaming/Creation/TileFactory.cs:228-257 | tangents add exactly 16 bytes per vertex, 32-bit indices exactly 2 per index, so an estimate lies between `32v + 2n` and `48v + 4n` |
| Creation.SubMeshesTakePrecedence | Assets/Scripts/PlanetTerrain/Runtime/TerrainStreaming/Creation/TileFactory.cs:238-254 | with sub-meshes the triangle array is ignored; without them the index bytes come from its length |
| Creation.EstimateMeshBytes | Assets/Scripts/PlanetTerrain/Runtime/TerrainStreaming/Creation/TileFactory.cs:228-257 | the loop returns `MeshBytes`: 0 without a mesh, else vertex bytes plus the index bytes summed over sub-meshes |
| Creation.Prepared | Assets/Scripts/PlanetTerrain/Runtime/TerrainStreaming/Creation/TileFactory.cs:120-176 | the object handed out is inactive and has a mesh; it has an enabled deformer exactly when one is wanted; a rented object keeps its identity and mesh, and its deformer is disabled rather than removed; a new object has a deformer only when wanted |
| Creation.CreatedChunkShape | Assets/Scripts/PlanetTerrain/Runtime/TerrainStreaming/Creation/TileFactory.cs:197-207 | the entry is for the requested key, inactive in flag and object, stamped with the requested pass, holds the object's mesh, and names an enabled deformer exactly when one was wanted |
| Creation.TileFactory.constructor | Assets/Scripts/PlanetTerrain/Runtime/TerrainStreaming/Creation/TileFactory.cs:69-75 | the cache and shader presence as given; both counters 0 |
| Creation.TileFactory.ResetFrameStats | Assets/Scripts/PlanetTerrain/Runtime/TerrainStreaming/Creation/TileFactory.cs:58 | both counters 0 |
| Creation.TileFactory.Create | Assets/Scripts/PlanetTerrain/Runtime/TerrainStreaming/Creation/TileFactory.cs:118-208 | rents the pool's top object when there is a cache with a non-empty pool, and counts exactly one of a rental and a new creation; returns the `ChunkFor` of the `Prepared` object; leaves the cache's map and LRU list alone |
| Creation.TileFactory.CreateFrom | Assets/Scripts/PlanetTerrain/Runtime/TerrainStreaming/Creation/TileFactory.cs:210-225 | the overload's result and effects are those of `Create` on the config built from its arguments |
| Culling.HalfRangeIs | Assets/Scripts/PlanetTerrain/Runtime/VisibilityCulling/FrustumCullingProvider.cs:64-67 | the half extent is `R·1.5/T`, plus `0.5·heightScale·uniformScale` with a height map |
| Culling.OnTheFly | Assets/Scripts/PlanetTerrain/Runtime/VisibilityCulling/FrustumCullingProvider.cs:128-153 | the on-the-fly path yields only keys of visited cells |
| Culling.FromTable | Assets/Scripts/PlanetTerrain/Runtime/VisibilityCulling/FrustumCullingProvider.cs:113-117 | the table path yields only keys of the table's order |
| Culling.TableKeys | Assets/Scripts/PlanetTerrain/Runtime/VisibilityCulling/FrustumCullingProvider.cs:70-101 | the table's keys are the keys of the visited cells, and its order lists each once |
| Culling.KeysNoDup | Assets/Scripts/PlanetTerrain/Runtime/VisibilityCulling/FrustumCullingProvider.cs:85 | distinct cells within the 16-bit range have distinct keys |
| Culling.KeysOfGridInGrid | Assets/Scripts/PlanetTerrain/Runtime/VisibilityCulling/FrustumCullingProvider.cs:70-101 | the grid's keys are exactly the keys with `face < 6` and `x, y < T` |
| Culling.PathsAgree | Assets/Scripts/PlanetTerrain/Runtime/VisibilityCulling/FrustumCullingProvider.cs:111-153 | for any frustum predicate, the table path over the filled table yields exactly the on-the-fly path's keys, in the same order, without duplicates |
| Culling.GridTable | Assets/Scripts/PlanetTerrain/Runtime/VisibilityCulling/FrustumCullingProvider.cs:70-101 | the filled table holds exactly the grid keys, `6·T²` of them when `T ≤ 65536` |
| Culling.AllPassYieldsKeys | Assets/Scripts/PlanetTerrain/Runtime/VisibilityCulling/FrustumCullingProvider.cs:139-151 | with a frustum that passes every box, the on-the-fly path yields every cell's key in grid order |
| Culling.PathsDivergeBeyondKeyRange | Assets/Scripts/PlanetTerrain/Runtime/VisibilityCulling/FrustumCullingProvider.cs:85 | for `T > 65536` cells (0,0,0) and (0,65536,0) share a key, so the on-the-fly path repeats a key and differs from the table path |
| Culling.FrustumCullingProvider.constructor | Assets/Scripts/PlanetTerrain/Runtime/VisibilityCulling/FrustumCullingProvider.cs:31-44 | `T = max(1, tilesPerSide)`, precompute as given, radius, height map and scales unset, and the table empty; the invariant (axis arrays hold each face's frame) holds |
| Culling.FrustumCullingProvider.RebuildPrecompute | Assets/Scripts/PlanetTerrain/Runtime/VisibilityCulling/FrustumCullingProvider.cs:46-103 | stores the parameters and `max(1, T)`; with precompute off the table is empty; with it on the table is `TableOf` the grid, holding exactly the grid keys, `6·T²` of them in key range |
| Culling.FrustumCullingProvider.FillTable | Assets/Scripts/PlanetTerrain/Runtime/VisibilityCulling/FrustumCullingProvider.cs:64-102 | the nested loops leave the table and its order equal to `TableOf` / `OrderOf` of the grid |
| Culling.FrustumCullingProvider.FillFace | Assets/Scripts/PlanetTerrain/Runtime/VisibilityCulling/FrustumCullingProvider.cs:70-102 | one face's rows added to the table, as `FaceTable` prescribes |
| Culling.FrustumCullingProvider.FillRow | Assets/Scripts/PlanetTerrain/Runtime/VisibilityCulling/FrustumCullingProvider.cs:83-100 | one row's boxes added to the table, as `RowTable` prescribes |
| Culling.FrustumCullingProvider.GetVisibleKeys | Assets/Scripts/PlanetTerrain/Runtime/VisibilityCulling/FrustumCullingProvider.cs:105-154 | nothing for no camera |
| Culling.FrustumCullingProvider.PrecomputeMatchesOnTheFly | Assets/Scripts/PlanetTerrain/Runtime/VisibilityCulling/FrustumCullingProvider.cs:111-153 | whichever path is enabled, the visible keys are the on-the-fly filtering of the grid under the stored parameters |
| Culling.FrustumCullingProvider.VisibleKeysSound | Assets/Scripts/PlanetTerrain/Runtime/VisibilityCulling/FrustumCullingProvider.cs:105-154 | every visible key lies in the grid, and none repeats (the table path always; the on-the-fly path for `T ≤ 65536`) |
| Culling.FrustumCullingProvider.GetFaceAxes | Assets/Scripts/PlanetTerrain/Runtime/VisibilityCulling/FrustumCullingProvider.cs:156-162 | the stored frame of the clamped face equals `FaceAxes.GetAxes` of that face |
| Meshing.Quad | Assets/Scripts/PlanetTerrain/Runtime/Meshing/MeshCache.cs:28-36 | one quad writes six indices |
| Meshing.QuadEntries | Assets/Scripts/PlanetTerrain/Runtime/Meshing/MeshCache.cs:19-38 | the buffer has `6·(res−1)²` entries, and entries `6q..6q+5` of quad `(x, y)` are `i, i+res+1, i+res, i, i+1, i+res+1` with `i = y·res + x` |
| Meshing.TrianglesInRange | Assets/Scripts/PlanetTerrain/Runtime/Meshing/MeshCache.cs:11-38 | for `res ≥ 2` every index lies in `0..res²−1` |
| Meshing.DegenerateTriangles | Assets/Scripts/PlanetTerrain/Runtime/Meshing/MeshCache.cs:19-20 | below two vertices per side the buffer holds only zeros |
| Meshing.PercentRow | Assets/Scripts/PlanetTerrain/Runtime/Meshing/MeshCache.cs:60-63 | one row's percent pairs, for `x = 0..res−1` |
| Meshing.PercentIndexing | Assets/Scripts/PlanetTerrain/Runtime/Meshing/MeshCache.cs:44-66 | the percents have `res²` entries and entry `x + y·res` is vertex `(x, y)`'s |
| Meshing.BuildTriangles | Assets/Scripts/PlanetTerrain/Runtime/Meshing/MeshCache.cs:19-38 | the fresh array filled by the nested loops equals `Triangles(res)` |
| Meshing.WriteQuadRow | Assets/Scripts/PlanetTerrain/Runtime/Meshing/MeshCache.cs:25-37 | after row `y` the filled prefix is the first `y+1` rows |
| Meshing.WriteQuad | Assets/Scripts/PlanetTerrain/Runtime/Meshing/MeshCache.cs:28-36 | appends one quad's six indices after the filled prefix |
| Meshing.BuildPercents | Assets/Scripts/PlanetTerrain/Runtime/Meshing/MeshCache.cs:53-64 | the fresh array filled by the nested loops equals `Percents(res)` |
| Meshing.WritePercentRow | Assets/Scripts/PlanetTerrain/Runtime/Meshing/MeshCache.cs:59-63 | after row `y` the filled prefix is the first `y+1` rows |
| Meshing.MeshCache.constructor | Assets/Scripts/PlanetTerrain/Runtime/Meshing/MeshCache.cs:8-9 | both memo tables empty |
| Meshing.MeshCache.GetTriangles | Assets/Scripts/PlanetTerrain/Runtime/Meshing/MeshCache.cs:14-42 | returns `Triangles(res)`; a second call returns the identical array; a first call builds a fresh one and memoises it |
| Meshing.MeshCache.GetPercents | Assets/Scripts/PlanetTerrain/Runtime/Meshing/MeshCache.cs:48-68 | returns `Percents(res)`, memoised in the same way |
| HeightData.HeightSamplerCache.constructor | Assets/Scripts/PlanetTerrain/Runtime/HeightData/HeightSamplerCache.cs:9 | the memo table is empty |
| HeightData.HeightSamplerCache.Get | Assets/Scripts/PlanetTerrain/Runtime/HeightData/HeightSamplerCache.cs:11-18 | no texture gives no sampler and no change; a cached texture gives the same sampler instance and no change; a new texture gives one fresh sampler, stored under it, with the other entries unchanged |
| HeightData.HeightSamplerCache.Clear | Assets/Scripts/PlanetTerrain/Runtime/HeightData/HeightSamplerCache.cs:20 | the memo table is empty |
| Orchestration.FaceAxesMappingHolds | Assets/Scripts/PlanetTerrain/Runtime/Orchestration/DynamicTerrainManager.cs:222-248 | for every face, the dot product of the table normal and `GetAxes`'s normal reaches the 0.999 tolerance, and up, A and B are pairwise orthogonal |
| Orchestration.ValidateFaceAxesMapping | Assets/Scripts/PlanetTerrain/Runtime/Orchestration/DynamicTerrainManager.cs:222-248 | the loop over the six faces returns true exactly when every face's normals agree within the tolerance |
| Orchestration.KeysOfRanking | Assets/Scripts/PlanetTerrain/Runtime/Orchestration/DynamicTerrainManager.cs:298-302 | ranking keeps the keys in order |
| Orchestration.InsertByScoreSorted | Assets/Scripts/PlanetTerrain/Runtime/Orchestration/DynamicTerrainManager.cs:303 | inserting into a non-increasing list keeps it non-increasing |
| Orchestration.InsertByScorePermutes | Assets/Scripts/PlanetTerrain/Runtime/Orchestration/DynamicTerrainManager.cs:303 | inserting adds exactly the one element |
| Orchestration.SortByScoreSorted | Assets/Scripts/PlanetTerrain/Runtime/Orchestration/DynamicTerrainManager.cs:303 | the sorted list is in non-increasing score order |
| Orchestration.SortByScorePermutes | Assets/Scripts/PlanetTerrain/Runtime/Orchestration/DynamicTerrainManager.cs:303 | the sorted list is a permutation of its input, and so are its keys |
| Orchestration.PriorityOrder | Assets/Scripts/PlanetTerrain/Runtime/Orchestration/DynamicTerrainManager.cs:292-304 | the ordered list is non-increasing by score and its keys are a permutation of the visible keys |
| Orchestration.RankingScores | Assets/Scripts/PlanetTerrain/Runtime/Orchestration/DynamicTerrainManager.cs:300 | a key scores `+∞` exactly when it is cached |
| Orchestration.CachedFirst | Assets/Scripts/PlanetTerrain/Runtime/Orchestration/DynamicTerrainManager.cs:298-303 | in the priority order every cached key precedes every uncached one |
| Orchestration.PlanBudget | Assets/Scripts/PlanetTerrain/Runtime/Orchestration/DynamicTerrainManager.cs:306-356 | the visiting loop creates at most `max(maxCreatesPerFrame, 0)` tiles and queues a key only once the budget is spent |
| Orchestration.PlanPartition | Assets/Scripts/PlanetTerrain/Runtime/Orchestration/DynamicTerrainManager.cs:306-356 | every visited key is shown, created or queued; created keys were uncached and are created once; queued keys are neither cached nor created |
| Orchestration.PlanSplitsUncached | Assets/Scripts/PlanetTerrain/Runtime/Orchestration/DynamicTerrainManager.cs:306-356 | without repeats, the loop creates the first `min(#uncached, max(budget, 0))` uncached keys in visiting order and queues the others |
| Orchestration.DynamicTerrainManager.constructor | Assets/Scripts/PlanetTerrain/Runtime/Orchestration/DynamicTerrainManager.cs:107-128 | the components as `Awake` builds them: cache capacity `max(1, maxCachedTiles)`, a deform shader only with GPU deformation on, the culling table rebuilt for the radius, the detector snapshotted at the unscaled time and not forced; stamp and counters 0, everything empty |
| Orchestration.DynamicTerrainManager.Config | Assets/Scripts/PlanetTerrain/Runtime/Orchestration/DynamicTerrainManager.cs:373-380 | the create settings name the key and the current stamp |
| Orchestration.DynamicTerrainManager.CreateAndActivate | Assets/Scripts/PlanetTerrain/Runtime/Orchestration/DynamicTerrainManager.cs:371-393 | the factory's tile is inserted and activated with the current stamp when the key is new; when it is already cached nothing is inserted or activated and the rented object is dropped |
| Orchestration.DynamicTerrainManager.Adopt | Assets/Scripts/PlanetTerrain/Runtime/Orchestration/DynamicTerrainManager.cs:384-392 | `Put` then `Activate`: a new key ends active at the LRU tail; a cached key changes nothing |
| Orchestration.DynamicTerrainManager.BeginPass | Assets/Scripts/PlanetTerrain/Runtime/Orchestration/DynamicTerrainManager.cs:282-288 | the stamp grows by exactly 1, and all per-pass counters of the manager, the factory and the cache are 0 |
| Orchestration.DynamicTerrainManager.RankKeys | Assets/Scripts/PlanetTerrain/Runtime/Orchestration/DynamicTerrainManager.cs:296-302 | the ranked list is `Ranking`: each visible key with `+∞` if cached, else its priority |
| Orchestration.DynamicTerrainManager.OrderKeys | Assets/Scripts/PlanetTerrain/Runtime/Orchestration/DynamicTerrainManager.cs:292-304 | the visiting order is `VisitOrder`: the visible keys, or with priority on their score-sorted order; a permutation either way |
| Orchestration.DynamicTerrainManager.VisitKeys | Assets/Scripts/PlanetTerrain/Runtime/Orchestration/DynamicTerrainManager.cs:306-356 | the loop does what `Plan` prescribes: it creates `Plan`'s created keys and enqueues its queued ones, counting both; every visited cached key ends active with the current stamp; unvisited entries are unchanged |
| Orchestration.DynamicTerrainManager.VisitOne | Assets/Scripts/PlanetTerrain/Runtime/Orchestration/DynamicTerrainManager.cs:312-330 | one turn of the loop carries out `Route` for the key |
| Orchestration.DynamicTerrainManager.ShowCached | Assets/Scripts/PlanetTerrain/Runtime/Orchestration/DynamicTerrainManager.cs:314-318 | a cached key is activated with the current stamp, whatever the budget |
| Orchestration.DynamicTerrainManager.CreateVisited | Assets/Scripts/PlanetTerrain/Runtime/Orchestration/DynamicTerrainManager.cs:320-325 | an uncached key within budget is created, shown and counted |
| Orchestration.DynamicTerrainManager.QueueVisited | Assets/Scripts/PlanetTerrain/Runtime/Orchestration/DynamicTerrainManager.cs:326-330 | an uncached key beyond the budget is enqueued if absent and counted |
| Orchestration.DynamicTerrainManager.VisitWithinBudget | Assets/Scripts/PlanetTerrain/Runtime/Orchestration/DynamicTerrainManager.cs:306-356 | the visiting loop creates `Plan`'s created keys and enqueues its queued keys, counting both; at most `max(maxCreatesPerFrame, 0)` are created, and keys are queued only once the budget is spent; every visited cached key and every new tile ends shown and stamped; unvisited entries are unchanged |
| Orchestration.DynamicTerrainManager.DrainQueue | Assets/Scripts/PlanetTerrain/Runtime/Orchestration/DynamicTerrainManager.cs:358-364 | the drained keys are the queue's first `DrainLength` keys, which is `DrainCount(budget, |queue|)` of them, and the queue is the rest; each is counted as created and drained whether or not `Put` took it; new entries are active with the current stamp, old ones unchanged |
| Orchestration.DrainCount | Assets/Scripts/PlanetTerrain/Runtime/Orchestration/DynamicTerrainManager.cs:358-364 | the drain takes no more keys than the queue holds and no more than `max(budget, 0)` |
| Orchestration.DynamicTerrainManager.CreateAll | Assets/Scripts/PlanetTerrain/Runtime/Orchestration/DynamicTerrainManager.cs:358-364 | the callback applied to each drained key in turn |
| Orchestration.DynamicTerrainManager.CreateDrained | Assets/Scripts/PlanetTerrain/Runtime/Orchestration/DynamicTerrainManager.cs:360-362 | one callback: create and activate, then both counters grow by 1 |
| Orchestration.DynamicTerrainManager.EndPass | Assets/Scripts/PlanetTerrain/Runtime/Orchestration/DynamicTerrainManager.cs:366-367 | after the sweep and the capacity step, a cached tile is shown exactly when it was seen in this pass; every tile seen in this pass is still cached, unchanged; every remaining tile was cached before, with its stamp unchanged; without keep-all the cache is within capacity unless every tile is shown; tiles seen in the pass keep their access time `now` |
| Orchestration.DynamicTerrainManager.HideStale | Assets/Scripts/PlanetTerrain/Runtime/Orchestration/DynamicTerrainManager.cs:366 | the sweep hides every unseen tile and leaves the seen ones as they are; no tile is added or removed and no stamp changes |
| Orchestration.DynamicTerrainManager.Evict | Assets/Scripts/PlanetTerrain/Runtime/Orchestration/DynamicTerrainManager.cs:367 | the capacity step evicts only hidden tiles, keeps every tile seen in this pass, changes no stamp, and without keep-all ends within capacity unless every tile is shown |
| Orchestration.DynamicTerrainManager.PreparePass | Assets/Scripts/PlanetTerrain/Runtime/Orchestration/DynamicTerrainManager.cs:282-304 | a new stamp with no cached tile seen in it yet, zeroed counters, the culled keys and their `VisitOrder`, which holds exactly the visible keys; the cache is untouched |
| Orchestration.DynamicTerrainManager.CullAndOrder | Assets/Scripts/PlanetTerrain/Runtime/Orchestration/DynamicTerrainManager.cs:290-304 | the visible keys are the provider's; the visiting order is their `VisitOrder` and holds exactly the visible keys |
| Orchestration.DynamicTerrainManager.VisitAndDrain | Assets/Scripts/PlanetTerrain/Runtime/Orchestration/DynamicTerrainManager.cs:306-364 | visiting then draining with the leftover budget gives `Outcome`: `Plan`'s created keys, its queued keys enqueued, then the first `DrainCount` queued keys created, with the counters and the remaining queue to match; it creates at most the budget, drains nothing in a pass that queued, shows every visited cached key and every new tile, and leaves unvisited entries unchanged |
| Orchestration.DynamicTerrainManager.VisitDrainSweep | Assets/Scripts/PlanetTerrain/Runtime/Orchestration/DynamicTerrainManager.cs:306-367 | the pass after ordering: `Outcome` for the visiting order; afterwards a cached tile is shown exactly when it was visited and cached before, or is new in the pass; without keep-all the cache is within capacity unless every tile is shown; every shown tile was touched at `now` |
| Orchestration.DynamicTerrainManager.DoVisibilityUpdate | Assets/Scripts/PlanetTerrain/Runtime/Orchestration/DynamicTerrainManager.cs:278-369 | the stamp grows by 1; `Outcome` for the visible keys in `VisitOrder`: the created keys are `Plan`'s (the first `max(maxCreatesPerFrame, 0)` uncached keys, by `PlanSplitsUncached`), the rest are enqueued, and the drain takes the first `DrainCount` of the queue, with the queue and counters to match; at most the budget is created and a pass that queued drains nothing; a cached tile ends shown exactly when it is visible and was cached before, or is new in the pass, and every other tile is hidden; without keep-all the cache is within capacity unless all of it is shown; every shown tile was touched at `now` |
| Orchestration.DynamicTerrainManager.Update | Assets/Scripts/PlanetTerrain/Runtime/Orchestration/DynamicTerrainManager.cs:250-256 | a pass runs exactly when on-demand culling is off, or the gate opens by the unscaled clock (forced, or the interval elapsed). With on-demand culling, a pass that ran leaves the detector snapshotted at the camera pose and `unscaledNow`, with the force flag cleared. Otherwise the detector is untouched. A pass that ran bumps the stamp and satisfies `PassDone`: the visible keys, `Outcome` for the visiting order (created, queued and drained keys, counters, queue), shown tiles exactly the visible ones cached before plus the new ones, each touched at the scaled clock `now`, and the capacity bound. With no pass, stamp, cache and queue are unchanged |
| Orchestration.DynamicTerrainManager.Start | Assets/Scripts/PlanetTerrain/Runtime/Orchestration/DynamicTerrainManager.cs:131-135 | forces the gate open for the next `Update`, leaves the snapshot as it is, bumps the stamp and runs one pass satisfying `PassDone` |
| Orchestration.DynamicTerrainManager.RequestCullingUpdate | Assets/Scripts/PlanetTerrain/Runtime/Orchestration/DynamicTerrainManager.cs:188 | an immediate request sets the force flag; otherwise nothing changes |
| Orchestration.DynamicTerrainManager.OnDisable | Assets/Scripts/PlanetTerrain/Runtime/Orchestration/DynamicTerrainManager.cs:395-399 | cache, pool and queue end empty; the destroyed objects are the cached tiles' and the pooled ones |
| Orchestration.Awake | Assets/Scripts/PlanetTerrain/Runtime/Orchestration/DynamicTerrainManager.cs:83-149 | a manager is built exactly when the shaper and camera are set, `T ≥ 1` and the face mapping validates, and it starts at stamp 0 with an empty cache and queue; otherwise it stays disabled |

## Left out

- Unity plumbing has no model beyond the handles' `active`/`enabled` flags:
  - `SetParent`, names, `AddComponent`, materials and material property blocks;
  - `ApplyPerTileMaterialParams` and `ApplyGlobalMaterialParamsToAll`;
  - the `ChunkActivated`/`ChunkDeactivated` events;
  - debug logging, warnings (missing compute shader, non-uniform scale, height scale without a map), the profiler marker, `OnGUI` and gizmos.
- `Destroy` of resources is modelled as dropping them. `DestroyAll` and `OnDisable` return the set of objects they destroy.
- Mesh construction (`SphereTile.ConstructTileMesh`) is not part of this model. The mesh a new tile turns out to have is an input (`MeshInfo`).
- Engine object allocation is a counter (`TileFactory.nextId`, three identities per `Create`).
- A pool entry destroyed behind the cache's back (a null popped by `RentFromPool`) is not modelled: pool entries are always live.
- `CameraChanged` (the position, rotation and field-of-view tests) is abstract: whether the camera moved is a boolean input. Only its position threshold is modelled (`PositionThreshold`).
- `ComputePriority` is abstract: the score is a function parameter.
- Floats are `real`s, without rounding, and `long` byte counts are unbounded integers.
- The frustum test (`CalculateFrustumPlanes`, `TestPlanesAABB`) is a predicate over a tile's box. Boxes are exact reals, so two boxes the engine's float arithmetic would round to the same value may differ in the model.
- In a tile box, the cube point is exact, but its normalisation onto the sphere is left symbolic.
- `GetPercents`: only length, indexing and memoisation are modelled. Entry `(x, y)` stands for `(x/(res−1), y/(res−1))`, and the values are not computed.
- Dictionary enumeration order in `SweepDeactivateStale` and `DestroyAll` is unspecified. The model picks some order, and its contracts hold for any order.
- The table path of `GetVisibleKeys` enumerates the table in insertion order (grid order). Its equality with the on-the-fly path is stated for that order.
- Orchestration.DynamicTerrainManager.OrderKeys: the model sorts by insertion sort, which keeps equal scores in culled order. `List.Sort` is unstable, so the engine may visit keys with equal priority in another order. `CullAndOrder`, `PreparePass` and `DoVisibilityUpdate`, which name this order, describe one of the orders the engine may produce. `SortByScoreSorted`, `SortByScorePermutes`, `PriorityOrder` and `CachedFirst` hold whatever the tie order.
- `DoVisibilityUpdate`: the drain callback runs after `Drain` rather than inside it. This is equivalent because the callback always returns true and never touches the scheduler.
- The manager's settings are fixed once built. `ApplyConfig`, `OnValidate` and the rebuild context menu are left out. `EffectiveRadius` is the manager's `radius` parameter.
- `Time.time` (`now`, read by the pass) and `Time.unscaledTime` (`unscaledNow`, read by the change detector) are separate parameters, and so is the camera's pose.
- `TileCache.SetActive` (obsolete), `Contains`, `TryGet`, `PoolSize` and `Pairs` are one-line accessors. `Contains` and `TryGet` are modelled as functions without a row.
- HeightSampler's bilinear sampling is not part of this model. A sampler is an opaque object bound to its texture.
- Culling.FrustumCullingProvider.GetVisibleKeys: its own contract states only the no-camera case. The rest is in `PrecomputeMatchesOnTheFly` and `VisibleKeysSound`.
- Culling.FrustumCullingProvider.VisibleKeysSound: no duplicates on the on-the-fly path is proved only for `T ≤ 65536`. Beyond that, keys wrap and repeat (`PathsDivergeBeyondKeyRange`).
- Culling.FrustumCullingProvider.constructor and Culling.FrustumCullingProvider.RebuildPrecompute: the table's initial capacity `T·T·6` is an `int` product that overflows for `T ≥ 18919`, so the engine throws or runs out of memory there. The model accepts every `T`. `PathsDivergeBeyondKeyRange` is about `T > 65536`, which the engine cannot reach for that reason: it documents the width of the key type, not a reachable state.
- Meshing.MeshCache.GetTriangles and Meshing.BuildTriangles: the buffer length `(res−1)²·6` is an `int` product that overflows for `res ≥ 18920`. The model's lengths are unbounded.
- Meshing.MeshCache.GetPercents and Meshing.BuildPercents: `res·res` overflows for `res ≥ 46341`. For `res = 1` the engine divides by zero (`1f/0` is +∞ and `0·∞` is NaN), so its single entry is `(NaN, NaN)`, while the model's entry is the grid coordinate `(0, 0)`.
