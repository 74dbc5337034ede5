/**
 * Tile creation: a scene object is rented from the cache's pool when one is
 * there and built new otherwise, equipped with a mesh and (when GPU
 * deformation is requested and a compute shader is set) an enabled deformer,
 * and handed back hidden, in a cache entry the caller owns. The mesh geometry
 * itself is an input: only what the byte estimate reads from it is modelled.
 */
module Creation {
  import opened Wrappers
  import opened TileKeys
  import opened Cache
  import opened HeightData

  /** The immutable settings for creating one tile (`TileCreateConfig`). */
  datatype TileCreateConfig = TileCreateConfig(
    key: TileKey,
    meshResolution: int,
    tilesPerSide: int,
    sphereRadius: real,
    heightMap: Option<Texture>,
    heightScale: real,
    uniformScale: real,
    useGpuDeformation: bool,
    currentVisStamp: int)

  /**
   * What the byte estimate reads from a mesh: its vertex count, whether it
   * has tangents, whether its indices are 16-bit, the index count of each
   * sub-mesh, and the length of its triangle array (0 when there is none).
   */
  datatype MeshInfo = MeshInfo(
    vertexCount: nat,
    hasTangents: bool,
    uint16Indices: bool,
    subMeshIndexCounts: seq<nat>,
    triangleIndexCount: nat)

  /** Bytes per vertex: position, normal and uv, plus a tangent when present. */
  function VertexSize(hasTangents: bool): nat {
    12 + 12 + 8 + (if hasTangents then 16 else 0)
  }

  /** Bytes per index. */
  function IndexSize(uint16Indices: bool): nat {
    if uint16Indices then 2 else 4
  }

  function Sum(cs: seq<nat>): nat {
    if cs == [] then 0 else Sum(cs[..|cs| - 1]) + cs[|cs| - 1]
  }

  /** The number of indices the estimate counts: the sub-meshes' total, or the triangle array without sub-meshes. */
  function IndexCount(m: MeshInfo): nat {
    if |m.subMeshIndexCounts| > 0 then Sum(m.subMeshIndexCounts) else m.triangleIndexCount
  }

  /** The footprint `EstimateMeshBytes` reports: vertex bytes plus index bytes, 0 without a mesh. */
  function MeshBytes(m: Option<MeshInfo>): nat {
    match m
    case None => 0
    case Some(info) => info.vertexCount * VertexSize(info.hasTangents) + IndexCount(info) * IndexSize(info.uint16Indices)
  }

  /**
   * Tangents cost exactly 16 more bytes per vertex, 32-bit indices exactly 2
   * more bytes per index, so every estimate lies between the all-small and
   * the all-large layout.
   */
  lemma MeshBytesLayout(info: MeshInfo)
    ensures var v, n := info.vertexCount, IndexCount(info);
            && 32 * v + 2 * n <= MeshBytes(Some(info)) <= 48 * v + 4 * n
            && MeshBytes(Some(info.(hasTangents := true))) == MeshBytes(Some(info.(hasTangents := false))) + 16 * v
            && MeshBytes(Some(info.(uint16Indices := false))) == MeshBytes(Some(info.(uint16Indices := true))) + 2 * n
  {
  }

  /** A mesh without sub-meshes is estimated from its triangle array; one with sub-meshes ignores it. */
  lemma SubMeshesTakePrecedence(info: MeshInfo, t: nat)
    ensures |info.subMeshIndexCounts| > 0 ==>
              MeshBytes(Some(info.(triangleIndexCount := t))) == MeshBytes(Some(info))
    ensures |info.subMeshIndexCounts| == 0 ==>
              MeshBytes(Some(info)) == info.vertexCount * VertexSize(info.hasTangents) + info.triangleIndexCount * IndexSize(info.uint16Indices)
  {
  }

  /**
   * `EstimateMeshBytes`: the vertex bytes, plus the index bytes summed
   * sub-mesh by sub-mesh, or taken from the triangle array when there are
   * no sub-meshes.
   */
  method EstimateMeshBytes(m: Option<MeshInfo>) returns (bytes: int)
    ensures bytes == MeshBytes(m)
  {
    if m.None? {
      return 0;
    }
    var info := m.value;
    var v := info.vertexCount;
    var perVertex := VertexSize(info.hasTangents);
    var vertsBytes := v * perVertex;
    var indexBytes := 0;
    var subCount := |info.subMeshIndexCounts|;
    if subCount > 0 {
      var i := 0;
      while i < subCount
        invariant 0 <= i <= subCount
        invariant indexBytes == Sum(info.subMeshIndexCounts[..i]) * IndexSize(info.uint16Indices)
      {
        var ic := info.subMeshIndexCounts[i];
        var indexSize := IndexSize(info.uint16Indices);
        assert info.subMeshIndexCounts[..i + 1][..i] == info.subMeshIndexCounts[..i];
        indexBytes := indexBytes + ic * indexSize;
        i := i + 1;
      }
      assert info.subMeshIndexCounts[..subCount] == info.subMeshIndexCounts;
    } else {
      var indexCount := info.triangleIndexCount;
      var indexSize := IndexSize(info.uint16Indices);
      indexBytes := indexCount * indexSize;
    }
    return vertsBytes + indexBytes;
  }

  /**
   * The scene object `Create` hands out. `top` is the object rented from the
   * pool, if any; `wants` is whether an enabled deformer is required; `id` is
   * the first identity available for newly allocated objects.
   *
   * A rented object keeps its identity, its mesh (a new one when it had none)
   * and its deformer, which is enabled or disabled as required (one is added
   * when required and missing). A new object gets a new mesh and a deformer
   * only when one is required.
   */
  function Prepared(top: Option<GameObject>, wants: bool, id: nat): (g: GameObject)
    ensures !g.active && g.mesh.Some?
    ensures (g.deformer.Some? && g.deformer.value.enabled) <==> wants
    ensures top.None? ==> (g.deformer.Some? <==> wants)
    ensures top.Some? ==> g.id == top.value.id
    ensures top.Some? && top.value.mesh.Some? ==> g.mesh == top.value.mesh
    ensures top.Some? && top.value.deformer.Some? ==>
              g.deformer.Some? && g.deformer.value.id == top.value.deformer.value.id
    ensures top.Some? && top.value.deformer.None? && !wants ==> g.deformer.None?
  {
    match top
    case Some(p) =>
      var mesh := if p.mesh.Some? then p.mesh else Some(MeshHandle(id));
      var deformer :=
        if wants then Some(if p.deformer.Some? then p.deformer.value.(enabled := true) else Deformer(id + 1, true))
        else if p.deformer.Some? then Some(p.deformer.value.(enabled := false))
        else None;
      p.(active := false, mesh := mesh, deformer := deformer)
    case None =>
      GameObject(id, false, Some(MeshHandle(id + 1)), if wants then Some(Deformer(id + 2, true)) else None)
  }

  /** The entry `Create` returns for scene object `g`: inactive, stamped with the pass it was created in. */
  function ChunkFor(cfg: TileCreateConfig, g: GameObject, sizeBytes: int, now: real): CachedChunk {
    CachedChunk(
      cfg.key,
      Some(g),
      g.mesh,
      if g.deformer.Some? then Some(g.deformer.value.id) else None,
      sizeBytes,
      now,
      false,
      cfg.currentVisStamp)
  }

  /**
   * Every entry `Create` returns is for the requested key, inactive in its
   * flag and in its scene object, stamped with the requested pass, holds a
   * mesh, and names an enabled deformer exactly when one was required.
   */
  lemma CreatedChunkShape(cfg: TileCreateConfig, top: Option<GameObject>, wants: bool, id: nat, sizeBytes: int, now: real)
    ensures var c := ChunkFor(cfg, Prepared(top, wants, id), sizeBytes, now);
            && c.key == cfg.key && !c.isActive && c.lastVisibleStamp == cfg.currentVisStamp
            && c.go.Some? && !c.go.value.active
            && c.mesh.Some? && c.mesh == c.go.value.mesh
            && (c.deformer.Some? <==> c.go.value.deformer.Some?)
            && (wants <==> c.go.value.deformer.Some? && c.go.value.deformer.value.enabled)
  {
  }

  /** The pool's top object, if there is a cache and its pool is not empty. */
  function Top(pool: seq<GameObject>): Option<GameObject> {
    if pool == [] then None else Some(pool[|pool| - 1])
  }

  class TileFactory {
    /** The cache whose pool is rented from; there may be none. */
    const cache: TileCache?
    /** Whether a deformation compute shader was supplied. */
    const hasDeformShader: bool
    var statsRentedFromPoolThisFrame: int
    var statsNewCreatedThisFrame: int
    /** Identity of the next newly allocated object (stands in for the engine's allocator). */
    var nextId: nat

    constructor (cache: TileCache?, hasDeformShader: bool)
      ensures this.cache == cache && this.hasDeformShader == hasDeformShader
      ensures statsRentedFromPoolThisFrame == 0 && statsNewCreatedThisFrame == 0
    {
      this.cache := cache;
      this.hasDeformShader := hasDeformShader;
      statsRentedFromPoolThisFrame := 0;
      statsNewCreatedThisFrame := 0;
      nextId := 0;
    }

    method ResetFrameStats()
      modifies this`statsRentedFromPoolThisFrame, this`statsNewCreatedThisFrame
      ensures statsRentedFromPoolThisFrame == 0 && statsNewCreatedThisFrame == 0
    {
      statsRentedFromPoolThisFrame := 0;
      statsNewCreatedThisFrame := 0;
    }

    /**
     * Creates the tile for `cfg`, whose mesh turns out as `shape`, at time
     * `now`. It rents the pool's top object when there is a cache and its
     * pool is not empty, and counts exactly one of a rental and a new
     * creation. The cache's entries and LRU list are not touched: the
     * returned entry is the caller's to insert.
     */
    method Create(cfg: TileCreateConfig, shape: MeshInfo, now: real) returns (chunk: CachedChunk)
      modifies this, cache
      ensures cache != null ==>
                && cache.entries == old(cache.entries) && cache.lru == old(cache.lru)
                && cache.statsPooledThisFrame == old(cache.statsPooledThisFrame)
                && cache.pool == (if old(cache.pool) == [] then [] else old(cache.pool)[..|old(cache.pool)| - 1])
                && (old(cache.Valid()) ==> cache.Valid())
      ensures var top := if cache == null then None else Top(old(cache.pool));
              && chunk == ChunkFor(cfg, Prepared(top, cfg.useGpuDeformation && hasDeformShader, old(nextId)), MeshBytes(Some(shape)), now)
              && (top.Some? ==> statsRentedFromPoolThisFrame == old(statsRentedFromPoolThisFrame) + 1
                                && statsNewCreatedThisFrame == old(statsNewCreatedThisFrame))
              && (top.None? ==> statsNewCreatedThisFrame == old(statsNewCreatedThisFrame) + 1
                                && statsRentedFromPoolThisFrame == old(statsRentedFromPoolThisFrame))
      ensures nextId == old(nextId) + 3
    {
      var go: Option<GameObject> := None;
      if cache != null {
        go := cache.RentFromPool();
      }
      var wants := cfg.useGpuDeformation && hasDeformShader;
      var g: GameObject;
      if go.Some? {
        statsRentedFromPoolThisFrame := statsRentedFromPoolThisFrame + 1;
        g := Prepared(go, wants, nextId);
      } else {
        statsNewCreatedThisFrame := statsNewCreatedThisFrame + 1;
        g := Prepared(None, wants, nextId);
      }
      nextId := nextId + 3;
      var sizeBytes := EstimateMeshBytes(Some(shape));
      chunk := ChunkFor(cfg, g, sizeBytes, now);
    }

    /** The parameter-list overload: builds the same settings and delegates to `Create`. */
    method CreateFrom(key: TileKey, meshResolution: int, tilesPerSide: int, sphereRadius: real,
                      heightMap: Option<Texture>, heightScale: real, uniformScale: real,
                      useGpuDeformation: bool, currentVisStamp: int, shape: MeshInfo, now: real)
      returns (chunk: CachedChunk)
      modifies this, cache
      ensures cache != null ==>
                && cache.entries == old(cache.entries) && cache.lru == old(cache.lru)
                && cache.statsPooledThisFrame == old(cache.statsPooledThisFrame)
                && cache.pool == (if old(cache.pool) == [] then [] else old(cache.pool)[..|old(cache.pool)| - 1])
                && (old(cache.Valid()) ==> cache.Valid())
      ensures var cfg := TileCreateConfig(key, meshResolution, tilesPerSide, sphereRadius, heightMap,
                                          heightScale, uniformScale, useGpuDeformation, currentVisStamp);
              var top := if cache == null then None else Top(old(cache.pool));
              && chunk == ChunkFor(cfg, Prepared(top, useGpuDeformation && hasDeformShader, old(nextId)), MeshBytes(Some(shape)), now)
              && (top.Some? ==> statsRentedFromPoolThisFrame == old(statsRentedFromPoolThisFrame) + 1
                                && statsNewCreatedThisFrame == old(statsNewCreatedThisFrame))
              && (top.None? ==> statsNewCreatedThisFrame == old(statsNewCreatedThisFrame) + 1
                                && statsRentedFromPoolThisFrame == old(statsRentedFromPoolThisFrame))
      ensures nextId == old(nextId) + 3
    {
      var cfg := TileCreateConfig(key, meshResolution, tilesPerSide, sphereRadius, heightMap,
                                  heightScale, uniformScale, useGpuDeformation, currentVisStamp);
      chunk := Create(cfg, shape, now);
    }
  }
}
