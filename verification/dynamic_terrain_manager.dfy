/**
 * The per-tick orchestrator: a refresh gate, then one visibility pass that
 * stamps the pass, culls, optionally orders the visible keys by priority,
 * activates cached tiles, creates up to a per-pass budget of new ones and
 * queues the rest, drains the queue with what is left of the budget, turns
 * off tiles not seen in the pass and enforces the cache's capacity.
 *
 * The camera's frustum test, the priority score of a tile and the mesh a new
 * tile turns out to have are inputs of a pass; so are the clock and whether
 * the camera moved.
 */
module Orchestration {
  import opened Wrappers
  import opened Seqs
  import opened TileKeys
  import opened Cache
  import opened Scheduling
  import opened Creation
  import FaceAxes
  import HeightData
  import Culling
  import ChangeDetection

  // ---------------------------------------------------------------------
  // Settings
  // ---------------------------------------------------------------------

  /** The manager's serialized settings, as they stand once the pass loop runs. */
  datatype Settings = Settings(
    meshResolution: int,
    tilesPerSide: int,
    heightMap: Option<HeightData.Texture>,
    heightScale: real,
    uniformScale: real,
    useGpuDeformation: bool,
    hasComputeShader: bool,
    maxCreatesPerFrame: int,
    precomputeCulling: bool,
    onDemandCulling: bool,
    minUpdateInterval: real,
    idleUpdateInterval: real,
    posEpsRelative: real,
    angEpsDeg: real,
    fovEpsDeg: real,
    cacheAllGenerated: bool,
    maxCachedTiles: int,
    usePriorityScheduling: bool)

  /**
   * `Validate`: the sphere shaper and the viewer camera must be set and there
   * must be at least one tile per side. (A missing compute shader only warns.)
   */
  predicate Validate(hasShaper: bool, hasCamera: bool, tilesPerSide: int) {
    hasShaper && hasCamera && tilesPerSide >= 1
  }

  /** The smallest dot product accepted between a face's table normal and `GetAxes`'s normal. */
  const FaceDotTolerance: real := 0.999

  /**
   * Face `f`'s table normal agrees with the normal `GetAxes` derives for it.
   * Both are unit axis vectors, so normalising them leaves them unchanged.
   */
  predicate FaceMatches(f: nat)
    requires f < 6
  {
    FaceAxes.Dot(FaceAxes.FaceUp[f], FaceAxes.GetAxes(f as byte).localUp) as real >= FaceDotTolerance
  }

  /** Face `f`'s normal and its two axes, as `GetAxes` derives them, are pairwise orthogonal. */
  predicate FaceOrthogonal(f: nat)
    requires f < 6
  {
    var fr := FaceAxes.GetAxes(f as byte);
    FaceAxes.Dot(fr.localUp, fr.axisA) == 0 && FaceAxes.Dot(fr.localUp, fr.axisB) == 0
    && FaceAxes.Dot(fr.axisA, fr.axisB) == 0
  }

  /**
   * The mapping check cannot fail: every face's normal is its table normal,
   * and it and the face's two axes are exactly orthogonal unit axis vectors,
   * so neither the mismatch error nor the orthogonality-drift warning fires.
   */
  lemma FaceAxesMappingHolds()
    ensures forall f :: 0 <= f < 6 ==> FaceMatches(f) && FaceOrthogonal(f)
  {
    forall f | 0 <= f < 6
      ensures FaceMatches(f) && FaceOrthogonal(f)
    {
      var up := FaceAxes.GetAxes(f as byte).localUp;
      assert up == FaceAxes.FaceUp[f];
      assert FaceAxes.Dot(up, up) == 1;
    }
  }

  /** `ValidateFaceAxesMapping`: checks each face in turn and fails at the first mismatch. */
  method ValidateFaceAxesMapping() returns (ok: bool)
    ensures ok <==> forall f :: 0 <= f < 6 ==> FaceMatches(f)
  {
    for face := 0 to 6
      invariant forall f :: 0 <= f < face ==> FaceMatches(f)
    {
      var frame := FaceAxes.GetAxes(face as byte);
      var dot := FaceAxes.Dot(FaceAxes.FaceUp[face], frame.localUp);
      if (dot as real) < FaceDotTolerance {
        return false;
      }
    }
    return true;
  }

  // ---------------------------------------------------------------------
  // Priority ordering
  // ---------------------------------------------------------------------

  /** A tile's priority score: `+∞` for cached tiles, otherwise a finite score. */
  datatype Priority = Infinite | Finite(value: real)

  /** `a` ranks at least as high as `b`. */
  predicate AtLeast(a: Priority, b: Priority) {
    a.Infinite? || (b.Finite? && a.value >= b.value)
  }

  /** A visible key with its score (`KeyWithPriority`). */
  datatype Ranked = Ranked(key: TileKey, score: Priority)

  function Score(key: TileKey, cached: set<TileKey>, priority: TileKey -> real): Priority {
    if key in cached then Infinite else Finite(priority(key))
  }

  /** The visible keys with their scores, in visiting order. */
  function Ranking(keys: seq<TileKey>, cached: set<TileKey>, priority: TileKey -> real): seq<Ranked> {
    seq(|keys|, i requires 0 <= i < |keys| => Ranked(keys[i], Score(keys[i], cached, priority)))
  }

  /** Non-increasing in score. */
  predicate Descending(rs: seq<Ranked>) {
    forall i, j :: 0 <= i < j < |rs| ==> AtLeast(rs[i].score, rs[j].score)
  }

  function InsertByScore(r: Ranked, rs: seq<Ranked>): seq<Ranked> {
    if rs == [] || AtLeast(r.score, rs[0].score) then [r] + rs
    else [rs[0]] + InsertByScore(r, rs[1..])
  }

  /**
   * The list sort by descending score, as an insertion sort that keeps equal
   * scores in their culled order. The engine's sort is not stable, so it may
   * order equal scores differently; `SortByScoreSorted`, `SortByScorePermutes`
   * and `CachedFirst` hold for any such order.
   */
  function SortByScore(rs: seq<Ranked>): seq<Ranked> {
    if rs == [] then [] else InsertByScore(rs[0], SortByScore(rs[1..]))
  }

  /** The keys of a ranked list, in its order. */
  function KeysOf(rs: seq<Ranked>): (ks: seq<TileKey>)
    ensures |ks| == |rs|
  {
    if rs == [] then [] else [rs[0].key] + KeysOf(rs[1..])
  }

  lemma {:induction false} KeysOfRanking(keys: seq<TileKey>, cached: set<TileKey>, priority: TileKey -> real)
    ensures KeysOf(Ranking(keys, cached, priority)) == keys
  {
    if keys != [] {
      KeysOfRanking(keys[1..], cached, priority);
      assert Ranking(keys, cached, priority)[1..] == Ranking(keys[1..], cached, priority);
    }
  }

  lemma {:induction false} InsertByScorePermutes(r: Ranked, rs: seq<Ranked>)
    ensures multiset(InsertByScore(r, rs)) == multiset([r] + rs)
  {
    if rs != [] && !AtLeast(r.score, rs[0].score) {
      InsertByScorePermutes(r, rs[1..]);
      calc {
        multiset(InsertByScore(r, rs));
        multiset([rs[0]]) + multiset(InsertByScore(r, rs[1..]));
        multiset([rs[0]]) + multiset([r]) + multiset(rs[1..]);
        { assert rs == [rs[0]] + rs[1..]; }
        multiset([r] + rs);
      }
    }
  }

  lemma {:induction false} InsertByScoreKeys(r: Ranked, rs: seq<Ranked>)
    ensures multiset(KeysOf(InsertByScore(r, rs))) == multiset([r.key] + KeysOf(rs))
  {
    if rs != [] && !AtLeast(r.score, rs[0].score) {
      var tail := InsertByScore(r, rs[1..]);
      InsertByScoreKeys(r, rs[1..]);
      calc {
        multiset(KeysOf(InsertByScore(r, rs)));
        { assert InsertByScore(r, rs) == [rs[0]] + tail; }
        multiset(KeysOf([rs[0]] + tail));
        { assert ([rs[0]] + tail)[1..] == tail; }
        multiset([rs[0].key] + KeysOf(tail));
        multiset([rs[0].key]) + multiset([r.key]) + multiset(KeysOf(rs[1..]));
        multiset([r.key] + KeysOf(rs));
      }
    }
  }

  lemma {:induction false} InsertByScoreSorted(r: Ranked, rs: seq<Ranked>)
    requires Descending(rs)
    ensures Descending(InsertByScore(r, rs))
  {
    if rs != [] && !AtLeast(r.score, rs[0].score) {
      var tail := InsertByScore(r, rs[1..]);
      InsertByScoreSorted(r, rs[1..]);
      InsertByScorePermutes(r, rs[1..]);
      var out := [rs[0]] + tail;
      forall i, j | 0 <= i < j < |out|
        ensures AtLeast(out[i].score, out[j].score)
      {
        if i == 0 {
          var x := tail[j - 1];
          assert x in multiset([r] + rs[1..]);
          if x != r {
            assert x in rs[1..];
          }
        } else {
          assert out[i] == tail[i - 1] && out[j] == tail[j - 1];
        }
      }
    }
  }

  lemma {:induction false} SortByScoreSorted(rs: seq<Ranked>)
    ensures Descending(SortByScore(rs))
  {
    if rs != [] {
      SortByScoreSorted(rs[1..]);
      InsertByScoreSorted(rs[0], SortByScore(rs[1..]));
    }
  }

  lemma {:induction false} SortByScorePermutes(rs: seq<Ranked>)
    ensures multiset(SortByScore(rs)) == multiset(rs)
    ensures multiset(KeysOf(SortByScore(rs))) == multiset(KeysOf(rs))
  {
    if rs != [] {
      var sorted := SortByScore(rs[1..]);
      SortByScorePermutes(rs[1..]);
      calc {
        multiset(SortByScore(rs));
        { InsertByScorePermutes(rs[0], sorted); }
        multiset([rs[0]]) + multiset(sorted);
        multiset([rs[0]]) + multiset(rs[1..]);
        { assert rs == [rs[0]] + rs[1..]; }
        multiset(rs);
      }
      calc {
        multiset(KeysOf(SortByScore(rs)));
        { InsertByScoreKeys(rs[0], sorted); }
        multiset([rs[0].key]) + multiset(KeysOf(sorted));
        multiset([rs[0].key]) + multiset(KeysOf(rs[1..]));
        multiset(KeysOf(rs));
      }
    }
  }

  /**
   * With priority scheduling on, the visiting order is a permutation of the
   * visible keys in non-increasing score order.
   */
  lemma PriorityOrder(keys: seq<TileKey>, cached: set<TileKey>, priority: TileKey -> real)
    ensures var ordered := SortByScore(Ranking(keys, cached, priority));
            && Descending(ordered)
            && multiset(ordered) == multiset(Ranking(keys, cached, priority))
            && multiset(KeysOf(ordered)) == multiset(keys)
  {
    var rk := Ranking(keys, cached, priority);
    SortByScoreSorted(rk);
    SortByScorePermutes(rk);
    KeysOfRanking(keys, cached, priority);
  }

  /** A ranked key scores `+∞` exactly when it is cached. */
  lemma RankingScores(keys: seq<TileKey>, cached: set<TileKey>, priority: TileKey -> real, x: Ranked)
    requires x in multiset(Ranking(keys, cached, priority))
    ensures x.score.Infinite? <==> x.key in cached
  {
    var rk := Ranking(keys, cached, priority);
    assert x in rk;
  }

  /** In the priority order every cached key comes before every key that is not cached. */
  lemma CachedFirst(keys: seq<TileKey>, cached: set<TileKey>, priority: TileKey -> real)
    ensures var ordered := SortByScore(Ranking(keys, cached, priority));
            forall i, j :: 0 <= i < j < |ordered| && ordered[j].key in cached ==> ordered[i].key in cached
  {
    var rk := Ranking(keys, cached, priority);
    var ordered := SortByScore(rk);
    SortByScoreSorted(rk);
    SortByScorePermutes(rk);
    forall i, j | 0 <= i < j < |ordered| && ordered[j].key in cached
      ensures ordered[i].key in cached
    {
      RankingScores(keys, cached, priority, ordered[j]);
      RankingScores(keys, cached, priority, ordered[i]);
      assert AtLeast(ordered[i].score, ordered[j].score);
    }
  }

  // ---------------------------------------------------------------------
  // The activate / create / enqueue decision
  // ---------------------------------------------------------------------

  /** What the visiting loop has done so far: the keys it created and the keys it queued. */
  datatype Tally = Tally(created: seq<TileKey>, queued: seq<TileKey>)

  /**
   * One visited key: a cached key (cached before the pass, or created earlier
   * in it) is activated; otherwise it is created while the budget lasts and
   * queued after.
   */
  function Route(t: Tally, key: TileKey, cached: set<TileKey>, maxCreates: int): Tally {
    if key in cached || key in t.created then t
    else if |t.created| < maxCreates then t.(created := t.created + [key])
    else t.(queued := t.queued + [key])
  }

  /** The loop's decisions over `keys`, given the keys cached when the pass began. */
  function Plan(keys: seq<TileKey>, cached: set<TileKey>, maxCreates: int): Tally {
    if keys == [] then Tally([], [])
    else Route(Plan(keys[..|keys| - 1], cached, maxCreates), keys[|keys| - 1], cached, maxCreates)
  }

  lemma PlanStep(keys: seq<TileKey>, cached: set<TileKey>, maxCreates: int, i: nat)
    requires i < |keys|
    ensures Plan(keys[..i + 1], cached, maxCreates) == Route(Plan(keys[..i], cached, maxCreates), keys[i], cached, maxCreates)
  {
    assert keys[..i + 1][..i] == keys[..i];
  }

  function Max0(n: int): nat {
    if n < 0 then 0 else n
  }

  /**
   * The loop creates at most `max(maxCreatesPerFrame, 0)` tiles, and it
   * queues a key only once the budget is used up.
   */
  lemma {:induction false} PlanBudget(keys: seq<TileKey>, cached: set<TileKey>, maxCreates: int)
    ensures var t := Plan(keys, cached, maxCreates);
            && |t.created| <= Max0(maxCreates)
            && (|t.queued| > 0 ==> |t.created| >= maxCreates)
  {
    if keys != [] {
      PlanBudget(keys[..|keys| - 1], cached, maxCreates);
    }
  }

  /**
   * Every visited key is activated, created or queued; created keys were not
   * cached and are created once; queued keys were neither cached nor created.
   */
  lemma {:induction false} PlanPartition(keys: seq<TileKey>, cached: set<TileKey>, maxCreates: int)
    ensures var t := Plan(keys, cached, maxCreates);
            && NoDup(t.created)
            && (forall k :: k in t.created ==> k in keys && k !in cached)
            && (forall k :: k in t.queued ==> k in keys && k !in cached && k !in t.created)
            && (forall k :: k in keys ==> k in cached || k in t.created || k in t.queued)
  {
    if keys != [] {
      var init, k := keys[..|keys| - 1], keys[|keys| - 1];
      PlanPartition(init, cached, maxCreates);
      PlanBudget(init, cached, maxCreates);
      var t := Plan(init, cached, maxCreates);
      assert keys == init + [k];
      if !(k in cached || k in t.created) && |t.created| < maxCreates {
        NoDupConcat(t.created, [k]);
        assert t.queued == [];
      }
    }
  }

  /** The keys of `keys` that are not in `cached`, in order. */
  function Uncached(keys: seq<TileKey>, cached: set<TileKey>): seq<TileKey> {
    if keys == [] then []
    else Uncached(keys[..|keys| - 1], cached) + (if keys[|keys| - 1] in cached then [] else [keys[|keys| - 1]])
  }

  /**
   * Without repeated keys, the loop creates the first `max(maxCreatesPerFrame, 0)`
   * uncached keys in visiting order and queues the others.
   */
  lemma {:induction false} PlanSplitsUncached(keys: seq<TileKey>, cached: set<TileKey>, maxCreates: int)
    requires NoDup(keys)
    ensures var t, u := Plan(keys, cached, maxCreates), Uncached(keys, cached);
            && t.created + t.queued == u
            && |t.created| == (if |u| < Max0(maxCreates) then |u| else Max0(maxCreates))
  {
    if keys != [] {
      var init, k := keys[..|keys| - 1], keys[|keys| - 1];
      NoDupPrefix(keys, |keys| - 1);
      NoDupAt(keys, |keys| - 1);
      PlanSplitsUncached(init, cached, maxCreates);
      PlanPartition(init, cached, maxCreates);
      PlanBudget(init, cached, maxCreates);
      var t := Plan(init, cached, maxCreates);
      assert k !in t.created;
      if k !in cached && |t.created| < maxCreates {
        assert t.queued == [];
      }
    }
  }

  /** The queue after `EnqueueIfAbsent` on each of `ks` in turn. */
  function EnqueueAll(q: seq<TileKey>, ks: seq<TileKey>): seq<TileKey> {
    if ks == [] then q else Enqueued(EnqueueAll(q, ks[..|ks| - 1]), ks[|ks| - 1])
  }

  /** The drain callback: it creates the tile and always reports success. */
  function AlwaysCreated(k: TileKey): bool {
    true
  }

  /** How many keys the drain step takes from a queue of `len` keys with `budget` left, every creation succeeding. */
  function DrainCount(budget: int, len: nat): (n: nat)
    ensures n <= len && n <= Max0(budget)
  {
    if budget <= 0 then 0 else if budget < len then budget else len
  }

  /** The order in which a pass visits `visible`: as culled, or by non-increasing score with priority scheduling. */
  function VisitOrder(visible: seq<TileKey>, cached: set<TileKey>, priority: TileKey -> real, byPriority: bool): seq<TileKey> {
    if byPriority then KeysOf(SortByScore(Ranking(visible, cached, priority))) else visible
  }

  // ---------------------------------------------------------------------
  // The manager
  // ---------------------------------------------------------------------

  class DynamicTerrainManager {
    const settings: Settings
    /** `EffectiveRadius`, fixed for the session. */
    const radius: real
    const cache: TileCache
    const factory: TileFactory
    const culling: Culling.FrustumCullingProvider
    const detector: ChangeDetection.CameraChangeDetector
    const scheduler: TerrainUpdateScheduler

    var visStamp: int
    var createdThisFrame: int
    var queuedThisFrame: int
    var drainedThisFrame: int

    /** The components are set up; every cached tile holds a scene object and was last seen no later than now. */
    ghost predicate Valid()
      reads this, cache, scheduler, culling, culling.axisA, culling.axisB
    {
      cache.Valid() && Components() && Stamped()
    }

    /** The other components are set up, and the factory rents from the manager's cache. */
    ghost predicate Components()
      reads this, scheduler, culling, culling.axisA, culling.axisB
    {
      scheduler.Valid() && culling.Valid() && detector.Valid() && factory.cache == cache
    }

    ghost predicate Stamped()
      reads this, cache
    {
      forall k :: k in cache.entries ==> cache.entries[k].go.Some? && cache.entries[k].lastVisibleStamp <= visStamp
    }

    /** Every tile stamped with the current pass is shown. */
    ghost predicate SeenActive()
      reads this, cache
    {
      forall k :: k in cache.entries && cache.entries[k].lastVisibleStamp == visStamp ==> cache.entries[k].isActive
    }

    /**
     * The construction part of `Awake`, reached once validation has passed:
     * the cache, the factory over it, the culling provider with its table
     * rebuilt for the current radius, the change detector and the scheduler.
     */
    constructor (s: Settings, radius: real, cam: ChangeDetection.CameraPose, unscaledNow: real)
      requires s.tilesPerSide >= 1
      ensures Valid() && settings == s && this.radius == radius
      ensures detector.lastTime == unscaledNow && !detector.force
      ensures visStamp == 0 && createdThisFrame == 0 && queuedThisFrame == 0 && drainedThisFrame == 0
      ensures cache.entries == map[] && cache.pool == [] && scheduler.queue == []
      ensures cache.maxTiles == Max0(s.maxCachedTiles - 1) + 1 && cache.keepAll == s.cacheAllGenerated
      ensures factory.hasDeformShader == (s.useGpuDeformation && s.hasComputeShader)
      ensures culling.tilesPerSide == s.tilesPerSide && culling.precomputeEnabled == s.precomputeCulling
      ensures culling.sphereRadius == radius && culling.heightMap == s.heightMap
      ensures culling.precomputeEnabled ==>
                culling.pre == Culling.TableOf(culling.CurrentLayout(), Culling.Grid(s.tilesPerSide))
                && culling.preOrder == Culling.OrderOf(Culling.Grid(s.tilesPerSide))
    {
      settings := s;
      this.radius := radius;
      var c := new TileCache(s.maxCachedTiles, s.cacheAllGenerated);
      cache := c;
      factory := new TileFactory(c, s.useGpuDeformation && s.hasComputeShader);
      var cull := new Culling.FrustumCullingProvider(s.tilesPerSide, s.precomputeCulling);
      cull.RebuildPrecompute(radius, s.heightMap, s.heightScale, s.uniformScale, s.tilesPerSide);
      culling := cull;
      detector := new ChangeDetection.CameraChangeDetector(cam, unscaledNow, s.minUpdateInterval, s.idleUpdateInterval,
                                                           s.posEpsRelative, s.angEpsDeg, s.fovEpsDeg);
      scheduler := new TerrainUpdateScheduler();
      visStamp := 0;
      createdThisFrame, queuedThisFrame, drainedThisFrame := 0, 0, 0;
    }

    /** The settings of a tile created in the current pass. */
    function Config(key: TileKey): (cfg: TileCreateConfig)
      reads this`visStamp
      ensures cfg.key == key && cfg.currentVisStamp == visStamp
    {
      TileCreateConfig(key, settings.meshResolution, settings.tilesPerSide, radius, settings.heightMap,
                       settings.heightScale, settings.uniformScale, settings.useGpuDeformation, visStamp)
    }

    /**
     * Creates the tile for `key`, whose mesh turns out as `shape`, and hands
     * it to the cache. If the cache already holds the key, `Put` refuses the
     * new tile, whose resources are destroyed: nothing is activated and the
     * object taken from the pool (if any) is gone. Otherwise the tile is
     * inserted and activated with the current stamp.
     */
    method CreateAndActivate(key: TileKey, now: real, shape: MeshInfo) returns (chunk: CachedChunk, ok: bool)
      requires Valid()
      modifies cache, factory
      ensures Valid()
      ensures chunk == ChunkFor(Config(key), Prepared(Top(old(cache.pool)), settings.useGpuDeformation && factory.hasDeformShader,
                                                      old(factory.nextId)), MeshBytes(Some(shape)), now)
      ensures ok <==> key !in old(cache.entries)
      ensures ok ==> cache.entries == old(cache.entries)[key := Activated(chunk, now, visStamp)]
                     && cache.lru == old(cache.lru) + [key]
      ensures !ok ==> cache.entries == old(cache.entries) && cache.lru == old(cache.lru)
      ensures cache.pool == if old(cache.pool) == [] then [] else old(cache.pool)[..|old(cache.pool)| - 1]
    {
      chunk := factory.Create(Config(key), shape, now);
      ok := Adopt(chunk, now);
    }

    /** Hands a tile created in this pass to the cache and, if it was taken, activates it. */
    method Adopt(chunk: CachedChunk, now: real) returns (ok: bool)
      requires cache.Valid() && Stamped()
      requires chunk.go.Some? && chunk.lastVisibleStamp == visStamp
      modifies cache
      ensures cache.Valid() && Stamped()
      ensures ok <==> chunk.key !in old(cache.entries)
      ensures ok ==> cache.entries == old(cache.entries)[chunk.key := Activated(chunk, now, visStamp)]
                     && cache.lru == old(cache.lru) + [chunk.key]
      ensures !ok ==> cache.entries == old(cache.entries) && cache.lru == old(cache.lru)
      ensures cache.pool == old(cache.pool)
    {
      ok := cache.Put(chunk);
      if !ok {
        return;
      }
      ghost var lru1 := cache.lru;
      var activated := cache.Activate(chunk.key, now, visStamp);
      MoveLastToBack(lru1);
    }

    /** Stamps a new pass and zeroes the per-pass counters of the manager, the factory and the cache. */
    method BeginPass()
      requires Valid()
      modifies this`visStamp, this`createdThisFrame, this`queuedThisFrame, this`drainedThisFrame
      modifies factory`statsRentedFromPoolThisFrame, factory`statsNewCreatedThisFrame, cache`statsPooledThisFrame
      ensures Valid() && SeenActive()
      ensures visStamp == old(visStamp) + 1
      ensures createdThisFrame == 0 && queuedThisFrame == 0 && drainedThisFrame == 0
      ensures factory.statsRentedFromPoolThisFrame == 0 && factory.statsNewCreatedThisFrame == 0
      ensures cache.statsPooledThisFrame == 0
      ensures forall k :: k in cache.entries ==> cache.entries[k].lastVisibleStamp < visStamp
    {
      visStamp := visStamp + 1;
      createdThisFrame, queuedThisFrame, drainedThisFrame := 0, 0, 0;
      factory.ResetFrameStats();
      cache.ResetFrameStats();
    }

    /** The visible keys with their scores, cached keys scored `+∞`. */
    method RankKeys(keys: seq<TileKey>, priority: TileKey -> real) returns (ranked: seq<Ranked>)
      ensures ranked == Ranking(keys, cache.entries.Keys, priority)
    {
      ranked := [];
      for i := 0 to |keys|
        invariant |ranked| == i
        invariant forall j :: 0 <= j < i ==> ranked[j] == Ranked(keys[j], Score(keys[j], cache.entries.Keys, priority))
      {
        var k := keys[i];
        var s := if cache.Contains(k) then Infinite else Finite(priority(k));
        ranked := ranked + [Ranked(k, s)];
      }
    }

    /**
     * The state of the visiting loop once the decisions `t` have been carried
     * out, from the cache entries `m0`, the queue `q0` and the counters `c0`, `d0`.
     */
    ghost predicate Progress(t: Tally, m0: map<TileKey, CachedChunk>, q0: seq<TileKey>, c0: int, d0: int, created: int)
      reads this, cache, scheduler
    {
      && created == |t.created|
      && createdThisFrame == c0 + |t.created| && queuedThisFrame == d0 + |t.queued|
      && cache.entries.Keys == m0.Keys + Elems(t.created)
      && scheduler.queue == EnqueueAll(q0, t.queued)
    }

    /** Every key of `ks` that is cached is shown and stamped with this pass. */
    ghost predicate Shown(ks: set<TileKey>)
      reads this, cache
    {
      forall k :: k in ks && k in cache.entries ==> cache.entries[k].isActive && cache.entries[k].lastVisibleStamp == visStamp
    }

    /** The entries of `m0` for keys outside `ks` are still there, unchanged. */
    ghost predicate KeptOutside(m0: map<TileKey, CachedChunk>, ks: set<TileKey>)
      reads cache
    {
      forall k :: k in m0 && k !in ks ==> k in cache.entries && cache.entries[k] == m0[k]
    }

    /**
     * The visiting loop: activates cached keys, creates uncached ones while
     * the budget lasts and queues the rest, as `Plan` prescribes.
     */
    method VisitKeys(keys: seq<TileKey>, now: real, shapeOf: TileKey -> MeshInfo) returns (created: int)
      requires Valid() && SeenActive() && SeenAt(now)
      modifies this`createdThisFrame, this`queuedThisFrame, cache, factory, scheduler
      ensures Valid() && SeenActive() && SeenAt(now)
      ensures var t := Plan(keys, old(cache.entries).Keys, settings.maxCreatesPerFrame);
              && created == |t.created|
              && createdThisFrame == old(createdThisFrame) + |t.created|
              && queuedThisFrame == old(queuedThisFrame) + |t.queued|
              && cache.entries.Keys == old(cache.entries).Keys + Elems(t.created)
              && scheduler.queue == EnqueueAll(old(scheduler.queue), t.queued)
      ensures forall k :: k in keys && k in cache.entries ==>
                cache.entries[k].isActive && cache.entries[k].lastVisibleStamp == visStamp
      ensures forall k :: k in old(cache.entries) && k !in keys ==> k in cache.entries && cache.entries[k] == old(cache.entries)[k]
    {
      ghost var m0, q0 := cache.entries, scheduler.queue;
      ghost var c0, d0 := createdThisFrame, queuedThisFrame;
      created := 0;
      assert keys[..0] == [];
      for i := 0 to |keys|
        invariant Valid() && SeenActive() && SeenAt(now)
        invariant Progress(Plan(keys[..i], m0.Keys, settings.maxCreatesPerFrame), m0, q0, c0, d0, created)
        invariant Shown(Elems(keys[..i])) && KeptOutside(m0, Elems(keys[..i]))
      {
        PlanStep(keys, m0.Keys, settings.maxCreatesPerFrame, i);
        ElemsPrefixStep(keys, i);
        created := VisitOne(keys[i], now, shapeOf(keys[i]), created, m0, q0, c0, d0, Elems(keys[..i]),
                            Plan(keys[..i], m0.Keys, settings.maxCreatesPerFrame));
      }
      assert keys[..|keys|] == keys;
    }

    /** One turn of the visiting loop, for `key`, after the keys `ks` were visited with decisions `t`. */
    method VisitOne(key: TileKey, now: real, shape: MeshInfo, created: int, ghost m0: map<TileKey, CachedChunk>,
                    ghost q0: seq<TileKey>, ghost c0: int, ghost d0: int, ghost ks: set<TileKey>, ghost t: Tally)
      returns (created1: int)
      requires Valid() && SeenActive() && SeenAt(now)
      requires Progress(t, m0, q0, c0, d0, created) && Shown(ks) && KeptOutside(m0, ks)
      modifies this`createdThisFrame, this`queuedThisFrame, cache, factory, scheduler
      ensures Valid() && SeenActive() && SeenAt(now)
      ensures Progress(Route(t, key, m0.Keys, settings.maxCreatesPerFrame), m0, q0, c0, d0, created1)
      ensures Shown(ks + {key}) && KeptOutside(m0, ks + {key})
    {
      var entry := cache.TryGet(key);
      if entry.Some? {
        ShowCached(key, now, m0, ks);
        created1 := created;
      } else if created < settings.maxCreatesPerFrame {
        created1 := CreateVisited(key, now, shape, created, m0, q0, c0, d0, ks, t);
      } else {
        QueueVisited(key, m0, q0, c0, d0, ks, t);
        created1 := created;
      }
    }

    /** A visited key that is cached: it is activated. */
    method ShowCached(key: TileKey, now: real, ghost m0: map<TileKey, CachedChunk>, ghost ks: set<TileKey>)
      requires Valid() && SeenActive() && SeenAt(now) && key in cache.entries
      requires Shown(ks) && KeptOutside(m0, ks)
      modifies cache
      ensures Valid() && SeenActive() && SeenAt(now)
      ensures cache.entries.Keys == old(cache.entries).Keys && scheduler.queue == old(scheduler.queue)
      ensures Shown(ks + {key}) && KeptOutside(m0, ks + {key})
    {
      var _ := cache.Activate(key, now, visStamp);
    }

    /** A visited key that is not cached, within the budget: it is created and activated. */
    method CreateVisited(key: TileKey, now: real, shape: MeshInfo, created: int, ghost m0: map<TileKey, CachedChunk>,
                         ghost q0: seq<TileKey>, ghost c0: int, ghost d0: int, ghost ks: set<TileKey>, ghost t: Tally)
      returns (created1: int)
      requires Valid() && SeenActive() && SeenAt(now) && key !in cache.entries && created < settings.maxCreatesPerFrame
      requires Progress(t, m0, q0, c0, d0, created) && Shown(ks) && KeptOutside(m0, ks)
      modifies this`createdThisFrame, cache, factory
      ensures Valid() && SeenActive() && SeenAt(now)
      ensures Progress(t.(created := t.created + [key]), m0, q0, c0, d0, created1)
      ensures Shown(ks + {key}) && KeptOutside(m0, ks + {key})
    {
      var _, _ := CreateAndActivate(key, now, shape);
      assert Elems(t.created + [key]) == Elems(t.created) + {key};
      created1 := created + 1;
      createdThisFrame := createdThisFrame + 1;
    }

    /** A visited key that is not cached, once the budget is used up: it is queued. */
    method QueueVisited(key: TileKey, ghost m0: map<TileKey, CachedChunk>, ghost q0: seq<TileKey>, ghost c0: int,
                        ghost d0: int, ghost ks: set<TileKey>, ghost t: Tally)
      requires Valid() && key !in cache.entries
      requires Progress(t, m0, q0, c0, d0, |t.created|) && Shown(ks) && KeptOutside(m0, ks)
      modifies this`queuedThisFrame, scheduler
      ensures Valid()
      ensures Progress(t.(queued := t.queued + [key]), m0, q0, c0, d0, |t.created|)
      ensures Shown(ks + {key}) && KeptOutside(m0, ks + {key})
    {
      var _ := scheduler.EnqueueIfAbsent(key);
      assert (t.queued + [key])[..|t.queued|] == t.queued;
      queuedThisFrame := queuedThisFrame + 1;
    }

    /**
     * The drain step: takes up to `budget` keys from the front of the queue
     * and creates and activates each of them. A drained key that is cached by
     * now keeps its entry; its new tile is refused and dropped.
     */
    method DrainQueue(budget: int, now: real, shapeOf: TileKey -> MeshInfo) returns (taken: seq<TileKey>)
      requires Valid() && SeenActive() && SeenAt(now)
      modifies this`createdThisFrame, this`drainedThisFrame, cache, factory, scheduler
      ensures Valid() && SeenActive() && SeenAt(now)
      ensures taken == old(scheduler.queue)[..DrainLength(old(scheduler.queue), budget, AlwaysCreated)]
      ensures |taken| == DrainCount(budget, |old(scheduler.queue)|)
      ensures scheduler.queue == old(scheduler.queue)[|taken|..]
      ensures createdThisFrame == old(createdThisFrame) + |taken| && drainedThisFrame == old(drainedThisFrame) + |taken|
      ensures cache.entries.Keys == old(cache.entries).Keys + Elems(taken)
      ensures forall k :: k in old(cache.entries) ==> k in cache.entries && cache.entries[k] == old(cache.entries)[k]
      ensures forall k :: k in cache.entries && k !in old(cache.entries) ==>
                cache.entries[k].isActive && cache.entries[k].lastVisibleStamp == visStamp
    {
      var done;
      DrainAllSucceed(scheduler.queue, budget, AlwaysCreated);
      taken, done := scheduler.Drain(budget, AlwaysCreated);
      CreateAll(taken, now, shapeOf);
    }

    /** Creates and activates the drained keys one after the other, counting each. */
    method CreateAll(keys: seq<TileKey>, now: real, shapeOf: TileKey -> MeshInfo)
      requires Valid() && SeenActive() && SeenAt(now)
      modifies this`createdThisFrame, this`drainedThisFrame, cache, factory
      ensures Valid() && SeenActive() && SeenAt(now)
      ensures createdThisFrame == old(createdThisFrame) + |keys| && drainedThisFrame == old(drainedThisFrame) + |keys|
      ensures cache.entries.Keys == old(cache.entries).Keys + Elems(keys)
      ensures forall k :: k in old(cache.entries) ==> k in cache.entries && cache.entries[k] == old(cache.entries)[k]
      ensures forall k :: k in cache.entries && k !in old(cache.entries) ==>
                cache.entries[k].isActive && cache.entries[k].lastVisibleStamp == visStamp
    {
      ghost var m0 := cache.entries;
      assert keys[..0] == [];
      for i := 0 to |keys|
        invariant Valid() && SeenActive() && SeenAt(now)
        invariant createdThisFrame == old(createdThisFrame) + i && drainedThisFrame == old(drainedThisFrame) + i
        invariant cache.entries.Keys == m0.Keys + Elems(keys[..i])
        invariant KeptOutside(m0, {}) && Shown(cache.entries.Keys - m0.Keys)
      {
        ElemsPrefixStep(keys, i);
        CreateDrained(keys[i], now, shapeOf(keys[i]), m0);
      }
      assert keys[..|keys|] == keys;
    }

    /** One drained key: its tile is created and, unless the key is cached by now, activated. */
    method CreateDrained(key: TileKey, now: real, shape: MeshInfo, ghost m0: map<TileKey, CachedChunk>)
      requires Valid() && SeenActive() && SeenAt(now)
      requires m0.Keys <= cache.entries.Keys && KeptOutside(m0, {}) && Shown(cache.entries.Keys - m0.Keys)
      modifies this`createdThisFrame, this`drainedThisFrame, cache, factory
      ensures Valid() && SeenActive() && SeenAt(now)
      ensures createdThisFrame == old(createdThisFrame) + 1 && drainedThisFrame == old(drainedThisFrame) + 1
      ensures cache.entries.Keys == old(cache.entries).Keys + {key}
      ensures KeptOutside(m0, {}) && Shown(cache.entries.Keys - m0.Keys)
    {
      var _, _ := CreateAndActivate(key, now, shape);
      createdThisFrame := createdThisFrame + 1;
      drainedThisFrame := drainedThisFrame + 1;
    }

    /** Every tile seen in the current pass was last touched at `now`. */
    ghost predicate SeenAt(now: real)
      reads this, cache
    {
      forall k :: k in cache.entries && cache.entries[k].lastVisibleStamp == visStamp ==> cache.entries[k].lastAccessTime == now
    }

    /** Every cached tile is shown exactly when it was seen in the current pass. */
    ghost predicate ShownIffSeen()
      reads this, cache
    {
      forall k :: k in cache.entries ==> (cache.entries[k].isActive <==> cache.entries[k].lastVisibleStamp == visStamp)
    }

    /** The entries of `m0` seen in the current pass are still there, unchanged. */
    ghost predicate KeptSeen(m0: map<TileKey, CachedChunk>)
      reads this, cache
    {
      forall k :: k in m0 && m0[k].lastVisibleStamp == visStamp ==> k in cache.entries && cache.entries[k] == m0[k]
    }

    /** Every cached tile was cached in `m0`, with the same visibility stamp. */
    ghost predicate StampsKept(m0: map<TileKey, CachedChunk>)
      reads cache
    {
      forall k :: k in cache.entries ==> k in m0 && cache.entries[k].lastVisibleStamp == m0[k].lastVisibleStamp
    }

    /** No cached tile has been seen in the current pass yet. */
    ghost predicate NoneSeen()
      reads this, cache
    {
      forall k :: k in cache.entries ==> cache.entries[k].lastVisibleStamp < visStamp
    }

    /**
     * The counters, the queue and the tiles new to the cache (`made`) after
     * visiting `keys` from the cached keys `m0` and the queue `q0` as `Plan`
     * prescribes, then draining the queue with the budget the visit left.
     */
    ghost predicate Outcome(keys: seq<TileKey>, m0: set<TileKey>, q0: seq<TileKey>, made: set<TileKey>)
      reads this, scheduler
    {
      var t := Plan(keys, m0, settings.maxCreatesPerFrame);
      var q := EnqueueAll(q0, t.queued);
      var n := DrainCount(settings.maxCreatesPerFrame - |t.created|, |q|);
      && createdThisFrame == |t.created| + n && queuedThisFrame == |t.queued| && drainedThisFrame == n
      && scheduler.queue == q[n..]
      && made == (Elems(t.created) + Elems(q[..n])) - m0
    }

    /**
     * The end of a pass: tiles not seen in this pass are hidden, then the
     * cache is trimmed to its capacity by evicting hidden tiles.
     */
    method EndPass(now: real)
      requires Valid() && SeenActive() && SeenAt(now)
      modifies cache
      ensures Valid() && SeenAt(now) && ShownIffSeen() && KeptSeen(old(cache.entries)) && StampsKept(old(cache.entries))
      ensures !cache.keepAll ==> |cache.entries| <= cache.maxTiles || forall k :: k in cache.entries ==> cache.entries[k].isActive
    {
      HideStale(now);
      ghost var m1 := cache.entries;
      Evict();
      assert forall k :: k in cache.entries ==> k in m1 && cache.entries[k].lastVisibleStamp == m1[k].lastVisibleStamp;
    }

    /** The sweep: every tile not seen in this pass is hidden, the others are left as they are. */
    method HideStale(now: real)
      requires cache.Valid() && Stamped() && SeenActive()
      modifies cache
      ensures cache.Valid() && Stamped() && ShownIffSeen() && KeptSeen(old(cache.entries)) && StampsKept(old(cache.entries))
      ensures cache.entries.Keys == old(cache.entries).Keys
    {
      ghost var _ := cache.SweepDeactivateStale(visStamp, now);
    }

    /** The capacity step: only hidden tiles are evicted, and the cache ends within capacity unless all of it is shown. */
    method Evict()
      requires cache.Valid() && Stamped() && ShownIffSeen()
      modifies cache
      ensures cache.Valid() && Stamped() && ShownIffSeen() && KeptSeen(old(cache.entries)) && StampsKept(old(cache.entries))
      ensures !cache.keepAll ==> |cache.entries| <= cache.maxTiles || forall k :: k in cache.entries ==> cache.entries[k].isActive
    {
      ghost var m1, l1 := cache.entries, cache.lru;
      ghost var evicted := cache.EnforceCapacity();
      if !cache.keepAll {
        CapacityAfterEviction(l1, m1, cache.maxTiles);
      }
    }

    /**
     * The visiting order: the visible keys as culled, or, with priority
     * scheduling on, the same keys in non-increasing score order.
     */
    method OrderKeys(visible: seq<TileKey>, priority: TileKey -> real) returns (keys: seq<TileKey>)
      ensures settings.usePriorityScheduling ==>
                keys == KeysOf(SortByScore(Ranking(visible, cache.entries.Keys, priority)))
      ensures !settings.usePriorityScheduling ==> keys == visible
      ensures keys == VisitOrder(visible, cache.entries.Keys, priority, settings.usePriorityScheduling)
      ensures multiset(keys) == multiset(visible)
    {
      keys := visible;
      if settings.usePriorityScheduling {
        var ranked := RankKeys(visible, priority);
        keys := KeysOf(SortByScore(ranked));
        PriorityOrder(visible, cache.entries.Keys, priority);
      }
    }

    /**
     * `DoVisibilityUpdate`: one pass, for a camera whose frustum is `frustum`,
     * with tile priorities `priority` and new tiles' meshes `shapeOf`;
     * `visible` are the keys the culling provider reports.
     */
    method DoVisibilityUpdate(frustum: Culling.Frustum, priority: TileKey -> real, now: real, shapeOf: TileKey -> MeshInfo)
      returns (visible: seq<TileKey>, ghost made: set<TileKey>)
      requires Valid()
      modifies this`visStamp, this`createdThisFrame, this`queuedThisFrame, this`drainedThisFrame
      modifies cache, factory, scheduler
      ensures Valid()
      ensures visible == culling.GetVisibleKeys(Some(frustum))
      ensures visStamp == old(visStamp) + 1
      ensures createdThisFrame <= Max0(settings.maxCreatesPerFrame)
      ensures queuedThisFrame > 0 ==> drainedThisFrame == 0
      ensures forall k :: k in visible && k in old(cache.entries) ==>
                k in cache.entries && cache.entries[k].isActive && cache.entries[k].lastVisibleStamp == visStamp
      ensures made !! old(cache.entries).Keys && cache.entries.Keys <= old(cache.entries).Keys + made
      ensures forall k :: k in made ==> k in cache.entries && cache.entries[k].isActive && cache.entries[k].lastVisibleStamp == visStamp
      ensures ShownIffSeen()
      ensures Outcome(VisitOrder(visible, old(cache.entries).Keys, priority, settings.usePriorityScheduling),
                      old(cache.entries).Keys, old(scheduler.queue), made)
      ensures forall k :: k in cache.entries ==>
                (cache.entries[k].isActive <==> (k in visible && k in old(cache.entries)) || k in made)
      ensures forall k :: k in cache.entries && cache.entries[k].isActive ==> cache.entries[k].lastAccessTime == now
      ensures !cache.keepAll ==> |cache.entries| <= cache.maxTiles || forall k :: k in cache.entries ==> cache.entries[k].isActive
    {
      var keys;
      visible, keys := PreparePass(frustum, priority);
      made := VisitDrainSweep(keys, now, shapeOf);
    }

    /**
     * The start of a pass: a new stamp, zeroed counters, the culled keys and
     * the order in which they are visited.
     */
    method PreparePass(frustum: Culling.Frustum, priority: TileKey -> real) returns (visible: seq<TileKey>, keys: seq<TileKey>)
      requires Valid()
      modifies this`visStamp, this`createdThisFrame, this`queuedThisFrame, this`drainedThisFrame
      modifies factory`statsRentedFromPoolThisFrame, factory`statsNewCreatedThisFrame, cache`statsPooledThisFrame
      ensures Valid() && SeenActive()
      ensures visStamp == old(visStamp) + 1
      ensures createdThisFrame == 0 && queuedThisFrame == 0 && drainedThisFrame == 0
      ensures cache.entries == old(cache.entries)
      ensures visible == culling.GetVisibleKeys(Some(frustum))
      ensures settings.usePriorityScheduling ==>
                keys == KeysOf(SortByScore(Ranking(visible, cache.entries.Keys, priority)))
      ensures !settings.usePriorityScheduling ==> keys == visible
      ensures keys == VisitOrder(visible, cache.entries.Keys, priority, settings.usePriorityScheduling)
      ensures forall k :: k in keys <==> k in visible
      ensures NoneSeen()
    {
      BeginPass();
      visible, keys := CullAndOrder(frustum, priority);
    }

    /** The culled keys and the order in which they are visited. */
    method CullAndOrder(frustum: Culling.Frustum, priority: TileKey -> real) returns (visible: seq<TileKey>, keys: seq<TileKey>)
      requires culling.Valid()
      ensures visible == culling.GetVisibleKeys(Some(frustum))
      ensures settings.usePriorityScheduling ==>
                keys == KeysOf(SortByScore(Ranking(visible, cache.entries.Keys, priority)))
      ensures !settings.usePriorityScheduling ==> keys == visible
      ensures keys == VisitOrder(visible, cache.entries.Keys, priority, settings.usePriorityScheduling)
      ensures forall k :: k in keys <==> k in visible
    {
      visible := culling.GetVisibleKeys(Some(frustum));
      keys := OrderKeys(visible, priority);
      forall k
        ensures k in keys <==> k in visible
      {
        assert k in keys <==> k in multiset(keys);
        assert k in visible <==> k in multiset(visible);
      }
    }

    /** The part of a pass after the visiting order is known: visiting, draining, sweeping and trimming. */
    method VisitDrainSweep(keys: seq<TileKey>, now: real, shapeOf: TileKey -> MeshInfo) returns (ghost made: set<TileKey>)
      requires Valid() && SeenActive() && NoneSeen()
      requires createdThisFrame == 0 && queuedThisFrame == 0 && drainedThisFrame == 0
      modifies this`createdThisFrame, this`queuedThisFrame, this`drainedThisFrame, cache, factory, scheduler
      ensures Valid() && ShownIffSeen()
      ensures createdThisFrame <= Max0(settings.maxCreatesPerFrame)
      ensures queuedThisFrame > 0 ==> drainedThisFrame == 0
      ensures forall k :: k in keys && k in old(cache.entries) ==>
                k in cache.entries && cache.entries[k].isActive && cache.entries[k].lastVisibleStamp == visStamp
      ensures made !! old(cache.entries).Keys && cache.entries.Keys <= old(cache.entries).Keys + made
      ensures forall k :: k in made ==> k in cache.entries && cache.entries[k].isActive && cache.entries[k].lastVisibleStamp == visStamp
      ensures Outcome(keys, old(cache.entries).Keys, old(scheduler.queue), made)
      ensures forall k :: k in cache.entries ==>
                (cache.entries[k].isActive <==> (k in keys && k in old(cache.entries)) || k in made)
      ensures forall k :: k in cache.entries && cache.entries[k].isActive ==> cache.entries[k].lastAccessTime == now
      ensures !cache.keepAll ==> |cache.entries| <= cache.maxTiles || forall k :: k in cache.entries ==> cache.entries[k].isActive
    {
      ghost var m0 := cache.entries;
      made := VisitAndDrain(keys, now, shapeOf);
      ghost var m2 := cache.entries;
      assert forall k :: k in m2 ==> (m2[k].lastVisibleStamp == visStamp <==> (k in keys && k in m0) || k in made);
      EndPass(now);
    }

    /**
     * The visiting loop over `keys` followed by the drain step, with the
     * budget the loop left over.
     */
    method VisitAndDrain(keys: seq<TileKey>, now: real, shapeOf: TileKey -> MeshInfo) returns (ghost made: set<TileKey>)
      requires Valid() && SeenActive() && SeenAt(now)
      requires createdThisFrame == 0 && queuedThisFrame == 0 && drainedThisFrame == 0
      modifies this`createdThisFrame, this`queuedThisFrame, this`drainedThisFrame, cache, factory, scheduler
      ensures Valid() && SeenActive() && SeenAt(now)
      ensures createdThisFrame <= Max0(settings.maxCreatesPerFrame)
      ensures queuedThisFrame > 0 ==> drainedThisFrame == 0
      ensures forall k :: k in keys && k in old(cache.entries) ==>
                k in cache.entries && cache.entries[k].isActive && cache.entries[k].lastVisibleStamp == visStamp
      ensures made == cache.entries.Keys - old(cache.entries).Keys
      ensures forall k :: k in made ==> cache.entries[k].isActive && cache.entries[k].lastVisibleStamp == visStamp
      ensures Outcome(keys, old(cache.entries).Keys, old(scheduler.queue), made)
      ensures forall k :: k in old(cache.entries) && k !in keys ==> k in cache.entries && cache.entries[k] == old(cache.entries)[k]
    {
      ghost var m1 := cache.entries;
      var created := VisitWithinBudget(keys, now, shapeOf);
      ghost var t := Plan(keys, m1.Keys, settings.maxCreatesPerFrame);
      ghost var q := scheduler.queue;
      var taken := DrainQueue(settings.maxCreatesPerFrame - created, now, shapeOf);
      ghost var n := DrainCount(settings.maxCreatesPerFrame - |t.created|, |q|);
      assert taken == q[..n] && scheduler.queue == q[n..];
      made := cache.entries.Keys - m1.Keys;
      assert made == (Elems(t.created) + Elems(taken)) - m1.Keys;
    }

    /**
     * The visiting loop from zeroed counters: it creates at most the budget,
     * queues only once the budget is spent, and shows every visited cached
     * key and every tile it creates.
     */
    method VisitWithinBudget(keys: seq<TileKey>, now: real, shapeOf: TileKey -> MeshInfo) returns (created: int)
      requires Valid() && SeenActive() && SeenAt(now)
      requires createdThisFrame == 0 && queuedThisFrame == 0 && drainedThisFrame == 0
      modifies this`createdThisFrame, this`queuedThisFrame, cache, factory, scheduler
      ensures Valid() && SeenActive() && SeenAt(now)
      ensures created == createdThisFrame && created <= Max0(settings.maxCreatesPerFrame) && drainedThisFrame == 0
      ensures queuedThisFrame > 0 ==> created >= settings.maxCreatesPerFrame
      ensures old(cache.entries).Keys <= cache.entries.Keys
      ensures forall k :: k in keys && k in cache.entries ==>
                cache.entries[k].isActive && cache.entries[k].lastVisibleStamp == visStamp
      ensures forall k :: k in cache.entries && k !in old(cache.entries) ==>
                cache.entries[k].isActive && cache.entries[k].lastVisibleStamp == visStamp
      ensures var t := Plan(keys, old(cache.entries).Keys, settings.maxCreatesPerFrame);
              && created == |t.created| && queuedThisFrame == |t.queued|
              && cache.entries.Keys == old(cache.entries).Keys + Elems(t.created)
              && scheduler.queue == EnqueueAll(old(scheduler.queue), t.queued)
      ensures forall k :: k in old(cache.entries) && k !in keys ==> k in cache.entries && cache.entries[k] == old(cache.entries)[k]
    {
      ghost var m1 := cache.entries;
      created := VisitKeys(keys, now, shapeOf);
      PlanBudget(keys, m1.Keys, settings.maxCreatesPerFrame);
      PlanPartition(keys, m1.Keys, settings.maxCreatesPerFrame);
    }

    /**
     * `Update`: with on-demand culling the detector's gate decides whether a
     * pass runs this tick; otherwise a pass runs every tick and the detector
     * is not consulted. The gate reads the unscaled clock `unscaledNow`, the
     * pass the scaled clock `now`. When no pass runs, `visible` and `made`
     * are empty.
     */
    method Update(cam: ChangeDetection.CameraPose, unscaledNow: real, now: real, moved: bool, frustum: Culling.Frustum,
                  priority: TileKey -> real, shapeOf: TileKey -> MeshInfo)
      returns (ran: bool, visible: seq<TileKey>, ghost made: set<TileKey>)
      requires Valid()
      modifies this`visStamp, this`createdThisFrame, this`queuedThisFrame, this`drainedThisFrame
      modifies cache, factory, scheduler, detector
      ensures Valid()
      ensures ran <==> !settings.onDemandCulling || old(detector.force)
                       || unscaledNow - old(detector.lastTime) >= ChangeDetection.Interval(moved, detector.minInterval, detector.idleInterval)
      ensures settings.onDemandCulling && ran ==>
                detector.lastTime == unscaledNow && !detector.force
                && detector.posPrev == cam.position && detector.rotPrev == cam.rotation && detector.fovPrev == cam.fov
      ensures !settings.onDemandCulling || !ran ==>
                detector.lastTime == old(detector.lastTime) && detector.force == old(detector.force)
                && detector.posPrev == old(detector.posPrev) && detector.rotPrev == old(detector.rotPrev)
                && detector.fovPrev == old(detector.fovPrev)
      ensures ran ==> visStamp == old(visStamp) + 1 && PassDone(frustum, priority, now, old(cache.entries), old(scheduler.queue), visible, made)
      ensures !ran ==> visStamp == old(visStamp) && unchanged(cache, scheduler) && visible == [] && made == {}
    {
      if settings.onDemandCulling {
        var open := detector.ShouldUpdate(cam, unscaledNow, moved);
        if !open {
          return false, [], {};
        }
      }
      visible, made := DoVisibilityUpdate(frustum, priority, now, shapeOf);
      ran := true;
    }

    /**
     * What a pass leaves behind, from the cache entries `m0` and the queue
     * `q0` it started from: the visible keys, the counters, the queue and the
     * new tiles as `Outcome` gives them for the visiting order, the shown
     * tiles exactly the visible ones cached before and the new ones, each
     * touched at `now`, and the capacity bound.
     */
    ghost predicate PassDone(frustum: Culling.Frustum, priority: TileKey -> real, now: real,
                             m0: map<TileKey, CachedChunk>, q0: seq<TileKey>, visible: seq<TileKey>, made: set<TileKey>)
      requires culling.Valid()
      reads this, cache, scheduler, culling, culling.axisA, culling.axisB
    {
      && visible == culling.GetVisibleKeys(Some(frustum))
      && ShownIffSeen()
      && Outcome(VisitOrder(visible, m0.Keys, priority, settings.usePriorityScheduling), m0.Keys, q0, made)
      && (forall k :: k in cache.entries ==> (cache.entries[k].isActive <==> (k in visible && k in m0) || k in made))
      && (forall k :: k in cache.entries && cache.entries[k].isActive ==> cache.entries[k].lastAccessTime == now)
      && (!cache.keepAll ==> |cache.entries| <= cache.maxTiles || forall k :: k in cache.entries ==> cache.entries[k].isActive)
    }

    /**
     * `Start`: forces the gate open for the first `Update` and runs a first
     * pass; the detector's snapshot is left as it is.
     */
    method Start(frustum: Culling.Frustum, priority: TileKey -> real, now: real, shapeOf: TileKey -> MeshInfo)
      returns (visible: seq<TileKey>, ghost made: set<TileKey>)
      requires Valid()
      modifies this`visStamp, this`createdThisFrame, this`queuedThisFrame, this`drainedThisFrame
      modifies cache, factory, scheduler, detector`force
      ensures Valid() && detector.force
      ensures visStamp == old(visStamp) + 1
      ensures PassDone(frustum, priority, now, old(cache.entries), old(scheduler.queue), visible, made)
    {
      detector.ForceOnce();
      visible, made := DoVisibilityUpdate(frustum, priority, now, shapeOf);
    }

    /** `RequestCullingUpdate`: an immediate request forces the next gate open; otherwise nothing happens. */
    method RequestCullingUpdate(immediate: bool)
      modifies detector`force
      ensures detector.force == (old(detector.force) || immediate)
    {
      if immediate {
        detector.ForceOnce();
      }
    }

    /**
     * `OnDisable`: destroys every cached tile's object and every pooled one
     * and empties the queue.
     */
    method OnDisable() returns (destroyed: set<GameObject>)
      requires Valid()
      modifies cache, scheduler
      ensures Valid()
      ensures cache.entries == map[] && cache.lru == [] && cache.pool == [] && scheduler.queue == []
      ensures destroyed == LiveHandles(old(cache.entries)) + Elems(old(cache.pool))
    {
      destroyed := cache.DestroyAll();
      scheduler.Clear();
    }
  }

  /**
   * `Awake`: validates the settings and the face mapping and, when both pass,
   * builds the manager; otherwise the manager stays disabled (`null`).
   * `FaceAxesMappingHolds` shows the mapping check always passes.
   */
  method Awake(s: Settings, hasShaper: bool, hasCamera: bool, radius: real, cam: ChangeDetection.CameraPose, unscaledNow: real)
    returns (m: DynamicTerrainManager?)
    ensures m != null <==> Validate(hasShaper, hasCamera, s.tilesPerSide) && forall f :: 0 <= f < 6 ==> FaceMatches(f)
    ensures m != null ==> fresh(m) && m.Valid() && m.settings == s && m.radius == radius && m.visStamp == 0
                          && m.cache.entries == map[] && m.scheduler.queue == []
  {
    if !Validate(hasShaper, hasCamera, s.tilesPerSide) {
      return null;
    }
    var mappingOk := ValidateFaceAxesMapping();
    if !mappingOk {
      return null;
    }
    m := new DynamicTerrainManager(s, radius, cam, unscaledNow);
  }
}
