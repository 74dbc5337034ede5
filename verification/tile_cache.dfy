/**
 * The tile cache: a map from key to cached tile, an LRU order over the same
 * keys (least recently used first) and a LIFO pool of scene objects released
 * by eviction, with activation, the stamp-based stale sweep and capacity
 * enforcement that never evicts an active tile.
 */
module Cache {
  import opened Wrappers
  import opened Seqs
  import opened TileKeys

  /** Opaque handle of a mesh resource. */
  datatype MeshHandle = MeshHandle(id: nat)

  /** The GPU deformer component of a scene object, with its `enabled` flag. */
  datatype Deformer = Deformer(id: nat, enabled: bool)

  /**
   * A scene object (Unity `GameObject`): its identity, its `activeSelf` flag
   * and the components the streaming code reads back when it is reused: the
   * mesh held by its mesh filter and its optional deformer.
   */
  datatype GameObject = GameObject(id: nat, active: bool, mesh: Option<MeshHandle>, deformer: Option<Deformer>)

  /**
   * One cached tile (`CachedChunk`). `deformer` names the deformer component of
   * `go` by its id. The LRU node is not stored: the entry's LRU position is the
   * index of its key in `TileCache.lru`.
   */
  datatype CachedChunk = CachedChunk(
    key: TileKey,
    go: Option<GameObject>,
    mesh: Option<MeshHandle>,
    deformer: Option<nat>,
    sizeBytes: int,
    lastAccessTime: real,
    isActive: bool,
    lastVisibleStamp: int)

  /** The entry after a successful `Activate(key, now, stamp)`. */
  function Activated(c: CachedChunk, now: real, stamp: int): (r: CachedChunk)
    requires c.go.Some?
    ensures r.isActive && r.go.Some? && r.go.value.active
  {
    c.(go := Some(c.go.value.(active := true)), isActive := true, lastAccessTime := now, lastVisibleStamp := stamp)
  }

  /** The entry after a successful `Deactivate(key, now)`; the stamp is kept. */
  function Deactivated(c: CachedChunk, now: real): (r: CachedChunk)
    requires c.go.Some?
    ensures !r.isActive && r.go.Some? && !r.go.value.active
    ensures r.lastVisibleStamp == c.lastVisibleStamp
  {
    c.(go := Some(c.go.value.(active := false)), isActive := false, lastAccessTime := now)
  }

  /** The scene object as it goes onto the pool: hidden, its deformer disabled. */
  function Released(c: CachedChunk): (go: GameObject)
    requires c.go.Some?
    ensures go.id == c.go.value.id && !go.active
    ensures go.deformer.Some? ==> (c.deformer.Some? ==> !go.deformer.value.enabled)
  {
    var g := c.go.value;
    var d := if c.deformer.Some? && g.deformer.Some? then Some(g.deformer.value.(enabled := false)) else g.deformer;
    g.(active := false, deformer := d)
  }

  /** The handles that evicting the keys `ks` (in that order) pushes on the pool. */
  function PooledHandles(ks: seq<TileKey>, m: map<TileKey, CachedChunk>): (r: seq<GameObject>)
    requires forall k :: k in ks ==> k in m
    ensures |r| <= |ks|
  {
    if ks == [] then []
    else PooledHandles(ks[..|ks| - 1], m) + (var c := m[ks[|ks| - 1]]; if c.go.Some? then [Released(c)] else [])
  }

  /** The handles of all entries that still hold one. */
  function LiveHandles(m: map<TileKey, CachedChunk>): set<GameObject> {
    set k | k in m && m[k].go.Some? :: m[k].go.value
  }

  /** An entry the sweep for `stamp` turns off: active but not seen in this pass. */
  predicate IsStale(c: CachedChunk, stamp: int) {
    c.isActive && c.lastVisibleStamp != stamp
  }

  /** The keys of `s` whose entries are inactive, in `s` order. */
  function Inactives(s: seq<TileKey>, m: map<TileKey, CachedChunk>): (r: seq<TileKey>)
    ensures forall k :: k in r <==> k in s && k in m && !m[k].isActive
    ensures |r| <= |s|
  {
    if s == [] then []
    else (if s[0] in m && !m[s[0]].isActive then [s[0]] else []) + Inactives(s[1..], m)
  }

  /**
   * The keys `EnforceCapacity` evicts when the map holds `count` entries: it
   * walks `s` (the LRU order) from the head and removes inactive entries
   * until at most `maxTiles` remain.
   */
  function Evictions(s: seq<TileKey>, m: map<TileKey, CachedChunk>, count: int, maxTiles: int): seq<TileKey> {
    if count <= maxTiles || s == [] then []
    else if s[0] in m && !m[s[0]].isActive then [s[0]] + Evictions(s[1..], m, count - 1, maxTiles)
    else Evictions(s[1..], m, count, maxTiles)
  }

  function Min(a: int, b: int): int {
    if a <= b then a else b
  }

  /**
   * Eviction takes the least recently used inactive entries, as many as the
   * excess over capacity, or all of them if there are fewer.
   */
  lemma {:induction false} EvictionsArePrefix(s: seq<TileKey>, m: map<TileKey, CachedChunk>, count: int, maxTiles: int)
    ensures var n := if count <= maxTiles then 0 else Min(count - maxTiles, |Inactives(s, m)|);
            Evictions(s, m, count, maxTiles) == Inactives(s, m)[..n]
  {
    if count <= maxTiles || s == [] {
    } else if s[0] in m && !m[s[0]].isActive {
      EvictionsArePrefix(s[1..], m, count - 1, maxTiles);
      assert Inactives(s, m) == [s[0]] + Inactives(s[1..], m);
    } else {
      EvictionsArePrefix(s[1..], m, count, maxTiles);
      assert Inactives(s, m) == Inactives(s[1..], m);
    }
  }

  /**
   * After eviction over an LRU order that lists exactly the map's keys, either
   * the count is within capacity or every remaining entry is active; only
   * inactive entries are evicted, and never more than the excess.
   */
  lemma CapacityAfterEviction(s: seq<TileKey>, m: map<TileKey, CachedChunk>, maxTiles: int)
    requires NoDup(s) && Elems(s) == m.Keys
    ensures var e := Evictions(s, m, |m|, maxTiles);
            && (forall k :: k in e ==> k in m && !m[k].isActive)
            && NoDup(e)
            && (|m| > maxTiles ==> |m| - |e| >= maxTiles)
            && (|m| - |e| <= maxTiles || forall k :: k in m && k !in e ==> m[k].isActive)
  {
    var e := Evictions(s, m, |m|, maxTiles);
    var ins := Inactives(s, m);
    EvictionsArePrefix(s, m, |m|, maxTiles);
    InactivesNoDup(s, m);
    NoDupPrefix(ins, |e|);
    assert forall k :: k in e ==> k in ins;
    if |m| > maxTiles && |m| - |e| > maxTiles {
      assert e == ins;
    }
  }

  lemma {:induction false} InactivesNoDup(s: seq<TileKey>, m: map<TileKey, CachedChunk>)
    requires NoDup(s)
    ensures NoDup(Inactives(s, m))
  {
    if s != [] {
      InactivesNoDup(s[1..], m);
      assert s[0] !in s[1..];
      NoDupConcat(if s[0] in m && !m[s[0]].isActive then [s[0]] else [], Inactives(s[1..], m));
    }
  }

  /** A touch moves one key to the back and keeps the relative order of all others. */
  lemma TouchKeepsOthersInOrder(s: seq<TileKey>, k: TileKey)
    ensures Without(MoveToBack(s, k), k) == Without(s, k)
  {
    WithoutAppend(Without(s, k), [k], k);
    WithoutAbsent(Without(s, k), k);
    assert Without([k], k) == [];
  }

  lemma RemoveSetSameOn(s: seq<TileKey>, xs: set<TileKey>, ys: set<TileKey>)
    requires forall y :: y in s ==> (y in xs <==> y in ys)
    ensures RemoveSet(s, xs) == RemoveSet(s, ys)
  {
    if s != [] {
      RemoveSetSameOn(s[1..], xs, ys);
    }
  }

  lemma {:induction false} InactivesAppend(a: seq<TileKey>, b: seq<TileKey>, m: map<TileKey, CachedChunk>)
    ensures Inactives(a + b, m) == Inactives(a, m) + Inactives(b, m)
  {
    if a == [] {
      assert a + b == b;
    } else {
      assert (a + b)[1..] == a[1..] + b;
      InactivesAppend(a[1..], b, m);
    }
  }

  /**
   * One step of the eviction walk over the LRU order `order` as it stood on
   * entry: while the map is over capacity, the keys evicted so far are the
   * inactive keys among the first `j`.
   */
  lemma WalkStep(order: seq<TileKey>, m0: map<TileKey, CachedChunk>, j: nat, next: nat)
    requires NoDup(order) && Elems(order) == m0.Keys && j < |order| && next == j + 1
    ensures var key, e := order[j], Inactives(order[..j], m0);
            && key in m0 && key !in e && NoDup(e)
            && (forall k :: k in e ==> k in m0)
            && Inactives(order[..next], m0) == e + (if m0[key].isActive then [] else [key])
  {
    var key := order[j];
    assert order[..j + 1] == order[..j] + [key];
    InactivesAppend(order[..j], [key], m0);
    assert Inactives([key], m0) == (if m0[key].isActive then [] else [key]) by {
      assert key in Elems(order);
    }
    NoDupAt(order, j);
    NoDupPrefix(order, j);
    InactivesNoDup(order[..j], m0);
  }

  /** When the walk stops, it has evicted exactly what `Evictions` prescribes. */
  lemma WalkResult(order: seq<TileKey>, m0: map<TileKey, CachedChunk>, j: nat, maxTiles: int)
    requires j <= |order| && |m0| > maxTiles
    requires var e := Inactives(order[..j], m0);
             |m0| - |e| >= maxTiles && (|m0| - |e| <= maxTiles || j == |order|)
    ensures Evictions(order, m0, |m0|, maxTiles) == Inactives(order[..j], m0)
  {
    var e := Inactives(order[..j], m0);
    EvictionsArePrefix(order, m0, |m0|, maxTiles);
    assert order == order[..j] + order[j..];
    InactivesAppend(order[..j], order[j..], m0);
    if j == |order| {
      assert order[..j] == order;
    }
  }

  /** Removing one more key from the map. */
  lemma EvictStep(m0: map<TileKey, CachedChunk>, evicted: seq<TileKey>, key: TileKey)
    requires key in m0 && key !in evicted && NoDup(evicted)
    requires forall k :: k in evicted ==> k in m0
    ensures (m0 - Elems(evicted)) - {key} == m0 - Elems(evicted + [key])
    ensures Elems(evicted + [key]) == Elems(evicted) + {key}
    ensures PooledHandles(evicted + [key], m0)
            == PooledHandles(evicted, m0) + (if m0[key].go.Some? then [Released(m0[key])] else [])
  {
    assert (evicted + [key])[..|evicted|] == evicted;
  }

  lemma MapRemoveOne(m: map<TileKey, CachedChunk>, k: TileKey)
    requires k in m
    ensures |m - {k}| == |m| - 1
  {
    assert (m - {k}).Keys == m.Keys - {k};
  }

  lemma Unevicted(m0: map<TileKey, CachedChunk>, e: set<TileKey>, key: TileKey)
    requires key in m0 && key !in e
    ensures key in m0 - e && (m0 - e)[key] == m0[key]
  {
  }

  /** Evicting one more key: the LRU side, the map side and the pool side. */
  lemma WalkEvict(order: seq<TileKey>, m0: map<TileKey, CachedChunk>, evicted: seq<TileKey>, key: TileKey)
    requires key in m0 && key !in evicted && NoDup(evicted)
    requires forall k :: k in evicted ==> k in m0
    ensures var e := Elems(evicted);
            && Without(RemoveSet(order, e), key) == RemoveSet(order, Elems(evicted + [key]))
            && (m0 - e) - {key} == m0 - Elems(evicted + [key])
            && |(m0 - e) - {key}| == |m0 - e| - 1
            && PooledHandles(evicted + [key], m0)
               == PooledHandles(evicted, m0) + (if m0[key].go.Some? then [Released(m0[key])] else [])
  {
    EvictStep(m0, evicted, key);
    WithoutRemoveSet(order, Elems(evicted), key);
    MapRemoveOne(m0 - Elems(evicted), key);
  }

  lemma PoolMaintain(pool0: seq<GameObject>, pooled: seq<GameObject>, released: seq<GameObject>, pooled1: seq<GameObject>)
    requires pooled1 == pooled + released
    ensures (pool0 + pooled) + released == pool0 + pooled1
  {
  }

  /** Touching one more swept key: it leaves the untouched part and joins the touched tail. */
  lemma SweepLruStep(l0: seq<TileKey>, touched: seq<TileKey>, k: TileKey)
    requires k !in touched
    ensures MoveToBack(RemoveSet(l0, Elems(touched)) + touched, k)
            == RemoveSet(l0, Elems(touched + [k])) + (touched + [k])
  {
    var e, e1 := Elems(touched), Elems(touched + [k]);
    assert e1 == e + {k};
    var before := RemoveSet(l0, e);
    WithoutAppend(before, touched, k);
    WithoutAbsent(touched, k);
    WithoutRemoveSet(l0, e, k);
    assert MoveToBack(before + touched, k) == RemoveSet(l0, e1) + touched + [k];
  }

  /**
     The cache fields `l`, `e`, `p`, `st` as the eviction walk over `order`
     leaves them once the keys `evicted` have been removed from the map `m0`
     and their scene objects pushed on the pool `p0`, whose counter was `s0`.
   */
  ghost predicate WalkFields(order: seq<TileKey>, m0: map<TileKey, CachedChunk>, p0: seq<GameObject>, s0: int,
                             evicted: seq<TileKey>, l: seq<TileKey>, e: map<TileKey, CachedChunk>,
                             p: seq<GameObject>, st: int)
  {
    && (forall k :: k in evicted ==> k in m0)
    && l == RemoveSet(order, Elems(evicted))
    && e == m0 - Elems(evicted)
    && |e| == |m0| - |evicted|
    && p == p0 + PooledHandles(evicted, m0)
    && st == s0 + |PooledHandles(evicted, m0)|
  }

  /** Evicting one more key advances the walk state. */
  lemma WalkAdvance(order: seq<TileKey>, m0: map<TileKey, CachedChunk>, p0: seq<GameObject>, s0: int,
                    evicted: seq<TileKey>, key: TileKey, l: seq<TileKey>, e: map<TileKey, CachedChunk>,
                    p: seq<GameObject>, st: int)
    requires key in m0 && key !in evicted && NoDup(evicted)
    requires WalkFields(order, m0, p0, s0, evicted, l, e, p, st)
    ensures key in e && e[key] == m0[key]
    ensures var released := if m0[key].go.Some? then [Released(m0[key])] else [];
            WalkFields(order, m0, p0, s0, evicted + [key], Without(l, key), e - {key}, p + released, st + |released|)
  {
    WalkAdvanceKeys(order, m0, evicted, key, l, e);
    WalkAdvancePool(m0, p0, s0, evicted, key, p, st);
  }

  /** The LRU and map side of one more eviction. */
  lemma WalkAdvanceKeys(order: seq<TileKey>, m0: map<TileKey, CachedChunk>, evicted: seq<TileKey>, key: TileKey,
                        l: seq<TileKey>, e: map<TileKey, CachedChunk>)
    requires key in m0 && key !in evicted && NoDup(evicted)
    requires forall k :: k in evicted ==> k in m0
    requires l == RemoveSet(order, Elems(evicted)) && e == m0 - Elems(evicted) && |e| == |m0| - |evicted|
    ensures key in e && e[key] == m0[key]
    ensures forall k :: k in evicted + [key] ==> k in m0
    ensures Without(l, key) == RemoveSet(order, Elems(evicted + [key]))
    ensures e - {key} == m0 - Elems(evicted + [key]) && |e - {key}| == |m0| - |evicted + [key]|
  {
    WalkEvict(order, m0, evicted, key);
    Unevicted(m0, Elems(evicted), key);
  }

  /** The pool side of one more eviction. */
  lemma WalkAdvancePool(m0: map<TileKey, CachedChunk>, p0: seq<GameObject>, s0: int, evicted: seq<TileKey>,
                        key: TileKey, p: seq<GameObject>, st: int)
    requires key in m0 && forall k :: k in evicted ==> k in m0
    requires p == p0 + PooledHandles(evicted, m0) && st == s0 + |PooledHandles(evicted, m0)|
    ensures var released := if m0[key].go.Some? then [Released(m0[key])] else [];
            && p + released == p0 + PooledHandles(evicted + [key], m0)
            && st + |released| == s0 + |PooledHandles(evicted + [key], m0)|
  {
    assert (evicted + [key])[..|evicted|] == evicted;
  }

  class TileCache {
    var entries: map<TileKey, CachedChunk>
    /** LRU order, least recently used first. */
    var lru: seq<TileKey>
    /** Released scene objects; the top of the stack is the last element. */
    var pool: seq<GameObject>
    const maxTiles: int
    const keepAll: bool
    var statsPooledThisFrame: int

    /** The LRU list holds exactly the map's keys, each once, and entries sit under their own key. */
    ghost predicate Valid()
      reads this
    {
      && maxTiles >= 1
      && NoDup(lru)
      && Elems(lru) == entries.Keys
      && (forall k :: k in entries ==> entries[k].key == k)
    }

    constructor (maxTiles: int, keepAllGenerated: bool)
      ensures Valid()
      ensures this.maxTiles == (if maxTiles < 1 then 1 else maxTiles) && keepAll == keepAllGenerated
      ensures entries == map[] && lru == [] && pool == [] && statsPooledThisFrame == 0
    {
      this.maxTiles := if maxTiles < 1 then 1 else maxTiles;
      keepAll := keepAllGenerated;
      entries := map[];
      lru := [];
      pool := [];
      statsPooledThisFrame := 0;
    }

    /** `Count`: the number of entries, which is also the length of the LRU list. */
    function Count(): (n: nat)
      reads this
      requires Valid()
      ensures n == |entries| && n == |lru|
    {
      NoDupCard(lru);
      assert entries.Keys == Elems(lru);
      |entries|
    }

    function PoolSize(): nat
      reads this
    {
      |pool|
    }

    function Contains(key: TileKey): bool
      reads this
    {
      key in entries
    }

    function TryGet(key: TileKey): Option<CachedChunk>
      reads this
    {
      if key in entries then Some(entries[key]) else None
    }

    /** Inserts a tile under its key and appends the key at the LRU tail; a present key is refused. */
    method Put(chunk: CachedChunk) returns (ok: bool)
      requires Valid()
      modifies this
      ensures Valid()
      ensures ok <==> chunk.key !in old(entries)
      ensures ok ==> entries == old(entries)[chunk.key := chunk] && lru == old(lru) + [chunk.key]
      ensures !ok ==> entries == old(entries) && lru == old(lru)
      ensures pool == old(pool) && statsPooledThisFrame == old(statsPooledThisFrame)
    {
      if chunk.key in entries {
        return false;
      }
      NoDupConcat(lru, [chunk.key]);
      lru := lru + [chunk.key];
      entries := entries[chunk.key := chunk];
      return true;
    }

    /** Moves `key` to the LRU tail, if it is linked in the list. */
    method TouchLru(key: TileKey)
      requires Valid()
      modifies this`lru
      ensures Valid()
      ensures lru == if key in old(lru) then MoveToBack(old(lru), key) else old(lru)
    {
      if key !in lru {
        return;
      }
      MoveToBackNoDup(lru, key);
      if lru[|lru| - 1] == key {
        MoveLastToBack(lru);
        return;
      }
      var i := IndexOf(lru, key);
      WithoutAt(lru, i);
      lru := lru[..i] + lru[i + 1..] + [key];
    }

    /** Shows the tile, stamps it as seen in pass `stamp` and makes it most recently used. */
    method Activate(key: TileKey, now: real, stamp: int) returns (ok: bool)
      requires Valid()
      modifies this
      ensures Valid()
      ensures ok <==> key in old(entries) && old(entries)[key].go.Some?
      ensures ok ==> entries == old(entries)[key := Activated(old(entries)[key], now, stamp)] && lru == MoveToBack(old(lru), key)
      ensures !ok ==> entries == old(entries) && lru == old(lru)
      ensures pool == old(pool) && statsPooledThisFrame == old(statsPooledThisFrame)
    {
      if key !in entries || entries[key].go.None? {
        return false;
      }
      SetEntry(key, Activated(entries[key], now, stamp));
      TouchLru(key);
      return true;
    }

    /** Hides the tile and makes it most recently used; its stamp is kept. */
    method Deactivate(key: TileKey, now: real) returns (ok: bool)
      requires Valid()
      modifies this
      ensures Valid()
      ensures ok <==> key in old(entries) && old(entries)[key].go.Some?
      ensures ok ==> entries == old(entries)[key := Deactivated(old(entries)[key], now)] && lru == MoveToBack(old(lru), key)
      ensures !ok ==> entries == old(entries) && lru == old(lru)
      ensures pool == old(pool) && statsPooledThisFrame == old(statsPooledThisFrame)
    {
      if key !in entries || entries[key].go.None? {
        return false;
      }
      SetEntry(key, Deactivated(entries[key], now));
      TouchLru(key);
      return true;
    }

    /** Replaces the entry under a present key by `c`, filed under the same key. */
    method SetEntry(key: TileKey, c: CachedChunk)
      requires Valid() && key in entries && c.key == key
      modifies this`entries
      ensures Valid() && entries == old(entries)[key := c]
    {
      assert entries[key := c].Keys == entries.Keys;
      entries := entries[key := c];
    }

    method ResetFrameStats()
      modifies this`statsPooledThisFrame
      ensures statsPooledThisFrame == 0
    {
      statsPooledThisFrame := 0;
    }

    /**
     * Deactivates every active entry whose stamp is not `stamp`. The keys are
     * collected in the dictionary's enumeration order, which is unspecified;
     * `turnedOff` is the order the model happened to use.
     */
    method SweepDeactivateStale(stamp: int, now: real) returns (ghost turnedOff: seq<TileKey>)
      requires Valid()
      modifies this
      ensures Valid()
      ensures entries.Keys == old(entries).Keys
      ensures forall k :: k in entries ==>
                entries[k] == if IsStale(old(entries)[k], stamp) && old(entries)[k].go.Some?
                          then Deactivated(old(entries)[k], now) else old(entries)[k]
      ensures NoDup(turnedOff)
      ensures forall k :: k in turnedOff <==> k in old(entries) && IsStale(old(entries)[k], stamp) && old(entries)[k].go.Some?
      ensures lru == RemoveSet(old(lru), Elems(turnedOff)) + turnedOff
      ensures pool == old(pool) && statsPooledThisFrame == old(statsPooledThisFrame)
    {
      var toTurnOff := CollectStale(stamp);
      turnedOff := DeactivateInOrder(toTurnOff, now);
    }

    /** Pass 1 of the sweep: the keys of the stale entries, each once. */
    method CollectStale(stamp: int) returns (keys: seq<TileKey>)
      ensures NoDup(keys)
      ensures forall k :: k in keys <==> k in entries && IsStale(entries[k], stamp)
    {
      var remaining := entries.Keys;
      keys := [];
      while remaining != {}
        invariant remaining <= entries.Keys
        invariant NoDup(keys)
        invariant forall k :: k in keys <==> k in entries && k !in remaining && IsStale(entries[k], stamp)
        decreases remaining
      {
        var k :| k in remaining;
        if IsStale(entries[k], stamp) {
          NoDupConcat(keys, [k]);
          keys := keys + [k];
        }
        remaining := remaining - {k};
      }
    }

    /** Pass 2 of the sweep: deactivates `keys` in order; `turnedOff` are those that held a scene object. */
    method DeactivateInOrder(keys: seq<TileKey>, now: real) returns (ghost turnedOff: seq<TileKey>)
      requires Valid() && NoDup(keys)
      requires forall k :: k in keys ==> k in entries
      modifies this
      ensures Valid()
      ensures entries.Keys == old(entries).Keys
      ensures SweptAs(old(entries), Elems(keys), now) && TurnedOffAs(old(entries), old(lru), Elems(keys), turnedOff)
      ensures pool == old(pool) && statsPooledThisFrame == old(statsPooledThisFrame)
    {
      ghost var m0, l0 := entries, lru;
      turnedOff := [];
      RemoveSetDisjoint(l0, {});
      assert Elems(turnedOff) == {};
      var i := 0;
      while i < |keys|
        invariant i <= |keys|
        invariant Valid() && entries.Keys == m0.Keys
        invariant SweptAs(m0, Elems(keys[..i]), now) && TurnedOffAs(m0, l0, Elems(keys[..i]), turnedOff)
        invariant pool == old(pool) && statsPooledThisFrame == old(statsPooledThisFrame)
      {
        var k, next := keys[i], i + 1;
        NoDupAt(keys, i);
        ElemsPrefixStep(keys, i);
        turnedOff := DeactivateOne(k, now, m0, l0, Elems(keys[..i]), turnedOff);
        i := next;
      }
      assert keys[..i] == keys;
    }

    /** The entries of `m0` with keys in `done` deactivated, where they held a scene object. */
    ghost predicate SweptAs(m0: map<TileKey, CachedChunk>, done: set<TileKey>, now: real)
      reads this
    {
      forall k :: k in entries ==>
        k in m0 && entries[k] == if k in done && m0[k].go.Some? then Deactivated(m0[k], now) else m0[k]
    }

    /**
     * `turnedOff` lists, each once, the keys in `done` whose entries held a
     * scene object, in the order they were touched, and the LRU list is `l0`
     * with them moved to the back in that order.
     */
    ghost predicate TurnedOffAs(m0: map<TileKey, CachedChunk>, l0: seq<TileKey>, done: set<TileKey>, turnedOff: seq<TileKey>)
      reads this
    {
      && NoDup(turnedOff)
      && (forall k :: k in turnedOff <==> k in done && k in m0 && m0[k].go.Some?)
      && lru == RemoveSet(l0, Elems(turnedOff)) + turnedOff
    }

    /** One key of pass 2 of the sweep. */
    method DeactivateOne(k: TileKey, now: real, ghost m0: map<TileKey, CachedChunk>, ghost l0: seq<TileKey>,
                         ghost done: set<TileKey>, ghost turnedOff: seq<TileKey>) returns (ghost turnedOff1: seq<TileKey>)
      requires Valid() && entries.Keys == m0.Keys && k in m0 && k !in done
      requires SweptAs(m0, done, now) && TurnedOffAs(m0, l0, done, turnedOff)
      modifies this
      ensures Valid() && entries.Keys == m0.Keys
      ensures SweptAs(m0, done + {k}, now) && TurnedOffAs(m0, l0, done + {k}, turnedOff1)
      ensures pool == old(pool) && statsPooledThisFrame == old(statsPooledThisFrame)
    {
      var ok := Deactivate(k, now);
      turnedOff1 := turnedOff;
      if ok {
        SweepLruStep(l0, turnedOff, k);
        NoDupConcat(turnedOff, [k]);
        turnedOff1 := turnedOff + [k];
      }
    }

    /** Pushes an evicted entry's scene object onto the pool, hidden and with its deformer disabled. */
    method ReturnToPool(c: CachedChunk)
      modifies this`pool, this`statsPooledThisFrame
      ensures pool == old(pool) + (if c.go.Some? then [Released(c)] else [])
      ensures statsPooledThisFrame == old(statsPooledThisFrame) + (if c.go.Some? then 1 else 0)
    {
      if c.go.None? {
        return;
      }
      pool := pool + [Released(c)];
      statsPooledThisFrame := statsPooledThisFrame + 1;
    }

    /**
     * Unless every tile is kept, evicts inactive entries from the LRU head
     * until at most `maxTiles` remain; active entries are never evicted.
     */
    method EnforceCapacity() returns (ghost evicted: seq<TileKey>)
      requires Valid()
      modifies this
      ensures Valid()
      ensures evicted == if keepAll then [] else Evictions(old(lru), old(entries), |old(entries)|, maxTiles)
      ensures forall k :: k in evicted ==> k in old(entries)
      ensures entries == old(entries) - Elems(evicted) && |entries| == |old(entries)| - |evicted|
      ensures lru == RemoveSet(old(lru), Elems(evicted))
      ensures pool == old(pool) + PooledHandles(evicted, old(entries))
      ensures statsPooledThisFrame == old(statsPooledThisFrame) + |PooledHandles(evicted, old(entries))|
    {
      evicted := [];
      ghost var m0 := entries;
      assert Elems(evicted) == {};
      RemoveSetDisjoint(lru, {});
      assert entries == m0 - {};
      if keepAll {
        return;
      }
      if |entries| <= maxTiles {
        return;
      }
      // The walk follows the list as it stood on entry: the successor of a
      // node is read before the node is unlinked.
      var order := lru;
      var j := 0;
      assert order[..j] == [];
      while |entries| > maxTiles && j < |order|
        invariant j <= |order| && Valid()
        invariant evicted == Inactives(order[..j], m0) && |m0| - |evicted| >= maxTiles
        invariant WalkState(order, m0, old(pool), old(statsPooledThisFrame), evicted)
        decreases |order| - j
      {
        var next := j + 1;
        evicted := VisitForEviction(order, j, next, m0, old(pool), old(statsPooledThisFrame), evicted);
        j := next;
      }
      WalkResult(order, m0, j, maxTiles);
    }

    /**
     * The state of the eviction walk over `order` (the LRU list on entry) once
     * the keys `evicted` have been removed from the map `m0` and their scene
     * objects pushed on the pool `p0`.
     */
    ghost predicate WalkState(order: seq<TileKey>, m0: map<TileKey, CachedChunk>, p0: seq<GameObject>, s0: int,
                              evicted: seq<TileKey>)
      reads this
    {
      WalkFields(order, m0, p0, s0, evicted, lru, entries, pool, statsPooledThisFrame)
    }

    /** One iteration of the eviction walk: the key at `order[j]` goes if its entry is inactive. */
    method VisitForEviction(order: seq<TileKey>, j: nat, next: nat, ghost m0: map<TileKey, CachedChunk>,
                            ghost p0: seq<GameObject>, ghost s0: int, ghost evicted: seq<TileKey>)
      returns (ghost evicted1: seq<TileKey>)
      requires Valid() && NoDup(order) && Elems(order) == m0.Keys && j < |order| && next == j + 1
      requires evicted == Inactives(order[..j], m0) && |entries| > maxTiles
      requires WalkState(order, m0, p0, s0, evicted)
      modifies this
      ensures Valid() && evicted1 == Inactives(order[..next], m0) && |m0| - |evicted1| >= maxTiles
      ensures WalkState(order, m0, p0, s0, evicted1)
    {
      var key := order[j];
      WalkStep(order, m0, j, next);
      Unevicted(m0, Elems(evicted), key);
      evicted1 := evicted;
      if key in entries && !entries[key].isActive {
        evicted1 := EvictVisited(order, key, m0, p0, s0, evicted);
      }
    }

    /** The evicting branch of one walk step: `key`'s entry leaves and its scene object is pooled. */
    method EvictVisited(order: seq<TileKey>, key: TileKey, ghost m0: map<TileKey, CachedChunk>,
                        ghost p0: seq<GameObject>, ghost s0: int, ghost evicted: seq<TileKey>)
      returns (ghost evicted1: seq<TileKey>)
      requires Valid() && key in m0 && key in entries && key !in evicted && NoDup(evicted)
      requires WalkState(order, m0, p0, s0, evicted)
      modifies this
      ensures Valid() && evicted1 == evicted + [key]
      ensures WalkState(order, m0, p0, s0, evicted1)
    {
      WalkAdvance(order, m0, p0, s0, evicted, key, lru, entries, pool, statsPooledThisFrame);
      EvictEntry(key);
      evicted1 := evicted + [key];
    }

    /** Releases one entry's scene object to the pool and unlinks the entry from the map and the LRU list. */
    method EvictEntry(key: TileKey)
      requires Valid() && key in entries
      modifies this
      ensures Valid()
      ensures entries == old(entries) - {key} && lru == Without(old(lru), key)
      ensures pool == old(pool) + (if old(entries)[key].go.Some? then [Released(old(entries)[key])] else [])
      ensures statsPooledThisFrame == old(statsPooledThisFrame) + (if old(entries)[key].go.Some? then 1 else 0)
    {
      ReturnToPool(entries[key]);
      WithoutNoDup(lru, key);
      entries := entries - {key};
      lru := Without(lru, key);
    }

    /** Pops the most recently pooled scene object, or none when the pool is empty. */
    method RentFromPool() returns (go: Option<GameObject>)
      modifies this`pool
      ensures old(pool) == [] ==> go == None && pool == []
      ensures old(pool) != [] ==> go == Some(old(pool)[|old(pool)| - 1]) && pool == old(pool)[..|old(pool)| - 1]
    {
      if pool == [] {
        return None;
      }
      go := Some(pool[|pool| - 1]);
      pool := pool[..|pool| - 1];
    }

    /**
     * Destroys every owned scene object, cached or pooled, and empties the entries,
     * the LRU list and the pool; returns the destroyed objects.
     */
    method DestroyAll() returns (destroyed: set<GameObject>)
      requires Valid()
      modifies this
      ensures Valid()
      ensures entries == map[] && lru == [] && pool == [] && statsPooledThisFrame == 0
      ensures destroyed == LiveHandles(old(entries)) + Elems(old(pool))
    {
      destroyed := {};
      var remaining := entries.Keys;
      while remaining != {}
        invariant remaining <= entries.Keys && entries == old(entries)
        invariant pool == old(pool)
        invariant destroyed == set k | k in entries && k !in remaining && entries[k].go.Some? :: entries[k].go.value
        decreases remaining
      {
        var k :| k in remaining;
        if entries[k].go.Some? {
          destroyed := destroyed + {entries[k].go.value};
        }
        remaining := remaining - {k};
      }
      entries := map[];
      lru := [];
      ghost var popped: seq<GameObject> := [];
      while pool != []
        invariant entries == map[] && lru == [] && Valid()
        invariant old(pool) == pool + popped
        invariant destroyed == LiveHandles(old(entries)) + Elems(popped)
        decreases |pool|
      {
        var go := pool[|pool| - 1];
        popped := [go] + popped;
        pool := pool[..|pool| - 1];
        destroyed := destroyed + {go};
      }
      statsPooledThisFrame := 0;
    }
  }
}
