/**
 * The per-texture height sampler memo. Textures are opaque handles; a sampler
 * is an object whose identity matters (a cached one is handed out again).
 */
module HeightData {
  import opened Wrappers

  /** Opaque handle of a height-map texture. */
  datatype Texture = Texture(id: nat)

  /** A height sampler bound to one texture; its sampling is not part of this model. */
  class HeightSampler {
    const tex: Texture

    constructor (texture: Texture)
      ensures tex == texture
    {
      tex := texture;
    }
  }

  class HeightSamplerCache {
    var cache: map<Texture, HeightSampler>

    /** Each sampler is stored under its own texture. */
    ghost predicate Valid()
      reads this
    {
      forall t :: t in cache ==> cache[t].tex == t
    }

    constructor ()
      ensures Valid() && cache == map[]
    {
      cache := map[];
    }

    /**
     * The sampler for `tex`: none for no texture, the cached one if there is
     * one, otherwise a newly built one that is cached from then on.
     */
    method Get(tex: Option<Texture>) returns (s: HeightSampler?)
      requires Valid()
      modifies this
      ensures Valid()
      ensures tex == None ==> s == null && cache == old(cache)
      ensures tex.Some? && tex.value in old(cache) ==> s == old(cache)[tex.value] && cache == old(cache)
      ensures tex.Some? && tex.value !in old(cache) ==>
                s != null && fresh(s) && s.tex == tex.value && cache == old(cache)[tex.value := s]
      ensures tex.Some? ==> s != null && s.tex == tex.value && tex.value in cache && cache[tex.value] == s
    {
      if tex == None {
        return null;
      }
      if tex.value in cache {
        return cache[tex.value];
      }
      var built := new HeightSampler(tex.value);
      cache := cache[tex.value := built];
      return built;
    }

    method Clear()
      modifies this
      ensures Valid() && cache == map[]
    {
      cache := map[];
    }
  }
}
