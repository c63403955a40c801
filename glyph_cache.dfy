/** renderer/src/glyph/glyph_cache.rs: a mark-and-sweep cache of rendered glyphs. Rasterizing,
    padding, distance-field rendering and the texture upload are abstract. */
module GlyphCache {
  import opened Wrappers
  import opened SwashImage

  /** The part of `GlyphRenderParam` that `render_glyph` looks at. */
  datatype RenderParam = RenderParam(sdf: bool)

  /** `RenderGlyphKey`, over an abstract cache key. */
  datatype RenderGlyphKey<T> = RenderGlyphKey(text: T, param: RenderParam)

  /** `RenderGlyph`: where the texture sits relative to the pen position and whether it is
      drawn with the distance-field pipeline (`param.pipeline()`); the texture itself is not
      modelled. */
  datatype RenderGlyph = RenderGlyph(placement: Placement, sdfPipeline: bool)

  /** `render_glyph`, given the rasterized image, `pad_image` and `render_sdf` of the glyph
      image renderer: nothing for a missing, empty or non-mask image; otherwise the
      distance field or the padded image, whose placement the glyph takes. */
  function RenderGlyphFrom(image: Option<Image>, param: RenderParam,
                          pad: Image -> Image, renderSdf: Image -> Option<Image>): (r: Option<RenderGlyph>)
    ensures image.None? ==> r.None?
    ensures image.Some? && (image.value.placement.width == 0 || image.value.placement.height == 0) ==> r.None?
    ensures image.Some? && image.value.content != Mask ==> r.None?
    ensures r.Some? ==> r.value.sdfPipeline == param.sdf
    ensures (image.Some? && image.value.placement.width > 0 && image.value.placement.height > 0 &&
             image.value.content == Mask) ==>
      if param.sdf then
        (r.Some? <==> renderSdf(image.value).Some?) &&
        (r.Some? ==> r.value.placement == renderSdf(image.value).value.placement)
      else r == Some(RenderGlyph(pad(image.value).placement, false))
  {
    if image.None? then None
    else if image.value.placement.width == 0 || image.value.placement.height == 0 then None
    else if image.value.content != Mask then None
    else if param.sdf then
      match renderSdf(image.value)
      case Some(sdfImage) => Some(RenderGlyph(sdfImage.placement, true))
      case None => None
    else Some(RenderGlyph(pad(image.value).placement, false))
  }

  /** `GlyphCache` over keys `K`; `render` stands for `render_glyph` of a key. */
  class GlyphCache<K(==)> {
    const render: K -> Option<RenderGlyph>
    var cache: map<K, Option<RenderGlyph>>
    var retainer: set<K>

    /** Every cached entry, a failed render included, is what rendering its key gives. */
    ghost predicate Valid()
      reads this
    {
      forall k :: k in cache ==> cache[k] == render(k)
    }

    /** `GlyphCache::default`: nothing cached or marked. */
    constructor(render: K -> Option<RenderGlyph>)
      ensures Valid() && this.render == render
      ensures cache == map[] && retainer == {}
    {
      this.render := render;
      cache := map[];
      retainer := {};
    }

    /** `get`: marks the key as used and returns its cached entry, rendering (and caching)
        it only when it is not cached yet; `rendered` says whether it was rendered now. */
    method Get(key: K) returns (r: Option<RenderGlyph>, rendered: bool)
      requires Valid()
      modifies this
      ensures Valid()
      ensures retainer == old(retainer) + {key}
      ensures r == render(key)
      ensures rendered <==> key !in old(cache)
      ensures cache == old(cache)[key := r]
    {
      retainer := retainer + {key};
      if key in cache {
        return cache[key], false;
      }
      var glyph := render(key);
      cache := cache[key := glyph];
      return glyph, true;
    }

    /** `flush_unused`: keeps exactly the entries used since the last flush and clears the
        marks. */
    method FlushUnused()
      requires Valid()
      modifies this
      ensures Valid()
      ensures cache.Keys == old(cache.Keys) * old(retainer)
      ensures forall k :: k in cache ==> cache[k] == old(cache[k])
      ensures retainer == {}
    {
      cache := map k | k in cache && k in retainer :: cache[k];
      retainer := {};
    }
  }

  /** A key used again right after it was rendered is not rendered a second time: two `get`s
      in a row render at most once. */
  method GetTwiceRendersOnce<K(==)>(c: GlyphCache<K>, key: K)
    returns (first: Option<RenderGlyph>, second: Option<RenderGlyph>, renders: nat)
    requires c.Valid()
    modifies c
    ensures first == second
    ensures renders <= 1 && (renders == 1 <==> key !in old(c.cache))
    ensures c.cache == old(c.cache)[key := first]
  {
    var renderedFirst, renderedSecond;
    first, renderedFirst := c.Get(key);
    second, renderedSecond := c.Get(key);
    renders := (if renderedFirst then 1 else 0) + (if renderedSecond then 1 else 0);
  }
}
