/** renderer/src/glyph/atlas.rs: the older glyph atlas, which stores images without handing
    out their rectangles. The allocator is abstract; the texture is represented by the images
    uploaded to it and where. */
module LegacyGlyphAtlas {
  import opened Wrappers
  import opened Geometry
  import opened SwashImage
  import GlyphAtlas

  /** `INITIAL_SIZE`. */
  const InitialSize: nat := 1024

  /** `GlyphAtlas` over keys `K` and an allocator state `A`. */
  class LegacyGlyphAtlas<K(==), A> {
    const maxDim: nat
    const allocate: (A, nat, nat) -> (A, Option<IRect>)
    const resize: (A, nat) -> A
    var dim: nat
    var allocator: A
    var images: map<K, (IRect, Image)>
    var texture: set<(IPoint, Image)>

    /** The side never exceeds the device's limit and the texture holds exactly the stored
        images. */
    ghost predicate Valid()
      reads this
    {
      dim <= maxDim && texture == GlyphAtlas.Uploads(images)
    }

    /** `GlyphAtlas::new`: an empty square atlas of side `min(1024, max)`. */
    constructor(maxDim: nat, newAllocator: nat -> A,
                allocate: (A, nat, nat) -> (A, Option<IRect>), resize: (A, nat) -> A)
      ensures Valid()
      ensures this.maxDim == maxDim && this.allocate == allocate && this.resize == resize
      ensures dim == GlyphAtlas.Min(InitialSize, maxDim) && allocator == newAllocator(dim)
      ensures images == map[] && texture == {}
    {
      this.maxDim := maxDim;
      this.allocate := allocate;
      this.resize := resize;
      var d := GlyphAtlas.Min(InitialSize, maxDim);
      dim := d;
      allocator := newAllocator(d);
      images := map[];
      texture := {};
    }

    /** `exists`: whether an image is stored for the key. */
    predicate Exists(key: K)
      reads this
      ensures Exists(key) <==> key in images.Keys
    {
      key in images
    }

    /** `grow`: a texture of side `min(2 side, max)` with the allocator grown to it and every
        stored image uploaded again at its unchanged position; an error at the cap. */
    method Grow() returns (r: Result<(), string>)
      requires Valid()
      modifies this
      ensures Valid()
      ensures images == old(images)
      ensures r.Err? <==> GlyphAtlas.GrownDim(old(dim), maxDim) == old(dim)
      ensures r.Err? ==> dim == old(dim) && allocator == old(allocator) && texture == old(texture)
      ensures r.Ok? ==> dim == GlyphAtlas.GrownDim(old(dim), maxDim) && allocator == resize(old(allocator), dim)
    {
      var currentDim := dim;
      var newDim := GlyphAtlas.GrownDim(currentDim, maxDim);
      if newDim == currentDim {
        return Err("Atlas reached its maximum size");
      }
      dim := newDim;
      allocator := resize(allocator, newDim);
      texture := GlyphAtlas.Uploads(images);
      return Ok(());
    }

    /** `store`: allocates room for the image, growing the atlas until the allocator finds
        some, uploads it and records it, after which the key exists; an error when the atlas
        cannot grow further. */
    method Store(key: K, image: Image) returns (r: Result<(), string>)
      requires Valid()
      requires !Exists(key)
      modifies this
      ensures Valid()
      ensures r.Ok? ==> Exists(key) && images.Keys == old(images.Keys) + {key} && images[key].1 == image
      ensures r.Ok? ==> forall k :: k in old(images) ==> images[k] == old(images[k])
      ensures r.Err? ==> images == old(images) && !Exists(key)
    {
      while true
        invariant Valid() && key !in images && images == old(images)
        decreases maxDim - dim
      {
        var (newAllocator, allocation) := allocate(allocator, image.placement.width, image.placement.height);
        allocator := newAllocator;
        if allocation.Some? {
          GlyphAtlas.UploadsInsert(images, key, (allocation.value, image));
          texture := texture + {(allocation.value.min, image)};
          images := images[key := (allocation.value, image)];
          return Ok(());
        }
        var grown := Grow();
        if grown.Err? {
          return Err(grown.error);
        }
      }
    }
  }
}
