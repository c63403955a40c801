/** renderer/src/glyph/glyph_atlas.rs: a square texture atlas that stores rasterized glyph
    images, growing by doubling when the allocator runs out of room. The allocator is
    abstract; the texture is represented by the images uploaded to it and where. */
module GlyphAtlas {
  import opened Wrappers
  import opened Geometry
  import opened SwashImage

  /** `INITIAL_SIZE`. */
  const InitialSize: nat := 128
  /** `GROWTH_FACTOR`. */
  const GrowthFactor: nat := 2

  /** The texture formats of the atlas textures. */
  datatype TextureFormat = R8Unorm | Rgba8Unorm | OtherFormat

  function Min(a: nat, b: nat): nat
  {
    if a < b then a else b
  }

  /** The bytes per pixel `upload` writes for an image; a subpixel mask panics. */
  function BytesPerPixel(content: Content): (r: Outcome<nat>)
    ensures r.Panics? <==> content == SubpixelMask
    ensures content == Mask ==> r == Returns(1)
    ensures content == Color ==> r == Returns(4)
  {
    match content
    case Mask => Returns(1)
    case SubpixelMask => Panics
    case Color => Returns(4)
  }

  /** The side `grow` proposes: twice the current one, capped by the device's limit. */
  function GrownDim(dim: nat, maxDim: nat): (r: nat)
    ensures r <= maxDim
    ensures 0 < dim < maxDim ==> dim < r
    ensures dim <= maxDim ==> (r == dim <==> dim == 0 || dim == maxDim)
  {
    assert dim * GrowthFactor == 2 * dim;
    Min(dim * GrowthFactor, maxDim)
  }

  /** What the atlas texture holds: every stored image uploaded at its allocation's top
      left corner. */
  function Uploads<K>(images: map<K, (IRect, Image)>): set<(IPoint, Image)>
  {
    set k | k in images :: (images[k].0.min, images[k].1)
  }

  /** Recording one more image adds exactly its upload to the texture. */
  lemma UploadsInsert<K>(images: map<K, (IRect, Image)>, key: K, entry: (IRect, Image))
    requires key !in images
    ensures Uploads(images[key := entry]) == Uploads(images) + {(entry.0.min, entry.1)}
  {
    var updated := images[key := entry];
    forall u | u in Uploads(updated)
      ensures u in Uploads(images) + {(entry.0.min, entry.1)}
    {
      var k :| k in updated && u == (updated[k].0.min, updated[k].1);
      if k != key {
        assert u == (images[k].0.min, images[k].1);
      }
    }
    forall u | u in Uploads(images)
      ensures u in Uploads(updated)
    {
      var k :| k in images && u == (images[k].0.min, images[k].1);
      assert updated[k] == images[k];
    }
    assert key in updated && (entry.0.min, entry.1) == (updated[key].0.min, updated[key].1);
  }

  /** A stored image's rectangle: from the allocation's top left corner, exactly the image's
      size. */
  function ImageRect(allocation: IRect, image: Image): (r: IRect)
    ensures r.min == allocation.min
    ensures r.max.x - r.min.x == image.placement.width && r.max.y - r.min.y == image.placement.height
  {
    IRect(allocation.min, IPoint(allocation.min.x + image.placement.width, allocation.min.y + image.placement.height))
  }

  /** `GlyphAtlas` over keys `K` and an allocator state `A`. `allocate` is the allocator's
      `allocate` (the new allocator state and maybe a rectangle), `resize` its `grow`. */
  class GlyphAtlas<K(==), A> {
    const maxDim: nat
    const format: TextureFormat
    const allocate: (A, nat, nat) -> (A, Option<IRect>)
    const resize: (A, nat) -> A
    var dim: nat
    var allocator: A
    var images: map<K, (IRect, Image)>
    var texture: set<(IPoint, Image)>

    /** The side never exceeds the device's limit, every stored image can be uploaded, and
        the texture holds exactly the stored images. */
    ghost predicate Valid()
      reads this
    {
      dim <= maxDim &&
      (forall k :: k in images ==> images[k].1.content != SubpixelMask) &&
      texture == Uploads(images)
    }

    /** `GlyphAtlas::new`: an empty square atlas of side `min(128, max)`; only the two
        8-bit formats are accepted. */
    constructor(maxDim: nat, format: TextureFormat, newAllocator: nat -> A,
                allocate: (A, nat, nat) -> (A, Option<IRect>), resize: (A, nat) -> A)
      requires format == R8Unorm || format == Rgba8Unorm
      ensures Valid()
      ensures this.maxDim == maxDim && this.format == format
      ensures this.allocate == allocate && this.resize == resize
      ensures dim == Min(InitialSize, maxDim) && allocator == newAllocator(dim)
      ensures images == map[] && texture == {}
    {
      this.maxDim := maxDim;
      this.format := format;
      this.allocate := allocate;
      this.resize := resize;
      var d := Min(InitialSize, maxDim);
      dim := d;
      allocator := newAllocator(d);
      images := map[];
      texture := {};
    }

    /** `size`. */
    function Size(): (r: (nat, nat))
      reads this
      ensures r.0 == r.1 == dim
    {
      (dim, dim)
    }

    /** `get`: for a stored key its rectangle, from its allocation's corner with exactly the
        image's size, and the image; `None` for any other key. */
    function Get(key: K): (r: Option<(IRect, Image)>)
      reads this
      ensures r.None? <==> key !in images
      ensures r.Some? ==> r.value.1 == images[key].1 && r.value.0 == ImageRect(images[key].0, images[key].1)
    {
      if key in images then
        var (allocation, image) := images[key];
        Some((ImageRect(allocation, image), image))
      else None
    }

    /** `grow`: a texture of side `min(2 side, max)` with the allocator grown to it and every
        stored image uploaded again at its unchanged position; an error when the side cannot
        grow. */
    method Grow() returns (r: Result<(), string>)
      requires Valid()
      modifies this
      ensures Valid()
      ensures images == old(images)
      ensures r.Err? <==> GrownDim(old(dim), maxDim) == old(dim)
      ensures r.Err? ==> dim == old(dim) && allocator == old(allocator) && texture == old(texture)
      ensures r.Ok? ==> dim == GrownDim(old(dim), maxDim) && allocator == resize(old(allocator), dim)
    {
      var currentDim := dim;
      var newDim := GrownDim(currentDim, maxDim);
      if newDim == currentDim {
        return Err("Atlas reached its maximum size");
      }
      dim := newDim;
      texture := {};
      allocator := resize(allocator, newDim);
      UploadAll();
      return Ok(());
    }

    /** `upload_all`: uploads every stored image at its allocation's corner. */
    method UploadAll()
      requires forall k :: k in images ==> images[k].1.content != SubpixelMask
      modifies this
      ensures texture == old(texture) + Uploads(images)
      ensures dim == old(dim) && allocator == old(allocator) && images == old(images)
    {
      texture := texture + Uploads(images);
    }

    /** `store`: allocates room for the image, growing the atlas until the allocator finds
        some, uploads it there and records it; the rectangle from the allocation's corner
        with exactly the image's size. An error when the atlas cannot grow further; a panic
        for a subpixel mask. */
    method Store(key: K, image: Image) returns (r: Outcome<Result<IRect, string>>)
      requires Valid()
      requires key !in images
      modifies this
      ensures r.Panics? ==> image.content == SubpixelMask
      ensures r.Returns? ==> Valid()
      ensures r.Returns? && r.value.Ok? ==>
        images.Keys == old(images.Keys) + {key} && images[key].1 == image &&
        (forall k :: k in old(images) ==> images[k] == old(images[k])) &&
        r.value.value == ImageRect(images[key].0, image) && Get(key) == Some((r.value.value, image))
      ensures r.Returns? && r.value.Err? ==> images == old(images)
    {
      while true
        invariant Valid() && key !in images && images == old(images)
        decreases maxDim - dim
      {
        var (newAllocator, allocation) := allocate(allocator, image.placement.width, image.placement.height);
        allocator := newAllocator;
        if allocation.Some? {
          var bpp := BytesPerPixel(image.content);
          if bpp.Panics? {
            return Panics;
          }
          UploadsInsert(images, key, (allocation.value, image));
          texture := texture + {(allocation.value.min, image)};
          images := images[key := (allocation.value, image)];
          return Returns(Ok(ImageRect(allocation.value, image)));
        }
        var grown := Grow();
        if grown.Err? {
          return Returns(Err(grown.error));
        }
      }
    }
  }
}
