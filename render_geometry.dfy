/** renderer/src/render_geometry.rs, its version logic: the surface size and camera bump a
    head version, and the derived matrices are cached against it. The matrices and the camera
    are abstract; the functions that build them are parameters. */
module RenderGeometry {
  import opened Wrappers
  import opened Transactions
  import opened ToolsVersioning

  /** The matrix builders: `pixel_matrix(surface_size)`, the camera's
      `view_projection_matrix(CAMERA_Z_RANGE, surface_size)`, and matrix multiplication. */
  datatype MatrixOps<!C, !M> = MatrixOps(pixel: ((nat, nat)) -> M, cameraProjection: (C, (nat, nat)) -> M,
                                         compose: (M, M) -> M)

  /** `Derived<T>`: nothing until first resolved, then a versioned value. */
  type Derived<T> = Option<Stamped<T>>

  /** `Derived::resolve`: on first use stores the resolver's result at the head version; later
      it resolves the versioned value, recomputing only when the head version has moved on. */
  function ResolveDerived<T>(d: Derived<T>, head: Version, recomputed: T): (r: Outcome<(T, Derived<T>)>)
    ensures d.None? ==> r == Returns((recomputed, Some(Stamped(recomputed, head))))
    ensures d.Some? && d.value.updatedAt < head ==> r == Returns((recomputed, Some(Stamped(recomputed, head))))
    ensures d.Some? && d.value.updatedAt == head ==> r == Returns((d.value.value, d))
    ensures r.Panics? <==> d.Some? && head < d.value.updatedAt
  {
    if d.None? then Returns((recomputed, Some(Stamped(recomputed, head))))
    else
      match Resolved(d.value, head, recomputed)
      case Panics => Panics
      case Returns(s) => Returns((s.value, Some(s)))
  }

  /** `DerivedCache`. */
  datatype DerivedCache<M> = DerivedCache(pixelMatrix: Derived<M>, cameraProjection: Derived<M>,
                                          viewProjection: Derived<M>)

  /** The view projection of a camera and surface size: the camera's projection times the
      pixel matrix. */
  function TrueViewProjection<C, M>(ops: MatrixOps<C, M>, camera: C, size: (nat, nat)): M
  {
    ops.compose(ops.cameraProjection(camera, size), ops.pixel(size))
  }

  /** A cache entry is never ahead of the head version, and one stamped with the head version
      holds the value for the current camera and size. */
  ghost predicate Fresh<M>(d: Derived<M>, head: Version, truth: M) {
    d.Some? ==> d.value.updatedAt <= head && (d.value.updatedAt == head ==> d.value.value == truth)
  }

  ghost predicate CacheValid<C, M>(ops: MatrixOps<C, M>, cache: DerivedCache<M>, head: Version, camera: C, size: (nat, nat)) {
    Fresh(cache.pixelMatrix, head, ops.pixel(size)) &&
    Fresh(cache.cameraProjection, head, ops.cameraProjection(camera, size)) &&
    Fresh(cache.viewProjection, head, TrueViewProjection(ops, camera, size))
  }

  /** `DerivedCache::view_projection`: resolves the view projection, and only when that has to
      be recomputed the pixel matrix and camera projection it is built from. */
  function CachedViewProjection<C, M>(ops: MatrixOps<C, M>, cache: DerivedCache<M>, head: Version,
                                      camera: C, size: (nat, nat)): Outcome<(M, DerivedCache<M>)>
  {
    var vp := cache.viewProjection;
    if vp.Some? && vp.value.updatedAt == head then Returns((vp.value.value, cache))
    else
      match ResolveDerived(cache.pixelMatrix, head, ops.pixel(size))
      case Panics => Panics
      case Returns((pixel, pixelCache)) =>
        match ResolveDerived(cache.cameraProjection, head, ops.cameraProjection(camera, size))
        case Panics => Panics
        case Returns((projection, projectionCache)) =>
          match ResolveDerived(vp, head, ops.compose(projection, pixel))
          case Panics => Panics
          case Returns((m, vpCache)) => Returns((m, DerivedCache(pixelCache, projectionCache, vpCache)))
  }

  /** With a valid cache, `view_projection` never panics, never returns a stale matrix, and
      leaves the cache valid with the view projection stamped at the head version. */
  lemma CachedViewProjectionIsCurrent<C, M>(ops: MatrixOps<C, M>, cache: DerivedCache<M>, head: Version,
                                            camera: C, size: (nat, nat))
    requires CacheValid(ops, cache, head, camera, size)
    ensures CachedViewProjection(ops, cache, head, camera, size).Returns?
    ensures CachedViewProjection(ops, cache, head, camera, size).value.0 == TrueViewProjection(ops, camera, size)
    ensures CacheValid(ops, CachedViewProjection(ops, cache, head, camera, size).value.1, head, camera, size)
    ensures CachedViewProjection(ops, cache, head, camera, size).value.1.viewProjection ==
      Some(Stamped(TrueViewProjection(ops, camera, size), head))
  {
  }

  /** A newer head version keeps every cache entry valid for whatever camera and size go with
      it, since no entry is stamped with it yet. */
  lemma BumpKeepsCacheValid<C, M>(ops: MatrixOps<C, M>, cache: DerivedCache<M>, head: Version,
                                  camera: C, size: (nat, nat), camera': C, size': (nat, nat))
    requires CacheValid(ops, cache, head, camera, size)
    ensures CacheValid(ops, cache, head + 1, camera', size')
  {
  }

  /** `RenderGeometry`. */
  class RenderGeometry<C(==), M> {
    var surfaceSize: (nat, nat)
    var camera: C
    var headVersion: Version
    var derived: DerivedCache<M>
    const ops: MatrixOps<C, M>

    ghost predicate Valid()
      reads this
    {
      CacheValid(ops, derived, headVersion, camera, surfaceSize)
    }

    /** `new`: head version 1 and nothing derived yet. */
    constructor (ops: MatrixOps<C, M>, surfaceSize: (nat, nat), camera: C)
      ensures Valid()
      ensures this.surfaceSize == surfaceSize && this.camera == camera && headVersion == 1
      ensures derived == DerivedCache(None, None, None) && this.ops == ops
    {
      this.ops := ops;
      this.surfaceSize := surfaceSize;
      this.camera := camera;
      headVersion := 1;
      derived := DerivedCache(None, None, None);
    }

    /** `set_surface_size`: a different size bumps the head version. */
    method SetSurfaceSize(size: (nat, nat))
      requires Valid()
      modifies this
      ensures Valid() && surfaceSize == size && camera == old(camera) && derived == old(derived)
      ensures headVersion == if size != old(surfaceSize) then old(headVersion) + 1 else old(headVersion)
    {
      if surfaceSize != size {
        BumpKeepsCacheValid(ops, derived, headVersion, camera, surfaceSize, camera, size);
        surfaceSize := size;
        headVersion := headVersion + 1;
      }
    }

    /** `set_camera`: a different camera bumps the head version. */
    method SetCamera(c: C)
      requires Valid()
      modifies this
      ensures Valid() && camera == c && surfaceSize == old(surfaceSize) && derived == old(derived)
      ensures headVersion == if c != old(camera) then old(headVersion) + 1 else old(headVersion)
    {
      if camera != c {
        BumpKeepsCacheValid(ops, derived, headVersion, camera, surfaceSize, c, surfaceSize);
        camera := c;
        headVersion := headVersion + 1;
      }
    }

    /** `view_projection`: the current view projection, through the cache. */
    method ViewProjection() returns (m: M)
      requires Valid()
      modifies this
      ensures Valid()
      ensures m == TrueViewProjection(ops, camera, surfaceSize)
      ensures surfaceSize == old(surfaceSize) && camera == old(camera) && headVersion == old(headVersion)
    {
      CachedViewProjectionIsCurrent(ops, derived, headVersion, camera, surfaceSize);
      var r := CachedViewProjection(ops, derived, headVersion, camera, surfaceSize);
      m := r.value.0;
      derived := r.value.1;
    }
  }
}
