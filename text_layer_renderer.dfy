/** renderer/src/text_layer/renderer.rs: finding or rasterizing each glyph of the text runs in
    one of two atlases and turning the glyphs into SDF and color quad batches. The rasterizer
    (`rasterize_glyph_with_padding`) is an abstract function of the glyph key. */
module TextLayerRenderer {
  import opened Wrappers
  import opened Geometry
  import SwashImage
  import ShapesText
  import GlyphAtlas
  import SdfAtlas
  import ColorAtlas
  import AtlasRenderer

  /** `RasterizedGlyphKey`: the glyph's cache key and how to rasterize it. */
  datatype RasterizedGlyphKey = RasterizedGlyphKey(text: CacheKey, preferSdf: bool, hinted: bool, weight: nat)

  /** `AtlasKind`. */
  datatype AtlasKind = Sdf | Color

  /** Where a glyph is found: its atlas rectangle, its image's placement and the atlas. */
  type AtlasEntry = (IRect, SwashImage.Placement, AtlasKind)

  /** The key the text layer rasterizes a glyph with: distance fields preferred, hinted, at
      the run's weight. */
  function KeyFor(weight: ShapesText.TextWeight, glyph: ShapesText.RunGlyph): (r: RasterizedGlyphKey)
    ensures r.text == glyph.key && r.preferSdf && r.hinted && r.weight == weight.weight
  {
    RasterizedGlyphKey(glyph.key, true, true, weight.weight)
  }

  /** An integer point in the `z = 0` plane. */
  function Point3Of(p: IPoint): Vector3
  {
    Vector3(p.x as real, p.y as real, 0.0)
  }

  /** `glyph_vertices`: the four corners of the glyph's placed rectangle, left top, left
      bottom, right bottom, right top, in the plane `z = 0`. */
  function GlyphVertices(run: ShapesText.GlyphRun, glyph: ShapesText.RunGlyph, placement: SwashImage.Placement): (r: Quad4<Vector3>)
    ensures forall k :: 0 <= k < 4 ==> r.Seq()[k] == Point3Of(Corner(ShapesText.PlaceGlyph(run, glyph, placement), k))
  {
    var rect := ShapesText.PlaceGlyph(run, glyph, placement);
    var (left, top, right, bottom) := (rect.min.x as real, rect.min.y as real, rect.max.x as real, rect.max.y as real);
    Quad4(Vector3(left, top, 0.0), Vector3(left, bottom, 0.0), Vector3(right, bottom, 0.0), Vector3(right, top, 0.0))
  }

  /** Each corner moved by `translation` (`map(|p| p + translation)`). */
  function Translated(q: Quad4<Vector3>, translation: Vector3): (r: Quad4<Vector3>)
    ensures forall k :: 0 <= k < 4 ==> r.Seq()[k] == Add(q.Seq()[k], translation)
  {
    Quad4(Add(q.v0, translation), Add(q.v1, translation), Add(q.v2, translation), Add(q.v3, translation))
  }

  /** The glyphs of a run, each with its run. */
  function RunPairs(run: ShapesText.GlyphRun): (r: seq<(ShapesText.GlyphRun, ShapesText.RunGlyph)>)
    ensures |r| == |run.glyphs| && forall k :: 0 <= k < |r| ==> r[k] == (run, run.glyphs[k])
  {
    seq(|run.glyphs|, k requires 0 <= k < |run.glyphs| => (run, run.glyphs[k]))
  }

  /** The first `j + 1` glyph pairs of a run are its first `j` and glyph `j`. */
  lemma RunPairsPrefix(run: ShapesText.GlyphRun, j: nat)
    requires j < |run.glyphs|
    ensures j + 1 <= |RunPairs(run)|
    ensures RunPairs(run)[..j + 1] == RunPairs(run)[..j] + [(run, run.glyphs[j])]
  {
    assert RunPairs(run)[..j + 1] == RunPairs(run)[..j] + [(run, run.glyphs[j])];
  }

  /** The glyphs of all runs in the order `prepare_runs` visits them. */
  function AllPairs(runs: seq<ShapesText.GlyphRun>): seq<(ShapesText.GlyphRun, ShapesText.RunGlyph)>
  {
    if |runs| == 0 then [] else AllPairs(runs[..|runs| - 1]) + RunPairs(runs[|runs| - 1])
  }

  /** The vertices of a glyph found in an atlas: its quad moved by the run's translation. */
  function InstanceVertices(pair: (ShapesText.GlyphRun, ShapesText.RunGlyph), entry: AtlasEntry): Quad4<Vector3>
  {
    Translated(GlyphVertices(pair.0, pair.1, entry.1), pair.0.translation)
  }

  /** The SDF instances for the glyphs `pairs` found as `lookups`: one per glyph found in the
      SDF atlas, in order, in its run's color; empty glyphs and color glyphs give none. */
  function SdfInstances(pairs: seq<(ShapesText.GlyphRun, ShapesText.RunGlyph)>, lookups: seq<Option<AtlasEntry>>): seq<SdfAtlas.Instance>
    requires |pairs| == |lookups|
  {
    if |pairs| == 0 then []
    else
      var n := |pairs| - 1;
      SdfInstances(pairs[..n], lookups[..n]) +
      (if lookups[n].Some? && lookups[n].value.2 == Sdf
       then [SdfAtlas.Instance(lookups[n].value.0, InstanceVertices(pairs[n], lookups[n].value), pairs[n].0.textColor)]
       else [])
  }

  /** The color instances for the glyphs `pairs` found as `lookups`: one per glyph found in
      the color atlas, in order. */
  function ColorInstances(pairs: seq<(ShapesText.GlyphRun, ShapesText.RunGlyph)>, lookups: seq<Option<AtlasEntry>>): seq<ColorAtlas.Instance>
    requires |pairs| == |lookups|
  {
    if |pairs| == 0 then []
    else
      var n := |pairs| - 1;
      ColorInstances(pairs[..n], lookups[..n]) +
      (if lookups[n].Some? && lookups[n].value.2 == Color
       then [ColorAtlas.Instance(lookups[n].value.0, InstanceVertices(pairs[n], lookups[n].value))]
       else [])
  }

  /** How many glyphs were found in an atlas. */
  function FoundCount(lookups: seq<Option<AtlasEntry>>): nat
  {
    if |lookups| == 0 then 0
    else FoundCount(lookups[..|lookups| - 1]) + (if lookups[|lookups| - 1].Some? then 1 else 0)
  }

  /** Every found glyph gives exactly one instance, in the atlas it was found in, and empty
      glyphs give none: the two instance lists together are as long as the found glyphs. */
  lemma {:induction false} InstancesCount(pairs: seq<(ShapesText.GlyphRun, ShapesText.RunGlyph)>, lookups: seq<Option<AtlasEntry>>)
    requires |pairs| == |lookups|
    ensures |SdfInstances(pairs, lookups)| + |ColorInstances(pairs, lookups)| == FoundCount(lookups)
  {
    if |pairs| > 0 {
      var n := |pairs| - 1;
      InstancesCount(pairs[..n], lookups[..n]);
    }
  }

  /** When every glyph is empty there are no instances at all. */
  lemma {:induction false} NoInstancesWhenEmpty(pairs: seq<(ShapesText.GlyphRun, ShapesText.RunGlyph)>, lookups: seq<Option<AtlasEntry>>)
    requires |pairs| == |lookups|
    requires forall k :: 0 <= k < |lookups| ==> lookups[k].None?
    ensures SdfInstances(pairs, lookups) == [] && ColorInstances(pairs, lookups) == []
  {
    if |pairs| > 0 {
      var n := |pairs| - 1;
      assert forall k :: 0 <= k < n ==> lookups[..n][k] == lookups[k];
      NoInstancesWhenEmpty(pairs[..n], lookups[..n]);
    }
  }

  /** A `QuadBatch` of SDF or color vertices. */
  type SdfBatch = AtlasRenderer.QuadBatch<SdfAtlas.Vertex>
  type ColorBatch = AtlasRenderer.QuadBatch<ColorAtlas.TextureVertex>

  /** The batch `batch` makes of the instances: none for none; otherwise their vertices and
      one quad per instance. */
  function BatchOf<I, V>(instances: seq<I>, toVertices: I -> Quad4<V>): Option<AtlasRenderer.QuadBatch<V>>
  {
    if |instances| == 0 then None
    else Some(AtlasRenderer.QuadBatch(AtlasRenderer.Vertices(instances, toVertices), |instances|))
  }

  /** The batches `prepare_runs` makes of `runs` when its lookups find `lookups`. */
  predicate PreparedAs(runs: seq<ShapesText.GlyphRun>, lookups: seq<Option<AtlasEntry>>,
                       result: (Option<SdfBatch>, Option<ColorBatch>))
  {
    |lookups| == |AllPairs(runs)| &&
    result == (BatchOf(SdfInstances(AllPairs(runs), lookups), SdfAtlas.ToVertices),
               BatchOf(ColorInstances(AllPairs(runs), lookups), ColorAtlas.ToVertices))
  }

  /** `entry` is what the atlases answer for `key`: the rectangle and placement of its image
      in the SDF or color atlas, or nothing for a glyph known to be empty. */
  predicate FoundIn(key: RasterizedGlyphKey, entry: Option<AtlasEntry>,
                    sdfImages: map<RasterizedGlyphKey, (IRect, SwashImage.Image)>,
                    colorImages: map<RasterizedGlyphKey, (IRect, SwashImage.Image)>, empty: set<RasterizedGlyphKey>)
  {
    match entry
    case None => key in empty
    case Some((rect, placement, Sdf)) =>
      key in sdfImages && rect == GlyphAtlas.ImageRect(sdfImages[key].0, sdfImages[key].1) && placement == sdfImages[key].1.placement
    case Some((rect, placement, Color)) =>
      key in colorImages && rect == GlyphAtlas.ImageRect(colorImages[key].0, colorImages[key].1) && placement == colorImages[key].1.placement
  }

  /** Every glyph's lookup is the atlases' answer for its key. */
  predicate AllFound(pairs: seq<(ShapesText.GlyphRun, ShapesText.RunGlyph)>, lookups: seq<Option<AtlasEntry>>,
                     sdfImages: map<RasterizedGlyphKey, (IRect, SwashImage.Image)>,
                     colorImages: map<RasterizedGlyphKey, (IRect, SwashImage.Image)>, empty: set<RasterizedGlyphKey>)
  {
    |pairs| == |lookups| &&
    forall k :: 0 <= k < |pairs| ==> FoundIn(KeyFor(pairs[k].0.textWeight, pairs[k].1), lookups[k], sdfImages, colorImages, empty)
  }

  /** Every entry of `before` is still in `after`, unchanged. */
  predicate Keeps<K, V(==)>(before: map<K, V>, after: map<K, V>)
  {
    forall k :: k in before ==> k in after && after[k] == before[k]
  }

  /** Answers stay valid while the atlases only gain entries and empty glyphs are remembered. */
  lemma AllFoundKept(pairs: seq<(ShapesText.GlyphRun, ShapesText.RunGlyph)>, lookups: seq<Option<AtlasEntry>>,
                     sdf0: map<RasterizedGlyphKey, (IRect, SwashImage.Image)>, color0: map<RasterizedGlyphKey, (IRect, SwashImage.Image)>,
                     empty0: set<RasterizedGlyphKey>,
                     sdf1: map<RasterizedGlyphKey, (IRect, SwashImage.Image)>, color1: map<RasterizedGlyphKey, (IRect, SwashImage.Image)>,
                     empty1: set<RasterizedGlyphKey>)
    requires AllFound(pairs, lookups, sdf0, color0, empty0)
    requires Keeps(sdf0, sdf1) && Keeps(color0, color1) && empty0 <= empty1
    ensures AllFound(pairs, lookups, sdf1, color1, empty1)
  {
    forall k | 0 <= k < |pairs|
      ensures FoundIn(KeyFor(pairs[k].0.textWeight, pairs[k].1), lookups[k], sdf1, color1, empty1)
    {
      assert FoundIn(KeyFor(pairs[k].0.textWeight, pairs[k].1), lookups[k], sdf0, color0, empty0);
    }
  }

  /** One more glyph answered by the atlases keeps every lookup an answer. */
  lemma AllFoundSnoc(pairs: seq<(ShapesText.GlyphRun, ShapesText.RunGlyph)>, lookups: seq<Option<AtlasEntry>>,
                     pair: (ShapesText.GlyphRun, ShapesText.RunGlyph), entry: Option<AtlasEntry>,
                     sdfImages: map<RasterizedGlyphKey, (IRect, SwashImage.Image)>,
                     colorImages: map<RasterizedGlyphKey, (IRect, SwashImage.Image)>, empty: set<RasterizedGlyphKey>)
    requires AllFound(pairs, lookups, sdfImages, colorImages, empty)
    requires FoundIn(KeyFor(pair.0.textWeight, pair.1), entry, sdfImages, colorImages, empty)
    ensures AllFound(pairs + [pair], lookups + [entry], sdfImages, colorImages, empty)
  {
    forall k | 0 <= k < |pairs| + 1
      ensures FoundIn(KeyFor((pairs + [pair])[k].0.textWeight, (pairs + [pair])[k].1), (lookups + [entry])[k], sdfImages, colorImages, empty)
    {
      if k < |pairs| {
        assert (pairs + [pair])[k] == pairs[k] && (lookups + [entry])[k] == lookups[k];
      }
    }
  }

  /** Every lookup of each of the first `|lookups|` groups is the atlases' answer. */
  predicate GroupsFound(groups: seq<seq<SceneShape>>, lookups: seq<seq<Option<AtlasEntry>>>,
                        sdfImages: map<RasterizedGlyphKey, (IRect, SwashImage.Image)>,
                        colorImages: map<RasterizedGlyphKey, (IRect, SwashImage.Image)>, empty: set<RasterizedGlyphKey>)
  {
    |lookups| <= |groups| &&
    forall h :: 0 <= h < |lookups| ==> AllFound(AllPairs(GlyphRuns(groups[h])), lookups[h], sdfImages, colorImages, empty)
  }

  /** The next group's lookups, answered by the atlases after they only gained entries,
      keep every group's lookups answers. */
  lemma GroupsFoundSnoc(groups: seq<seq<SceneShape>>, lookups: seq<seq<Option<AtlasEntry>>>,
                        groupLookups: seq<Option<AtlasEntry>>,
                        sdf0: map<RasterizedGlyphKey, (IRect, SwashImage.Image)>, color0: map<RasterizedGlyphKey, (IRect, SwashImage.Image)>,
                        empty0: set<RasterizedGlyphKey>,
                        sdf1: map<RasterizedGlyphKey, (IRect, SwashImage.Image)>, color1: map<RasterizedGlyphKey, (IRect, SwashImage.Image)>,
                        empty1: set<RasterizedGlyphKey>)
    requires |lookups| < |groups|
    requires Keeps(sdf0, sdf1) && Keeps(color0, color1) && empty0 <= empty1
    requires AllFound(AllPairs(GlyphRuns(groups[|lookups|])), groupLookups, sdf1, color1, empty1)
    ensures GroupsFound(groups, lookups, sdf0, color0, empty0) ==>
      GroupsFound(groups, lookups + [groupLookups], sdf1, color1, empty1)
  {
    if !GroupsFound(groups, lookups, sdf0, color0, empty0) {
      return;
    }
    forall h | 0 <= h < |lookups| + 1
      ensures AllFound(AllPairs(GlyphRuns(groups[h])), (lookups + [groupLookups])[h], sdf1, color1, empty1)
    {
      if h < |lookups| {
        AllFoundKept(AllPairs(GlyphRuns(groups[h])), lookups[h], sdf0, color0, empty0, sdf1, color1, empty1);
      }
    }
  }

  /** The shapes `prepare` is given: glyph runs, and quads it skips. */
  datatype SceneShape = GlyphRunShape(run: ShapesText.GlyphRun) | QuadsShape

  /** The glyph runs among the shapes (the `filter_map` of `prepare`). */
  function GlyphRuns(shapes: seq<SceneShape>): (r: seq<ShapesText.GlyphRun>)
    ensures |r| <= |shapes|
  {
    if |shapes| == 0 then []
    else
      var front := GlyphRuns(shapes[..|shapes| - 1]);
      match shapes[|shapes| - 1]
      case GlyphRunShape(run) => front + [run]
      case QuadsShape => front
  }

  /** The runs kept are exactly the shapes that are glyph runs. */
  lemma {:induction false} GlyphRunsMembers(shapes: seq<SceneShape>)
    ensures forall run :: run in GlyphRuns(shapes) <==> GlyphRunShape(run) in shapes
  {
    if |shapes| > 0 {
      GlyphRunsMembers(shapes[..|shapes| - 1]);
      assert forall s :: s in shapes <==> s in shapes[..|shapes| - 1] || s == shapes[|shapes| - 1] by {
        assert shapes == shapes[..|shapes| - 1] + [shapes[|shapes| - 1]];
      }
    }
  }

  /** The first `|results|` groups are prepared as `results`, with lookups `lookups`. */
  ghost predicate GroupsPrepared(groups: seq<seq<SceneShape>>, lookups: seq<seq<Option<AtlasEntry>>>,
                                 results: seq<(Option<SdfBatch>, Option<ColorBatch>)>)
  {
    |lookups| == |results| <= |groups| &&
    forall h :: 0 <= h < |results| ==> PreparedAs(GlyphRuns(groups[h]), lookups[h], results[h])
  }

  /** Preparing the next group keeps the groups before it prepared. */
  lemma GroupsPreparedSnoc(groups: seq<seq<SceneShape>>, lookups: seq<seq<Option<AtlasEntry>>>,
                           results: seq<(Option<SdfBatch>, Option<ColorBatch>)>,
                           groupLookups: seq<Option<AtlasEntry>>, result: (Option<SdfBatch>, Option<ColorBatch>))
    requires GroupsPrepared(groups, lookups, results) && |results| < |groups|
    requires PreparedAs(GlyphRuns(groups[|results|]), groupLookups, result)
    ensures GroupsPrepared(groups, lookups + [groupLookups], results + [result])
  {
    var n := |results|;
    assert forall h :: 0 <= h < n ==> (results + [result])[h] == results[h] && (lookups + [groupLookups])[h] == lookups[h];
  }

  /** The values of the `Some`s, in order (`extend(option.into_iter())`). */
  function Somes<T>(s: seq<Option<T>>): (r: seq<T>)
    ensures |r| <= |s|
  {
    if |s| == 0 then [] else
      var front := Somes(s[..|s| - 1]);
      if s[|s| - 1].Some? then front + [s[|s| - 1].value] else front
  }

  /** The batches kept are exactly the ones that exist. */
  lemma {:induction false} SomesMembers<T(!new)>(s: seq<Option<T>>)
    ensures forall x :: x in Somes(s) <==> Some(x) in s
  {
    if |s| > 0 {
      SomesMembers(s[..|s| - 1]);
      assert forall o :: o in s <==> o in s[..|s| - 1] || o == s[|s| - 1] by {
        assert s == s[..|s| - 1] + [s[|s| - 1]];
      }
    }
  }

  /** `TextLayerRenderer` over the atlases' allocator state `A`. */
  class TextLayerRenderer<A> {
    const rasterize: RasterizedGlyphKey -> Option<SwashImage.Image>
    const sdfAtlas: GlyphAtlas.GlyphAtlas<RasterizedGlyphKey, A>
    const colorAtlas: GlyphAtlas.GlyphAtlas<RasterizedGlyphKey, A>
    var emptyGlyphs: set<RasterizedGlyphKey>
    var sdfBatches: seq<SdfBatch>
    var colorBatches: seq<ColorBatch>

    /** Two distinct, consistent atlases. */
    ghost predicate Valid()
      reads this, sdfAtlas, colorAtlas
    {
      sdfAtlas != colorAtlas && sdfAtlas.Valid() && colorAtlas.Valid()
    }

    /** `TextLayerRenderer::new`: no empty glyphs known and no batches. */
    constructor(rasterize: RasterizedGlyphKey -> Option<SwashImage.Image>,
                sdfAtlas: GlyphAtlas.GlyphAtlas<RasterizedGlyphKey, A>, colorAtlas: GlyphAtlas.GlyphAtlas<RasterizedGlyphKey, A>)
      requires sdfAtlas != colorAtlas && sdfAtlas.Valid() && colorAtlas.Valid()
      ensures Valid()
      ensures this.rasterize == rasterize && this.sdfAtlas == sdfAtlas && this.colorAtlas == colorAtlas
      ensures emptyGlyphs == {} && sdfBatches == [] && colorBatches == []
    {
      this.rasterize := rasterize;
      this.sdfAtlas := sdfAtlas;
      this.colorAtlas := colorAtlas;
      emptyGlyphs := {};
      sdfBatches := [];
      colorBatches := [];
    }

    /** `rasterized_glyph_atlas_rect`: the SDF atlas is asked first, then the color atlas;
        a glyph known to be empty gives nothing; otherwise the glyph is rasterized once: an
        empty result is remembered, a mask goes to the SDF atlas, a color image to the color
        atlas, and a subpixel mask panics. */
    method RasterizedGlyphAtlasRect(weight: ShapesText.TextWeight, glyph: ShapesText.RunGlyph)
      returns (r: Outcome<Result<Option<AtlasEntry>, string>>)
      requires Valid()
      modifies this, sdfAtlas, colorAtlas
      ensures r.Returns? ==> Valid()
      ensures sdfBatches == old(sdfBatches) && colorBatches == old(colorBatches)
      ensures var key := KeyFor(weight, glyph);
        key in old(sdfAtlas.images) ==>
          r == Returns(Ok(Some((old(sdfAtlas.Get(key)).value.0, old(sdfAtlas.images[key].1.placement), Sdf)))) &&
          emptyGlyphs == old(emptyGlyphs) && sdfAtlas.images == old(sdfAtlas.images) && colorAtlas.images == old(colorAtlas.images)
      ensures var key := KeyFor(weight, glyph);
        key !in old(sdfAtlas.images) && key in old(colorAtlas.images) ==>
          r == Returns(Ok(Some((old(colorAtlas.Get(key)).value.0, old(colorAtlas.images[key].1.placement), Color)))) &&
          emptyGlyphs == old(emptyGlyphs) && sdfAtlas.images == old(sdfAtlas.images) && colorAtlas.images == old(colorAtlas.images)
      ensures var key := KeyFor(weight, glyph);
        key !in old(sdfAtlas.images) && key !in old(colorAtlas.images) && key in old(emptyGlyphs) ==>
          r == Returns(Ok(None)) && emptyGlyphs == old(emptyGlyphs) &&
          sdfAtlas.images == old(sdfAtlas.images) && colorAtlas.images == old(colorAtlas.images)
      ensures var key := KeyFor(weight, glyph);
        key !in old(sdfAtlas.images) && key !in old(colorAtlas.images) && key !in old(emptyGlyphs) ==>
          (rasterize(key).None? ==> r == Returns(Ok(None)) && emptyGlyphs == old(emptyGlyphs) + {key}) &&
          (r.Panics? <==> rasterize(key).Some? && rasterize(key).value.content == SwashImage.SubpixelMask) &&
          (rasterize(key).Some? && rasterize(key).value.content == SwashImage.Mask ==>
             colorAtlas.images == old(colorAtlas.images) &&
             (r.value.Ok? ==> key in sdfAtlas.images && r.value.value == Some((sdfAtlas.Get(key).value.0, rasterize(key).value.placement, Sdf)))) &&
          (rasterize(key).Some? && rasterize(key).value.content == SwashImage.Color ==>
             sdfAtlas.images == old(sdfAtlas.images) &&
             (r.value.Ok? ==> key in colorAtlas.images && r.value.value == Some((colorAtlas.Get(key).value.0, rasterize(key).value.placement, Color))))
      ensures r.Returns? && r.value.Ok? ==>
        FoundIn(KeyFor(weight, glyph), r.value.value, sdfAtlas.images, colorAtlas.images, emptyGlyphs)
      ensures r.Returns? && r.value.Ok? ==>
        Keeps(old(sdfAtlas.images), sdfAtlas.images) && Keeps(old(colorAtlas.images), colorAtlas.images) &&
        old(emptyGlyphs) <= emptyGlyphs
    {
      var key := KeyFor(weight, glyph);
      var inSdf := sdfAtlas.Get(key);
      if inSdf.Some? {
        return Returns(Ok(Some((inSdf.value.0, inSdf.value.1.placement, Sdf))));
      }
      var inColor := colorAtlas.Get(key);
      if inColor.Some? {
        return Returns(Ok(Some((inColor.value.0, inColor.value.1.placement, Color))));
      }
      if key in emptyGlyphs {
        return Returns(Ok(None));
      }
      var image := rasterize(key);
      if image.None? {
        emptyGlyphs := emptyGlyphs + {key};
        return Returns(Ok(None));
      }
      var imagePlacement := image.value.placement;
      match image.value.content {
        case Mask =>
          var stored := sdfAtlas.Store(key, image.value);
          if stored.Panics? {
            return Panics;
          }
          if stored.value.Err? {
            return Returns(Err(stored.value.error));
          }
          return Returns(Ok(Some((stored.value.value, imagePlacement, Sdf))));
        case Color =>
          var stored := colorAtlas.Store(key, image.value);
          if stored.Panics? {
            return Panics;
          }
          if stored.value.Err? {
            return Returns(Err(stored.value.error));
          }
          return Returns(Ok(Some((stored.value.value, imagePlacement, Color))));
        case SubpixelMask =>
          return Panics;
      }
    }

    /** The glyphs of one run, in order: the lookups and instances so far extended by the
        run's. */
    method PrepareRun(run: ShapesText.GlyphRun, ghost pairs0: seq<(ShapesText.GlyphRun, ShapesText.RunGlyph)>,
                      lookups0: seq<Option<AtlasEntry>>, sdf0: seq<SdfAtlas.Instance>, color0: seq<ColorAtlas.Instance>)
      returns (r: Outcome<Result<(), string>>, lookups: seq<Option<AtlasEntry>>,
               sdfGlyphs: seq<SdfAtlas.Instance>, colorGlyphs: seq<ColorAtlas.Instance>)
      requires Valid()
      requires |lookups0| == |pairs0| && sdf0 == SdfInstances(pairs0, lookups0) && color0 == ColorInstances(pairs0, lookups0)
      modifies this, sdfAtlas, colorAtlas
      ensures r.Returns? ==> Valid()
      ensures sdfBatches == old(sdfBatches) && colorBatches == old(colorBatches)
      ensures r.Returns? && r.value.Ok? ==>
        |lookups| == |pairs0 + RunPairs(run)| &&
        sdfGlyphs == SdfInstances(pairs0 + RunPairs(run), lookups) &&
        colorGlyphs == ColorInstances(pairs0 + RunPairs(run), lookups)
      ensures r.Returns? && r.value.Ok? ==>
        Keeps(old(sdfAtlas.images), sdfAtlas.images) && Keeps(old(colorAtlas.images), colorAtlas.images) &&
        old(emptyGlyphs) <= emptyGlyphs
      ensures r.Returns? && r.value.Ok? && AllFound(pairs0, lookups0, old(sdfAtlas.images), old(colorAtlas.images), old(emptyGlyphs)) ==>
        AllFound(pairs0 + RunPairs(run), lookups, sdfAtlas.images, colorAtlas.images, emptyGlyphs)
    {
      ghost var pairs := pairs0;
      lookups, sdfGlyphs, colorGlyphs := lookups0, sdf0, color0;
      for j := 0 to |run.glyphs|
        invariant Valid()
        invariant sdfBatches == old(sdfBatches) && colorBatches == old(colorBatches)
        invariant pairs == pairs0 + RunPairs(run)[..j] && |lookups| == |pairs|
        invariant sdfGlyphs == SdfInstances(pairs, lookups) && colorGlyphs == ColorInstances(pairs, lookups)
        invariant Keeps(old(sdfAtlas.images), sdfAtlas.images) && Keeps(old(colorAtlas.images), colorAtlas.images)
        invariant old(emptyGlyphs) <= emptyGlyphs
        invariant AllFound(pairs0, lookups0, old(sdfAtlas.images), old(colorAtlas.images), old(emptyGlyphs)) ==>
          AllFound(pairs, lookups, sdfAtlas.images, colorAtlas.images, emptyGlyphs)
      {
        var glyph := run.glyphs[j];
        ghost var (sdfBefore, colorBefore, emptyBefore) := (sdfAtlas.images, colorAtlas.images, emptyGlyphs);
        var found := RasterizedGlyphAtlasRect(run.textWeight, glyph);
        if found.Panics? {
          return Panics, lookups, sdfGlyphs, colorGlyphs;
        }
        if found.value.Err? {
          return Returns(Err(found.value.error)), lookups, sdfGlyphs, colorGlyphs;
        }
        var entry := found.value.value;
        if entry.Some? {
          var (rect, placement, kind) := entry.value;
          var vertices := Translated(GlyphVertices(run, glyph, placement), run.translation);
          match kind {
            case Sdf => sdfGlyphs := sdfGlyphs + [SdfAtlas.Instance(rect, vertices, run.textColor)];
            case Color => colorGlyphs := colorGlyphs + [ColorAtlas.Instance(rect, vertices)];
          }
        }
        AppendLookup(pairs, lookups, (run, glyph), entry);
        if AllFound(pairs0, lookups0, old(sdfAtlas.images), old(colorAtlas.images), old(emptyGlyphs)) {
          AllFoundKept(pairs, lookups, sdfBefore, colorBefore, emptyBefore, sdfAtlas.images, colorAtlas.images, emptyGlyphs);
          AllFoundSnoc(pairs, lookups, (run, glyph), entry, sdfAtlas.images, colorAtlas.images, emptyGlyphs);
        }
        RunPairsPrefix(run, j);
        pairs := pairs + [(run, glyph)];
        lookups := lookups + [entry];
      }
      assert RunPairs(run)[..|run.glyphs|] == RunPairs(run);
      return Returns(Ok(())), lookups, sdfGlyphs, colorGlyphs;
    }

    /** `prepare_runs`: looks up every glyph of every run in order; each glyph found in an
        atlas becomes an instance, its quad moved by the run's translation, in the SDF list
        (with the run's color) or the color list; then each list becomes a batch. The
        lookups made are returned beside the result; an error or a panic of a lookup ends
        the preparation. */
    method PrepareRuns(runs: seq<ShapesText.GlyphRun>)
      returns (r: Outcome<Result<(Option<SdfBatch>, Option<ColorBatch>), string>>, lookups: seq<Option<AtlasEntry>>)
      requires Valid()
      modifies this, sdfAtlas, colorAtlas
      ensures r.Returns? ==> Valid()
      ensures sdfBatches == old(sdfBatches) && colorBatches == old(colorBatches)
      ensures r.Returns? && r.value.Ok? ==> PreparedAs(runs, lookups, r.value.value)
      ensures r.Returns? && r.value.Ok? ==>
        AllFound(AllPairs(runs), lookups, sdfAtlas.images, colorAtlas.images, emptyGlyphs)
      ensures r.Returns? && r.value.Ok? ==>
        Keeps(old(sdfAtlas.images), sdfAtlas.images) && Keeps(old(colorAtlas.images), colorAtlas.images) &&
        old(emptyGlyphs) <= emptyGlyphs
    {
      ghost var pairs: seq<(ShapesText.GlyphRun, ShapesText.RunGlyph)> := [];
      lookups := [];
      var sdfGlyphs: seq<SdfAtlas.Instance> := [];
      var colorGlyphs: seq<ColorAtlas.Instance> := [];
      for i := 0 to |runs|
        invariant Valid()
        invariant sdfBatches == old(sdfBatches) && colorBatches == old(colorBatches)
        invariant pairs == AllPairs(runs[..i]) && |lookups| == |pairs|
        invariant sdfGlyphs == SdfInstances(pairs, lookups) && colorGlyphs == ColorInstances(pairs, lookups)
        invariant AllFound(pairs, lookups, sdfAtlas.images, colorAtlas.images, emptyGlyphs)
        invariant Keeps(old(sdfAtlas.images), sdfAtlas.images) && Keeps(old(colorAtlas.images), colorAtlas.images)
        invariant old(emptyGlyphs) <= emptyGlyphs
      {
        var step;
        step, lookups, sdfGlyphs, colorGlyphs := PrepareRun(runs[i], pairs, lookups, sdfGlyphs, colorGlyphs);
        if step.Panics? {
          return Panics, lookups;
        }
        if step.value.Err? {
          return Returns(Err(step.value.error)), lookups;
        }
        assert runs[..i + 1][..i] == runs[..i];
        assert AllPairs(runs[..i + 1]) == AllPairs(runs[..i]) + RunPairs(runs[i]);
        pairs := pairs + RunPairs(runs[i]);
      }
      assert runs[..|runs|] == runs;
      var sdfBatch := AtlasRenderer.Batch(sdfGlyphs, SdfAtlas.ToVertices);
      var colorBatch := AtlasRenderer.Batch(colorGlyphs, ColorAtlas.ToVertices);
      assert sdfBatch == BatchOf(sdfGlyphs, SdfAtlas.ToVertices);
      assert colorBatch == BatchOf(colorGlyphs, ColorAtlas.ToVertices);
      r := Returns(Ok((sdfBatch, colorBatch)));
    }

    /** One group of `prepare`: its glyph runs prepared, its batches and lookups appended to
        the ones of the groups before it, and the batches that exist to the batch lists. */
    method PrepareGroup(groups: seq<seq<SceneShape>>, g: nat, results0: seq<(Option<SdfBatch>, Option<ColorBatch>)>,
                        lookups0: seq<seq<Option<AtlasEntry>>>)
      returns (r: Outcome<Result<(), string>>, results: seq<(Option<SdfBatch>, Option<ColorBatch>)>,
               lookups: seq<seq<Option<AtlasEntry>>>)
      requires Valid()
      requires g < |groups| && |results0| == g
      requires sdfBatches == Somes(Firsts(results0)) && colorBatches == Somes(Seconds(results0))
      requires GroupsPrepared(groups, lookups0, results0)
      modifies this, sdfAtlas, colorAtlas
      ensures r.Returns? ==> Valid()
      ensures r.Returns? && r.value.Ok? ==>
        |results| == g + 1 &&
        sdfBatches == Somes(Firsts(results)) && colorBatches == Somes(Seconds(results)) &&
        GroupsPrepared(groups, lookups, results)
      ensures r.Returns? && r.value.Ok? ==>
        Keeps(old(sdfAtlas.images), sdfAtlas.images) && Keeps(old(colorAtlas.images), colorAtlas.images) &&
        old(emptyGlyphs) <= emptyGlyphs
      ensures r.Returns? && r.value.Ok? && GroupsFound(groups, lookups0, old(sdfAtlas.images), old(colorAtlas.images), old(emptyGlyphs)) ==>
        GroupsFound(groups, lookups, sdfAtlas.images, colorAtlas.images, emptyGlyphs)
    {
      results, lookups := results0, lookups0;
      var prepared, groupLookups := PrepareRuns(GlyphRuns(groups[g]));
      if prepared.Panics? {
        return Panics, results, lookups;
      }
      if prepared.value.Err? {
        return Returns(Err(prepared.value.error)), results, lookups;
      }
      GroupsFoundSnoc(groups, lookups0, groupLookups, old(sdfAtlas.images), old(colorAtlas.images), old(emptyGlyphs),
                      sdfAtlas.images, colorAtlas.images, emptyGlyphs);
      results, lookups := RecordGroup(groups, results0, lookups0, groupLookups, prepared.value.value);
      r := Returns(Ok(()));
    }

    /** The end of one group of `prepare`: the group's batches that exist are appended to the
        batch lists (the `extend` calls), and its batches and lookups to the ones of the
        groups before it. */
    method RecordGroup(groups: seq<seq<SceneShape>>, results0: seq<(Option<SdfBatch>, Option<ColorBatch>)>,
                       lookups0: seq<seq<Option<AtlasEntry>>>, groupLookups: seq<Option<AtlasEntry>>,
                       result: (Option<SdfBatch>, Option<ColorBatch>))
      returns (results: seq<(Option<SdfBatch>, Option<ColorBatch>)>, lookups: seq<seq<Option<AtlasEntry>>>)
      requires Valid()
      requires |results0| < |groups|
      requires sdfBatches == Somes(Firsts(results0)) && colorBatches == Somes(Seconds(results0))
      requires GroupsPrepared(groups, lookups0, results0)
      requires PreparedAs(GlyphRuns(groups[|results0|]), groupLookups, result)
      modifies this
      ensures Valid() && emptyGlyphs == old(emptyGlyphs)
      ensures results == results0 + [result] && lookups == lookups0 + [groupLookups]
      ensures sdfBatches == Somes(Firsts(results)) && colorBatches == Somes(Seconds(results))
      ensures GroupsPrepared(groups, lookups, results)
    {
      GroupsPreparedSnoc(groups, lookups0, results0, groupLookups, result);
      AppendResult(results0, result);
      results := results0 + [result];
      lookups := lookups0 + [groupLookups];
      sdfBatches := sdfBatches + (if result.0.Some? then [result.0.value] else []);
      colorBatches := colorBatches + (if result.1.Some? then [result.1.value] else []);
    }

    /** `prepare`: clears both batch lists, then prepares the glyph runs among each group's
        shapes and appends the group's batches that exist; the groups' batches and lookups
        are returned beside the result. */
    method Prepare(groups: seq<seq<SceneShape>>)
      returns (r: Outcome<Result<(), string>>, results: seq<(Option<SdfBatch>, Option<ColorBatch>)>,
               lookups: seq<seq<Option<AtlasEntry>>>)
      requires Valid()
      modifies this, sdfAtlas, colorAtlas
      ensures r.Returns? ==> Valid()
      ensures r.Returns? && r.value.Ok? ==>
        |results| == |groups| && |lookups| == |groups| &&
        sdfBatches == Somes(Firsts(results)) && colorBatches == Somes(Seconds(results)) &&
        forall g :: 0 <= g < |groups| ==> PreparedAs(GlyphRuns(groups[g]), lookups[g], results[g])
      ensures r.Returns? && r.value.Ok? ==> GroupsFound(groups, lookups, sdfAtlas.images, colorAtlas.images, emptyGlyphs)
    {
      sdfBatches := [];
      colorBatches := [];
      results := [];
      lookups := [];
      for g := 0 to |groups|
        invariant Valid()
        invariant |results| == g
        invariant sdfBatches == Somes(Firsts(results)) && colorBatches == Somes(Seconds(results))
        invariant GroupsPrepared(groups, lookups, results)
        invariant GroupsFound(groups, lookups, sdfAtlas.images, colorAtlas.images, emptyGlyphs)
      {
        var step;
        step, results, lookups := PrepareGroup(groups, g, results, lookups);
        if step.Panics? || step.value.Err? {
          return step, results, lookups;
        }
      }
      return Returns(Ok(())), results, lookups;
    }
  }

  /** The first components, in order. */
  function Firsts<X, Y>(s: seq<(X, Y)>): (r: seq<X>)
    ensures |r| == |s|
  {
    if |s| == 0 then [] else Firsts(s[..|s| - 1]) + [s[|s| - 1].0]
  }

  /** The second components, in order. */
  function Seconds<X, Y>(s: seq<(X, Y)>): (r: seq<Y>)
    ensures |r| == |s|
  {
    if |s| == 0 then [] else Seconds(s[..|s| - 1]) + [s[|s| - 1].1]
  }

  /** One more group's batches extend the batch lists by the ones that exist. */
  lemma AppendResult<X(!new), Y(!new)>(results: seq<(Option<X>, Option<Y>)>, result: (Option<X>, Option<Y>))
    ensures Somes(Firsts(results + [result])) == Somes(Firsts(results)) + (if result.0.Some? then [result.0.value] else [])
    ensures Somes(Seconds(results + [result])) == Somes(Seconds(results)) + (if result.1.Some? then [result.1.value] else [])
  {
    assert (results + [result])[..|results|] == results;
    assert Firsts(results + [result]) == Firsts(results) + [result.0];
    assert Firsts(results + [result])[..|results|] == Firsts(results);
    assert Seconds(results + [result]) == Seconds(results) + [result.1];
    assert Seconds(results + [result])[..|results|] == Seconds(results);
  }

  /** One more lookup extends the instance lists by the glyph's instance, if any. */
  lemma AppendLookup(pairs: seq<(ShapesText.GlyphRun, ShapesText.RunGlyph)>, lookups: seq<Option<AtlasEntry>>,
                     pair: (ShapesText.GlyphRun, ShapesText.RunGlyph), entry: Option<AtlasEntry>)
    requires |pairs| == |lookups|
    ensures SdfInstances(pairs + [pair], lookups + [entry]) == SdfInstances(pairs, lookups) +
      (if entry.Some? && entry.value.2 == Sdf
       then [SdfAtlas.Instance(entry.value.0, InstanceVertices(pair, entry.value), pair.0.textColor)] else [])
    ensures ColorInstances(pairs + [pair], lookups + [entry]) == ColorInstances(pairs, lookups) +
      (if entry.Some? && entry.value.2 == Color
       then [ColorAtlas.Instance(entry.value.0, InstanceVertices(pair, entry.value))] else [])
  {
    assert (pairs + [pair])[..|pairs|] == pairs;
    assert (lookups + [entry])[..|lookups|] == lookups;
  }
}
