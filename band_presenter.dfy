/** The band presenter of the desktop (desktop/src/band_presenter.rs): a horizontal band of
    application instances. Each instance has a presenter that is appearing (no view yet),
    presenting its primary view, or disappearing; `ordered` lists the instances that take
    up space in the band, which are all but the disappearing ones.

    The presenter's center animation is reduced to its current value. */
module BandPresenter {
  import opened Wrappers

  type InstanceId = nat
  type ViewId = nat

  datatype SizePx = SizePx(width: nat, height: nat)
  datatype Point = Point(x: real, y: real)

  datatype ViewRole = Primary | Secondary

  datatype ViewCreationInfo = ViewCreationInfo(id: ViewId, role: ViewRole, size: SizePx)

  /** `InstancePresenterState`. */
  datatype PresenterState = Appearing | Presenting(view: ViewCreationInfo) | Disappearing(view: ViewCreationInfo)

  /** `InstancePresenter`. */
  datatype Presenter = Presenter(state: PresenterState, panelSize: SizePx, center: Point)

  datatype BandError =
    | PrimaryAlreadyPresenting
    | InstanceAlreadyPresented
    | InstanceNotFound
    | AlreadyDisappearing
    | StillAppearing
    | PrimaryViewAlreadyPresenting
    | HidingViewsUnsupported

  datatype Band = Band(instances: map<InstanceId, Presenter>, ordered: seq<InstanceId>)

  /** A band after an operation, and whether the operation succeeded. */
  datatype Done = Done(band: Band, result: Result<(), BandError>)

  predicate Distinct(s: seq<InstanceId>) {
    forall i, j :: 0 <= i < j < |s| ==> s[i] != s[j]
  }

  /** The presenters that take up space: exactly those in `ordered`, each once. */
  predicate Valid(b: Band) {
    Distinct(b.ordered) &&
    (forall id :: id in b.ordered ==> id in b.instances && !b.instances[id].state.Disappearing?) &&
    (forall id :: id in b.instances && !b.instances[id].state.Disappearing? ==> id in b.ordered)
  }

  /** The index of the first occurrence of `x` in `s`. */
  function IndexOf(s: seq<InstanceId>, x: InstanceId): (r: Option<nat>)
    ensures r.None? <==> x !in s
    ensures r.Some? ==> r.value < |s| && s[r.value] == x && x !in s[..r.value]
  {
    if s == [] then None
    else if s[0] == x then Some(0)
    else match IndexOf(s[1..], x)
      case None => None
      case Some(i) =>
        assert s[..i + 1] == [s[0]] + s[1..][..i];
        Some(i + 1)
  }

  /** `s` without any occurrence of `x`, in order (`retain`). */
  function Without(s: seq<InstanceId>, x: InstanceId): (r: seq<InstanceId>)
    ensures forall y :: y in r <==> y in s && y != x
    ensures |r| <= |s|
  {
    if s == [] then []
    else if s[0] == x then Without(s[1..], x)
    else [s[0]] + Without(s[1..], x)
  }

  /** Removing an element keeps distinct elements distinct. */
  lemma {:induction false} WithoutDistinct(s: seq<InstanceId>, x: InstanceId)
    requires Distinct(s)
    ensures Distinct(Without(s, x))
  {
    if s != [] {
      WithoutDistinct(s[1..], x);
      var r := Without(s[1..], x);
      assert s[0] !in s[1..];
      assert s[0] !in r;
      if s[0] != x {
        var w := Without(s, x);
        assert w == [s[0]] + r;
        forall i, j | 0 <= i < j < |w|
          ensures w[i] != w[j]
        {
          assert w[j] == r[j - 1];
          if i == 0 {
            assert r[j - 1] in r;
          } else {
            assert w[i] == r[i - 1];
          }
        }
      }
    }
  }

  lemma HeadIsMember(s: seq<InstanceId>)
    requires s != []
    ensures s[0] in s
  {
  }

  /** `is_empty`. */
  function Empty(b: Band): bool {
    b.ordered == []
  }

  /** A valid band is empty exactly when every instance it knows is disappearing. */
  lemma EmptyMeansAllDisappearing(b: Band)
    requires Valid(b)
    ensures Empty(b) <==> forall id :: id in b.instances ==> b.instances[id].state.Disappearing?
  {
    if !Empty(b) {
      assert b.ordered[0] in b.ordered;
    }
  }

  /** `present_primary_instance`: only into a band without instances. */
  function AfterPresentPrimary(b: Band, instance: InstanceId, info: ViewCreationInfo): Done {
    if b.instances != map[] then Done(b, Err(PrimaryAlreadyPresenting))
    else Done(Band(b.instances[instance := Presenter(Presenting(info), info.size, Point(0.0, 0.0))], b.ordered + [instance]), Ok(()))
  }

  /** The presenter `present_instance` creates: the originating presenter's panel size and
      center if it exists, otherwise the defaults. */
  function NewPresenter(b: Band, originatingFrom: Option<InstanceId>, defaultPanelSize: SizePx): (p: Presenter)
    ensures p.state == Appearing
    ensures p.panelSize == if originatingFrom.Some? && originatingFrom.value in b.instances
      then b.instances[originatingFrom.value].panelSize else defaultPanelSize
  {
    if originatingFrom.Some? && originatingFrom.value in b.instances then
      var o := b.instances[originatingFrom.value];
      Presenter(Appearing, o.panelSize, o.center)
    else Presenter(Appearing, defaultPanelSize, Point(0.0, 0.0))
  }

  /** Where `present_instance` inserts into `ordered`: right after the originating
      instance, or at the end. */
  function InsertPosition(ordered: seq<InstanceId>, originatingFrom: Option<InstanceId>): (pos: nat)
    ensures pos <= |ordered|
  {
    if originatingFrom.None? then |ordered|
    else match IndexOf(ordered, originatingFrom.value)
      case Some(i) => i + 1
      case None => |ordered|
  }

  /** `present_instance` as written: the new presenter replaces any existing one before
      the duplicate is detected. */
  function AfterPresentInstanceAsWritten(b: Band, instance: InstanceId, originatingFrom: Option<InstanceId>, defaultPanelSize: SizePx): Done {
    var instances := b.instances[instance := NewPresenter(b, originatingFrom, defaultPanelSize)];
    if instance in b.instances then Done(b.(instances := instances), Err(InstanceAlreadyPresented))
    else
      var pos := InsertPosition(b.ordered, originatingFrom);
      Done(Band(instances, b.ordered[..pos] + [instance] + b.ordered[pos..]), Ok(()))
  }

  /** `present_instance` as intended: an instance already presented is left alone. */
  function AfterPresentInstance(b: Band, instance: InstanceId, originatingFrom: Option<InstanceId>, defaultPanelSize: SizePx): Done {
    if instance in b.instances then Done(b, Err(InstanceAlreadyPresented))
    else
      var pos := InsertPosition(b.ordered, originatingFrom);
      Done(Band(b.instances[instance := NewPresenter(b, originatingFrom, defaultPanelSize)],
                b.ordered[..pos] + [instance] + b.ordered[pos..]), Ok(()))
  }

  /** `hide_instance`: a presenting instance starts disappearing and leaves the band. */
  function AfterHideInstance(b: Band, instance: InstanceId): Done {
    if instance !in b.instances then Done(b, Err(InstanceNotFound))
    else
      var p := b.instances[instance];
      match p.state
      case Presenting(view) =>
        Done(Band(b.instances[instance := p.(state := Disappearing(view))], Without(b.ordered, instance)), Ok(()))
      case Disappearing(_) => Done(b, Err(AlreadyDisappearing))
      case Appearing => Done(b, Err(StillAppearing))
  }

  /** `present_view`: the primary view of an appearing instance; the instance adopts the
      view's size. Any other role panics (`todo!`). */
  function AfterPresentView(b: Band, instance: InstanceId, info: ViewCreationInfo): Outcome<Done> {
    if info.role != Primary then Panics
    else if instance !in b.instances then Returns(Done(b, Err(InstanceNotFound)))
    else
      var p := b.instances[instance];
      if !p.state.Appearing? then Returns(Done(b, Err(PrimaryViewAlreadyPresenting)))
      else Returns(Done(b.(instances := b.instances[instance := p.(state := Presenting(info), panelSize := info.size)]), Ok(())))
  }

  /** `present_primary_instance` fails on a band with instances, and otherwise makes the
      instance the band's only one, presenting the view at the view's size. */
  lemma PrimaryInstanceProperties(b: Band, instance: InstanceId, info: ViewCreationInfo)
    requires Valid(b)
    ensures var d := AfterPresentPrimary(b, instance, info);
      Valid(d.band) &&
      (d.result.Err? <==> b.instances != map[]) &&
      (d.result.Ok? ==>
        (d.band.ordered == [instance] && d.band.instances.Keys == {instance} &&
         d.band.instances[instance].state == Presenting(info) && d.band.instances[instance].panelSize == info.size))
  {
    var d := AfterPresentPrimary(b, instance, info);
    if b.instances == map[] {
      assert b.ordered == [] by {
        if b.ordered != [] { HeadIsMember(b.ordered); assert false; }
      }
    }
  }

  lemma InsertKeepsOthers(s: seq<InstanceId>, pos: nat, x: InstanceId)
    requires pos <= |s|
    ensures var r := s[..pos] + [x] + s[pos..];
      |r| == |s| + 1 && r[pos] == x && (forall y :: y in r <==> y in s || y == x) &&
      (forall k :: 0 <= k < pos ==> r[k] == s[k]) && (forall k :: pos < k < |r| ==> r[k] == s[k - 1])
  {
    var r := s[..pos] + [x] + s[pos..];
    forall y | y in s
      ensures y in r
    {
      var k :| 0 <= k < |s| && s[k] == y;
      if k < pos { assert r[k] == y; } else { assert r[k + 1] == y; }
    }
  }

  /** `present_instance` adds an appearing presenter right after the originating instance,
      or at the end when there is none in the band, and keeps the band valid. */
  lemma PresentInstanceProperties(b: Band, instance: InstanceId, originatingFrom: Option<InstanceId>, defaultPanelSize: SizePx)
    requires Valid(b)
    ensures var d := AfterPresentInstance(b, instance, originatingFrom, defaultPanelSize);
      Valid(d.band) && (d.result.Err? <==> instance in b.instances) &&
      (d.result.Err? ==> d.band == b) &&
      (d.result.Ok? ==>
        d.band.instances == b.instances[instance := NewPresenter(b, originatingFrom, defaultPanelSize)] &&
        |d.band.ordered| == |b.ordered| + 1 &&
        (originatingFrom.Some? && originatingFrom.value in b.ordered ==>
          var i := IndexOf(b.ordered, originatingFrom.value).value;
          d.band.ordered[i] == originatingFrom.value && d.band.ordered[i + 1] == instance) &&
        (originatingFrom.None? || originatingFrom.value !in b.ordered ==> d.band.ordered == b.ordered + [instance]))
  {
    if instance !in b.instances {
      var pos := InsertPosition(b.ordered, originatingFrom);
      var r := b.ordered[..pos] + [instance] + b.ordered[pos..];
      InsertKeepsOthers(b.ordered, pos, instance);
      assert instance !in b.ordered;
      forall i, j | 0 <= i < j < |r|
        ensures r[i] != r[j]
      {
        if i < pos && j > pos { assert r[j] == b.ordered[j - 1]; }
      }
      if originatingFrom.None? || originatingFrom.value !in b.ordered {
        assert b.ordered[pos..] == [];
        assert b.ordered[..pos] == b.ordered;
      }
    }
  }

  /** A re-presented instance loses its presenter: as written, an instance that presents
      its view is reset to appearing (and a disappearing one then appears without a place
      in the band). */
  lemma RepresentingResetsPresenter(b: Band, instance: InstanceId, info: ViewCreationInfo, size: SizePx)
    requires b.instances == map[instance := Presenter(Presenting(info), info.size, Point(0.0, 0.0))]
    requires b.ordered == [instance]
    ensures Valid(b)
    ensures var d := AfterPresentInstanceAsWritten(b, instance, None, size);
      d.result == Err(InstanceAlreadyPresented) && d.band.instances[instance].state == Appearing &&
      d.band.instances != b.instances
    ensures AfterPresentInstance(b, instance, None, size) == Done(b, Err(InstanceAlreadyPresented))
  {
  }

  /** A disappearing instance presented again, as written, appears without a place in the
      band. */
  lemma RepresentingDisappearingBreaksBand(b: Band, instance: InstanceId, info: ViewCreationInfo, size: SizePx)
    requires b.instances == map[instance := Presenter(Disappearing(info), info.size, Point(0.0, 0.0))]
    requires b.ordered == []
    ensures Valid(b)
    ensures !Valid(AfterPresentInstanceAsWritten(b, instance, None, size).band)
  {
    var d := AfterPresentInstanceAsWritten(b, instance, None, size);
    assert instance in d.band.instances && d.band.instances[instance].state == Appearing;
  }

  /** For every band, `present_instance` as written reports what the corrected operation
      reports and differs from it only for an instance already present, whose presenter it
      replaces; the band stays valid exactly unless that instance was disappearing. */
  lemma PresentInstanceAsWrittenDiffers(b: Band, instance: InstanceId, originatingFrom: Option<InstanceId>, defaultPanelSize: SizePx)
    requires Valid(b)
    ensures var w := AfterPresentInstanceAsWritten(b, instance, originatingFrom, defaultPanelSize);
      var c := AfterPresentInstance(b, instance, originatingFrom, defaultPanelSize);
      w.result == c.result &&
      (instance !in b.instances ==> w == c) &&
      (instance in b.instances ==>
        w.band.ordered == b.ordered && w.band.instances == b.instances[instance := NewPresenter(b, originatingFrom, defaultPanelSize)]) &&
      (Valid(w.band) <==> instance !in b.instances || !b.instances[instance].state.Disappearing?)
  {
    var w := AfterPresentInstanceAsWritten(b, instance, originatingFrom, defaultPanelSize);
    if instance !in b.instances {
      PresentInstanceProperties(b, instance, originatingFrom, defaultPanelSize);
    } else if b.instances[instance].state.Disappearing? {
      assert instance !in w.band.ordered;
    }
  }

  /** `hide_instance` moves a presenting instance to disappearing and out of the band,
      fails for every other state and unknown ids without changing anything, and keeps the
      band valid. */
  lemma HideInstanceProperties(b: Band, instance: InstanceId)
    requires Valid(b)
    ensures var d := AfterHideInstance(b, instance);
      Valid(d.band) &&
      (d.result.Ok? <==> instance in b.instances && b.instances[instance].state.Presenting?) &&
      (d.result.Err? ==> d.band == b) &&
      (d.result.Ok? ==>
        (d.band.instances[instance].state == Disappearing(b.instances[instance].state.view) &&
         instance !in d.band.ordered && |d.band.ordered| == |b.ordered| - 1))
  {
    if instance in b.instances && b.instances[instance].state.Presenting? {
      WithoutDistinct(b.ordered, instance);
      WithoutCount(b.ordered, instance);
    }
  }

  lemma {:induction false} WithoutCount(s: seq<InstanceId>, x: InstanceId)
    requires x in s && Distinct(s)
    ensures |Without(s, x)| == |s| - 1
  {
    if s[0] == x {
      assert x !in s[1..];
      WithoutAbsent(s[1..], x);
    } else {
      WithoutCount(s[1..], x);
    }
  }

  lemma {:induction false} WithoutAbsent(s: seq<InstanceId>, x: InstanceId)
    requires x !in s
    ensures Without(s, x) == s
  {
    if s != [] {
      WithoutAbsent(s[1..], x);
      assert s == [s[0]] + s[1..];
    }
  }

  /** `present_view` turns an appearing instance into a presenting one at the view's size,
      fails for unknown and already presenting instances without changing anything, and
      keeps the band valid. */
  lemma PresentViewProperties(b: Band, instance: InstanceId, info: ViewCreationInfo)
    requires Valid(b) && info.role == Primary
    ensures var r := AfterPresentView(b, instance, info);
      r.Returns? && Valid(r.value.band) && r.value.band.ordered == b.ordered &&
      (r.value.result.Ok? <==> instance in b.instances && b.instances[instance].state.Appearing?) &&
      (r.value.result.Err? ==> r.value.band == b) &&
      (r.value.result.Ok? ==>
        (r.value.band.instances[instance].state == Presenting(info) &&
         r.value.band.instances[instance].panelSize == info.size))
  {
  }

  /** `BandPresenter`. */
  class BandPresenter {
    var instances: map<InstanceId, Presenter>
    var ordered: seq<InstanceId>

    function Snapshot(): Band
      reads this
    {
      Band(instances, ordered)
    }

    /** `default`: an empty band. */
    constructor()
      ensures Snapshot() == Band(map[], []) && Valid(Snapshot())
    {
      instances := map[];
      ordered := [];
    }

    method IsEmpty() returns (empty: bool)
      ensures empty == Empty(Snapshot())
    {
      empty := |ordered| == 0;
    }

    method PresentPrimaryInstance(instance: InstanceId, info: ViewCreationInfo) returns (result: Result<(), BandError>)
      modifies this
      ensures Done(Snapshot(), result) == AfterPresentPrimary(old(Snapshot()), instance, info)
    {
      if instances != map[] {
        return Err(PrimaryAlreadyPresenting);
      }
      instances := instances[instance := Presenter(Presenting(info), info.size, Point(0.0, 0.0))];
      ordered := ordered + [instance];
      result := Ok(());
    }

    /** `ordered.iter().position(..)`: the first index holding `originatingFrom`. */
    method Position(originatingFrom: Option<InstanceId>) returns (pos: Option<nat>)
      ensures pos == if originatingFrom.Some? then IndexOf(ordered, originatingFrom.value) else None
    {
      if originatingFrom.None? {
        return None;
      }
      var i := 0;
      while i < |ordered|
        invariant i <= |ordered| && originatingFrom.value !in ordered[..i]
      {
        if ordered[i] == originatingFrom.value {
          IndexOfFirst(ordered, i, originatingFrom.value);
          return Some(i);
        }
        assert ordered[..i + 1] == ordered[..i] + [ordered[i]];
        i := i + 1;
      }
      assert ordered[..i] == ordered;
      pos := None;
    }

    method PresentInstance(instance: InstanceId, originatingFrom: Option<InstanceId>, defaultPanelSize: SizePx) returns (result: Result<(), BandError>)
      modifies this
      ensures Done(Snapshot(), result) == AfterPresentInstance(old(Snapshot()), instance, originatingFrom, defaultPanelSize)
    {
      if instance in instances {
        return Err(InstanceAlreadyPresented);
      }
      var presenter := NewPresenter(Snapshot(), originatingFrom, defaultPanelSize);
      instances := instances[instance := presenter];
      var found := Position(originatingFrom);
      var pos := if found.Some? then found.value + 1 else |ordered|;
      ordered := ordered[..pos] + [instance] + ordered[pos..];
      result := Ok(());
    }

    method HideInstance(instance: InstanceId) returns (result: Result<(), BandError>)
      modifies this
      ensures Done(Snapshot(), result) == AfterHideInstance(old(Snapshot()), instance)
    {
      if instance !in instances {
        return Err(InstanceNotFound);
      }
      var p := instances[instance];
      match p.state {
        case Presenting(view) =>
          instances := instances[instance := p.(state := Disappearing(view))];
        case Disappearing(_) =>
          return Err(AlreadyDisappearing);
        case Appearing =>
          return Err(StillAppearing);
      }
      ordered := Without(ordered, instance);
      result := Ok(());
    }

    /** `present_view`; a view of another role than the primary one panics. */
    method PresentView(instance: InstanceId, info: ViewCreationInfo) returns (outcome: Outcome<Result<(), BandError>>)
      modifies this
      ensures match AfterPresentView(old(Snapshot()), instance, info)
        case Panics => outcome.Panics?
        case Returns(d) => outcome == Returns(d.result) && Snapshot() == d.band
    {
      if info.role != Primary {
        return Panics;
      }
      if instance !in instances {
        return Returns(Err(InstanceNotFound));
      }
      var p := instances[instance];
      if !p.state.Appearing? {
        return Returns(Err(PrimaryViewAlreadyPresenting));
      }
      instances := instances[instance := p.(state := Presenting(info), panelSize := info.size)];
      outcome := Returns(Ok(()));
    }

    /** `hide_view`: not supported. */
    method HideView(id: ViewId) returns (result: Result<(), BandError>)
      ensures result == Err(HidingViewsUnsupported)
    {
      result := Err(HidingViewsUnsupported);
    }
  }

  lemma IndexOfFirst(s: seq<InstanceId>, i: nat, x: InstanceId)
    requires i < |s| && s[i] == x && x !in s[..i]
    ensures IndexOf(s, x) == Some(i)
  {
  }
}
