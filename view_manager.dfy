/** The desktop's view registry (desktop/src/view_manager.rs): the views of all
    application instances with their render pacing, and for each instance the list of its
    view ids in the order they were added.

    `RenderPacing::default()` is not part of this model: `add_view` receives the default
    pacing as a parameter. */
module ViewManager {
  import opened Wrappers

  type InstanceId = nat
  type ViewId = nat

  datatype RenderPacing = Fast | Smooth

  /** The part of `ViewCreationInfo` the registry looks at: the view's id. */
  datatype ViewCreationInfo = ViewCreationInfo(id: ViewId, title: string)

  datatype ViewInfo = ViewInfo(creationInfo: ViewCreationInfo, instanceId: InstanceId, pacing: RenderPacing)

  datatype Registry = Registry(views: map<ViewId, ViewInfo>, instanceViews: map<InstanceId, seq<ViewId>>)

  datatype ViewError = ViewDoesNotExist(id: ViewId)

  predicate Distinct(s: seq<ViewId>) {
    forall i, j :: 0 <= i < j < |s| ==> s[i] != s[j]
  }

  /** Every listed view exists and belongs to the instance that lists it, each once, and
      every view is listed under its instance. */
  predicate Consistent(r: Registry) {
    (forall inst :: inst in r.instanceViews ==> Distinct(r.instanceViews[inst])) &&
    (forall inst, id :: inst in r.instanceViews && id in r.instanceViews[inst] ==>
      id in r.views && r.views[id].instanceId == inst) &&
    (forall id :: id in r.views ==>
      r.views[id].instanceId in r.instanceViews && id in r.instanceViews[r.views[id].instanceId])
  }

  /** The views listed for an instance, none if it has no entry. */
  function ListedViews(r: Registry, inst: InstanceId): seq<ViewId> {
    if inst in r.instanceViews then r.instanceViews[inst] else []
  }

  /** `add_view`: stores the view with the default pacing and appends its id to the
      instance's list. */
  function AfterAddView(r: Registry, inst: InstanceId, info: ViewCreationInfo, defaultPacing: RenderPacing): Registry {
    Registry(r.views[info.id := ViewInfo(info, inst, defaultPacing)],
             r.instanceViews[inst := ListedViews(r, inst) + [info.id]])
  }

  /** The first position of `id` in `s`. */
  function Position(s: seq<ViewId>, id: ViewId): (r: Option<nat>)
    ensures r.None? <==> id !in s
    ensures r.Some? ==> r.value < |s| && s[r.value] == id && id !in s[..r.value]
  {
    if s == [] then None
    else if s[0] == id then Some(0)
    else match Position(s[1..], id)
      case None => None
      case Some(i) =>
        assert s[..i + 1] == [s[0]] + s[1..][..i];
        Some(i + 1)
  }

  /** `remove_view`: only a view listed under the given instance is removed. */
  function AfterRemoveView(r: Registry, inst: InstanceId, id: ViewId): Registry {
    if inst !in r.instanceViews then r
    else
      var views := r.instanceViews[inst];
      match Position(views, id)
      case None => r
      case Some(pos) => Registry(r.views - {id}, r.instanceViews[inst := views[..pos] + views[pos + 1..]])
  }

  /** `remove_instance_views`: the instance's list goes, and every view on it. */
  function AfterRemoveInstanceViews(r: Registry, inst: InstanceId): Registry {
    if inst !in r.instanceViews then r
    else Registry(r.views - Elements(r.instanceViews[inst]), r.instanceViews - {inst})
  }

  /** The ids on a list. */
  function Elements(s: seq<ViewId>): (r: set<ViewId>)
    ensures forall x :: x in r <==> x in s
  {
    if s == [] then {} else Elements(s[..|s| - 1]) + {s[|s| - 1]}
  }

  /** `get`. */
  function Get(r: Registry, id: ViewId): (info: Option<ViewInfo>)
    ensures info.Some? <==> id in r.views
    ensures info.Some? ==> info.value == r.views[id]
  {
    if id in r.views then Some(r.views[id]) else None
  }

  /** `update_pacing`: an unknown view is an error. */
  function AfterUpdatePacing(r: Registry, id: ViewId, pacing: RenderPacing): Result<Registry, ViewError> {
    if id !in r.views then Err(ViewDoesNotExist(id))
    else Ok(r.(views := r.views[id := r.views[id].(pacing := pacing)]))
  }

  /** `effective_pacing`: smooth when any view is smooth, fast otherwise. */
  function EffectivePacing(r: Registry): (p: RenderPacing)
    ensures p == Smooth <==> exists id :: id in r.views && r.views[id].pacing == Smooth
  {
    if exists id :: id in r.views && r.views[id].pacing == Smooth then Smooth else Fast
  }

  /** The empty registry is consistent. */
  lemma EmptyConsistent()
    ensures Consistent(Registry(map[], map[]))
  {
  }

  /** Adding a view makes it retrievable with the default pacing, lists it last under its
      instance, leaves the other views alone, and keeps a registry without that view
      consistent. */
  lemma AddViewProperties(r: Registry, inst: InstanceId, info: ViewCreationInfo, defaultPacing: RenderPacing)
    requires Consistent(r) && info.id !in r.views
    ensures var a := AfterAddView(r, inst, info, defaultPacing);
      Consistent(a) &&
      Get(a, info.id) == Some(ViewInfo(info, inst, defaultPacing)) &&
      ListedViews(a, inst) == ListedViews(r, inst) + [info.id] &&
      (forall id :: id != info.id ==> Get(a, id) == Get(r, id))
  {
    var a := AfterAddView(r, inst, info, defaultPacing);
    assert info.id !in ListedViews(r, inst);
    forall i | i in a.instanceViews
      ensures Distinct(a.instanceViews[i])
    {
      if i == inst {
        var l := ListedViews(r, inst);
        assert a.instanceViews[i] == l + [info.id];
      }
    }
  }

  /** Removing a view takes it out of the registry and out of the instance's list exactly
      when the instance lists it; otherwise nothing changes. */
  lemma RemoveViewProperties(r: Registry, inst: InstanceId, id: ViewId)
    requires Consistent(r)
    ensures var d := AfterRemoveView(r, inst, id);
      (id in ListedViews(r, inst) ==>
        Get(d, id).None? && id !in ListedViews(d, inst) && |ListedViews(d, inst)| == |ListedViews(r, inst)| - 1) &&
      (id !in ListedViews(r, inst) ==> d == r) &&
      (forall other :: other != id ==> Get(d, other) == Get(r, other))
  {
    if inst in r.instanceViews && id in r.instanceViews[inst] {
      RemoveAtKeepsOthers(r.instanceViews[inst], Position(r.instanceViews[inst], id).value);
    }
  }

  /** Removing a view keeps the registry consistent. */
  lemma RemoveViewKeepsConsistent(r: Registry, inst: InstanceId, id: ViewId)
    requires Consistent(r)
    ensures Consistent(AfterRemoveView(r, inst, id))
  {
    var d := AfterRemoveView(r, inst, id);
    if inst in r.instanceViews && id in r.instanceViews[inst] {
      var views := r.instanceViews[inst];
      var pos := Position(views, id).value;
      RemoveAtKeepsOthers(views, pos);
      forall i, other | i in d.instanceViews && other in d.instanceViews[i]
        ensures other in d.views && d.views[other].instanceId == i
      {
        if i == inst {
          assert other in views && other != id;
        } else {
          assert r.views[id].instanceId == inst;
          assert other != id;
        }
      }
    }
  }

  /** Removing the element at `pos` from a list of distinct elements removes exactly that
      element. */
  lemma RemoveAtKeepsOthers(s: seq<ViewId>, pos: nat)
    requires pos < |s| && Distinct(s)
    ensures var r := s[..pos] + s[pos + 1..];
      Distinct(r) && |r| == |s| - 1 && forall x :: x in r <==> x in s && x != s[pos]
  {
    var r := s[..pos] + s[pos + 1..];
    forall i, j | 0 <= i < j < |r|
      ensures r[i] != r[j]
    {
      var si := if i < pos then i else i + 1;
      var sj := if j < pos then j else j + 1;
      assert r[i] == s[si] && r[j] == s[sj];
    }
    forall x | x in s && x != s[pos]
      ensures x in r
    {
      var k :| 0 <= k < |s| && s[k] == x;
      if k < pos { assert r[k] == x; } else { assert r[k - 1] == x; }
    }
  }

  /** Removing an instance's views removes every view it lists and nothing else, and keeps
      the registry consistent. */
  lemma RemoveInstanceViewsProperties(r: Registry, inst: InstanceId)
    requires Consistent(r)
    ensures var d := AfterRemoveInstanceViews(r, inst);
      Consistent(d) && ListedViews(d, inst) == [] &&
      (forall id :: id in ListedViews(r, inst) ==> Get(d, id).None?) &&
      (forall id :: id !in ListedViews(r, inst) ==> Get(d, id) == Get(r, id))
  {
  }

  /** Updating the pacing fails exactly for an unknown view and otherwise changes that
      view's pacing and nothing else. */
  lemma UpdatePacingProperties(r: Registry, id: ViewId, pacing: RenderPacing)
    ensures var u := AfterUpdatePacing(r, id, pacing);
      (u.Err? <==> id !in r.views) &&
      (u.Ok? ==>
        (Get(u.value, id) == Some(r.views[id].(pacing := pacing)) &&
         u.value.instanceViews == r.instanceViews &&
         forall other :: other != id ==> Get(u.value, other) == Get(r, other)))
    ensures Consistent(r) && AfterUpdatePacing(r, id, pacing).Ok? ==> Consistent(AfterUpdatePacing(r, id, pacing).value)
  {
  }

  /** Setting a view smooth makes the effective pacing smooth; the effective pacing of a
      registry without views is fast. */
  lemma SmoothDominates(r: Registry, id: ViewId)
    requires id in r.views
    ensures EffectivePacing(AfterUpdatePacing(r, id, Smooth).value) == Smooth
    ensures EffectivePacing(Registry(map[], r.instanceViews)) == Fast
  {
    var u := AfterUpdatePacing(r, id, Smooth).value;
    assert u.views[id].pacing == Smooth;
  }

  /** `ViewManager`. */
  class ViewManager {
    var views: map<ViewId, ViewInfo>
    var instanceViews: map<InstanceId, seq<ViewId>>

    function Snapshot(): Registry
      reads this
    {
      Registry(views, instanceViews)
    }

    /** `new`: no views. */
    constructor()
      ensures Snapshot() == Registry(map[], map[])
    {
      views := map[];
      instanceViews := map[];
    }

    method AddView(inst: InstanceId, info: ViewCreationInfo, defaultPacing: RenderPacing)
      modifies this
      ensures Snapshot() == AfterAddView(old(Snapshot()), inst, info, defaultPacing)
    {
      views := views[info.id := ViewInfo(info, inst, defaultPacing)];
      var list := if inst in instanceViews then instanceViews[inst] else [];
      instanceViews := instanceViews[inst := list + [info.id]];
    }

    method RemoveView(inst: InstanceId, id: ViewId)
      modifies this
      ensures Snapshot() == AfterRemoveView(old(Snapshot()), inst, id)
    {
      if inst !in instanceViews {
        return;
      }
      var list := instanceViews[inst];
      var i := 0;
      while i < |list| && list[i] != id
        invariant i <= |list| && id !in list[..i]
      {
        assert list[..i + 1] == list[..i] + [list[i]];
        i := i + 1;
      }
      if i == |list| {
        assert list[..i] == list;
        return;
      }
      PositionIsFirst(list, i, id);
      instanceViews := instanceViews[inst := list[..i] + list[i + 1..]];
      views := views - {id};
    }

    method RemoveInstanceViews(inst: InstanceId)
      modifies this
      ensures Snapshot() == AfterRemoveInstanceViews(old(Snapshot()), inst)
    {
      if inst !in instanceViews {
        return;
      }
      var list := instanceViews[inst];
      instanceViews := instanceViews - {inst};
      ghost var before := views;
      for i := 0 to |list|
        invariant views == before - Elements(list[..i])
        invariant instanceViews == old(instanceViews) - {inst}
      {
        assert list[..i + 1][..i] == list[..i];
        views := views - {list[i]};
      }
      assert list[..|list|] == list;
    }

    method UpdatePacing(id: ViewId, pacing: RenderPacing) returns (result: Result<(), ViewError>)
      modifies this
      ensures match AfterUpdatePacing(old(Snapshot()), id, pacing)
        case Err(e) => result == Err(e) && Snapshot() == old(Snapshot())
        case Ok(r) => result == Ok(()) && Snapshot() == r
    {
      if id !in views {
        return Err(ViewDoesNotExist(id));
      }
      views := views[id := views[id].(pacing := pacing)];
      result := Ok(());
    }
  }

  lemma PositionIsFirst(s: seq<ViewId>, i: nat, id: ViewId)
    requires i < |s| && s[i] == id && id !in s[..i]
    ensures Position(s, id) == Some(i)
  {
  }
}
