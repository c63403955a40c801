/** scene/src/handle.rs: a shared handle to a scene object that records its creation, its
    updates and, once the last clone is gone, its deletion in a change tracker. */
module SceneHandle {
  import opened SceneChange

  /** The `ChangeTracker` the handles push to: the recorded changes in order. */
  class ChangeTracker<C> {
    var changes: seq<Change<C>>

    constructor ()
      ensures changes == []
    {
      changes := [];
    }

    /** `push`: appends one change. */
    method Push(c: Change<C>)
      modifies this
      ensures changes == old(changes) + [c]
    {
      changes := changes + [c];
    }
  }

  /** The number of deletions in a list of changes. */
  function Deletes<C>(h: seq<Change<C>>): (n: nat)
    ensures n <= |h|
  {
    if h == [] then 0 else Deletes(h[..|h| - 1]) + (if h[|h| - 1].Delete? then 1 else 0)
  }

  /** The changes one object has pushed so far: a creation first, updates after it and, when
      it is no longer alive, one deletion last; all about its own id. */
  ghost predicate Lifecycle<C>(h: seq<Change<C>>, id: Id, alive: bool) {
    |h| >= 1 && h[0].Create? &&
    (forall i :: 0 <= i < |h| ==> h[i].id == id) &&
    (forall i :: 1 <= i < |h| - 1 ==> h[i].Update?) &&
    if alive then |h| == 1 || h[|h| - 1].Update? else |h| >= 2 && h[|h| - 1].Delete?
  }

  /** Changes without a deletion count none. */
  lemma {:induction false} NoDeletes<C>(h: seq<Change<C>>)
    requires forall i :: 0 <= i < |h| ==> !h[i].Delete?
    ensures Deletes(h) == 0
  {
    if h != [] {
      NoDeletes(h[..|h| - 1]);
    }
  }

  /** An object's lifecycle holds no deletion while it is alive and exactly one after. */
  lemma LifecycleDeletesOnce<C>(h: seq<Change<C>>, id: Id, alive: bool)
    requires Lifecycle(h, id, alive)
    ensures Deletes(h) == if alive then 0 else 1
  {
    if alive {
      NoDeletes(h);
    } else {
      NoDeletes(h[..|h| - 1]);
    }
  }

  /** `InnerHandle`: what all clones of a handle share; `clones` is the `Rc`'s count of live
      handles and `pushed` the changes this object has recorded. */
  class InnerHandle<T, C> {
    const id: Id
    const tracker: ChangeTracker<C>
    const toChange: T -> C
    var value: T
    var clones: nat
    ghost var pushed: seq<Change<C>>

    ghost predicate Valid()
      reads this
    {
      Lifecycle(pushed, id, clones > 0)
    }

    constructor (id: Id, value: T, tracker: ChangeTracker<C>, toChange: T -> C)
      ensures this.id == id && this.value == value && this.tracker == tracker && this.toChange == toChange
      ensures clones == 1 && pushed == [Create(id, toChange(value))]
      ensures Valid()
    {
      this.id := id;
      this.value := value;
      this.tracker := tracker;
      this.toChange := toChange;
      clones := 1;
      pushed := [Create(id, toChange(value))];
    }

    /** `update`: records the new value's change, then stores the value. */
    method Update(v: T)
      requires Valid() && clones > 0
      modifies this, tracker
      ensures tracker.changes == old(tracker.changes) + [Change.Update(id, toChange(v))]
      ensures value == v && clones == old(clones) && pushed == old(pushed) + [Change.Update(id, toChange(v))]
      ensures Valid()
    {
      tracker.Push(Change.Update(id, toChange(v)));
      pushed := pushed + [Change.Update(id, toChange(v))];
      value := v;
    }

    /** `updated`: records the change of the value as it is now. */
    method Updated()
      requires Valid() && clones > 0
      modifies this, tracker
      ensures tracker.changes == old(tracker.changes) + [Change.Update(id, toChange(value))]
      ensures value == old(value) && clones == old(clones) && pushed == old(pushed) + [Change.Update(id, toChange(value))]
      ensures Valid()
    {
      tracker.Push(Change.Update(id, toChange(value)));
      pushed := pushed + [Change.Update(id, toChange(value))];
    }
  }

  /** `Handle`: one owner of the shared inner object; `dropped` says this owner is gone. */
  class Handle<T(==), C> {
    const inner: InnerHandle<T, C>
    ghost var dropped: bool

    /** The handle is live and its object's history is well formed. */
    ghost predicate Valid()
      reads this, inner
    {
      !dropped && inner.clones > 0 && inner.Valid()
    }

    /** `new`: records the creation of `id` with the value's change. */
    constructor (id: Id, value: T, tracker: ChangeTracker<C>, toChange: T -> C)
      modifies tracker
      ensures tracker.changes == old(tracker.changes) + [Create(id, toChange(value))]
      ensures fresh(inner) && inner.id == id && inner.value == value && inner.tracker == tracker
      ensures inner.toChange == toChange && inner.clones == 1
      ensures Valid()
    {
      tracker.Push(Create(id, toChange(value)));
      inner := new InnerHandle(id, value, tracker, toChange);
      dropped := false;
    }

    /** `id`: the object's id, the same for the handle's whole life. */
    function Id(): (r: Id)
      reads this, inner
      ensures r == inner.id
    {
      inner.id
    }

    /** `value`: the shared current value. */
    function Value(): (r: T)
      reads this, inner
      ensures r == inner.value
    {
      inner.value
    }

    /** `clone`: another owner of the same inner object. */
    method Clone() returns (h: Handle<T, C>)
      requires Valid()
      modifies inner
      ensures fresh(h) && h.inner == inner && h.Valid() && Valid()
      ensures inner.clones == old(inner.clones) + 1
      ensures inner.value == old(inner.value) && inner.pushed == old(inner.pushed)
    {
      inner.clones := inner.clones + 1;
      h := new Handle.Share(inner);
    }

    /** A handle owning an inner object that is already counted. */
    constructor Share(inner: InnerHandle<T, C>)
      requires inner.clones > 0 && inner.Valid()
      ensures this.inner == inner && Valid()
    {
      this.inner := inner;
      dropped := false;
    }

    /** `update`: records and stores the new value; every clone sees it. */
    method Update(v: T)
      requires Valid()
      modifies inner, inner.tracker
      ensures inner.tracker.changes == old(inner.tracker.changes) + [Change.Update(inner.id, inner.toChange(v))]
      ensures inner.value == v && inner.clones == old(inner.clones) && Valid()
    {
      inner.Update(v);
    }

    /** `update_if_changed`: records nothing when the value is the current one. */
    method UpdateIfChanged(v: T)
      requires Valid()
      modifies inner, inner.tracker
      ensures old(inner.value) == v ==> inner.tracker.changes == old(inner.tracker.changes) && inner.value == v
      ensures old(inner.value) != v ==>
        inner.tracker.changes == old(inner.tracker.changes) + [Change.Update(inner.id, inner.toChange(v))] && inner.value == v
      ensures inner.clones == old(inner.clones) && Valid()
    {
      if v != inner.value {
        inner.Update(v);
      }
    }

    /** `update_with`: changes the value in place with `f`, then records the new value. */
    method UpdateWith(f: T -> T)
      requires Valid()
      modifies inner, inner.tracker
      ensures inner.value == f(old(inner.value))
      ensures inner.tracker.changes == old(inner.tracker.changes) + [Change.Update(inner.id, inner.toChange(f(old(inner.value))))]
      ensures inner.clones == old(inner.clones) && Valid()
    {
      inner.value := f(inner.value);
      inner.Updated();
    }

    /** Dropping a handle: the last owner to go records the deletion of the object. */
    method Drop()
      requires Valid()
      modifies this, inner, inner.tracker
      ensures dropped && inner.clones == old(inner.clones) - 1 && inner.value == old(inner.value)
      ensures old(inner.clones) == 1 ==> inner.tracker.changes == old(inner.tracker.changes) + [Delete(inner.id)]
      ensures old(inner.clones) > 1 ==> inner.tracker.changes == old(inner.tracker.changes)
      ensures inner.Valid() && Deletes(inner.pushed) == if inner.clones == 0 then 1 else 0
    {
      dropped := true;
      inner.clones := inner.clones - 1;
      if inner.clones == 0 {
        inner.tracker.Push(Delete(inner.id));
        inner.pushed := inner.pushed + [Delete(inner.id)];
      }
      LifecycleDeletesOnce(inner.pushed, inner.id, inner.clones > 0);
    }
  }
}
