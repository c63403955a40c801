/** scene/src/timeline.rs: an exclusively owned scene object that keeps its value in the
    client and records its creation, its updates and its deletion. */
module SceneTimeline {
  import opened SceneChange
  import opened SceneHandle

  /** `Timeline`: the id, the value it was created with and the shared tracker; `upload` is the
      uploaded part of `Object::split`. */
  class Timeline<T, C> {
    const id: Id
    const value: T
    const tracker: ChangeTracker<C>
    const upload: T -> C
    ghost var dropped: bool

    /** `new`: records the creation of `id` with the value's uploaded part. */
    constructor (id: Id, value: T, tracker: ChangeTracker<C>, upload: T -> C)
      modifies tracker
      ensures tracker.changes == old(tracker.changes) + [Create(id, upload(value))]
      ensures this.id == id && this.value == value && this.tracker == tracker && this.upload == upload
      ensures !dropped
    {
      tracker.Push(Create(id, upload(value)));
      this.id := id;
      this.value := value;
      this.tracker := tracker;
      this.upload := upload;
      dropped := false;
    }

    /** `Deref`: the value kept in the client. */
    function Value(): (r: T)
      ensures r == value
    {
      value
    }

    /** `update`: records an update with the new value's uploaded part; the value kept in
        the client is not replaced (it is a constant of the timeline). */
    method Update(v: T)
      requires !dropped
      modifies tracker
      ensures tracker.changes == old(tracker.changes) + [Change.Update(id, upload(v))]
    {
      tracker.Push(Change.Update(id, upload(v)));
    }

    /** Dropping the timeline records the deletion of its id. */
    method Drop()
      requires !dropped
      modifies this, tracker
      ensures dropped && tracker.changes == old(tracker.changes) + [Delete(id)]
    {
      tracker.Push(Delete(id));
      dropped := true;
    }
  }
}
