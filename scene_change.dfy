/** scene/src/change.rs: the changes a scene records, and which of them free an id. */
module SceneChange {
  import opened Wrappers

  /** Scene object ids. */
  type Id = nat

  /** The Rust types whose `TypeId` a destructive change reports. */
  datatype TypeTag = Matrix4Tag | VisualTag | LocationTag

  /** `Change<T>`: creation, deletion or update of the object with an id. */
  datatype Change<T> = Create(id: Id, value: T) | Delete(id: Id) | Update(id: Id, value: T)

  /** `SceneChange`: a change to a matrix, a location or a visual; the payloads are abstract. */
  datatype SceneChange<M, L, V> =
    | Matrix(matrix: Change<M>)
    | Location(location: Change<L>)
    | Visual(visual: Change<V>)

  /** The variant's inner change, with its payload dropped. */
  predicate IsDelete<M, L, V>(c: SceneChange<M, L, V>) {
    match c
    case Matrix(ch) => ch.Delete?
    case Location(ch) => ch.Delete?
    case Visual(ch) => ch.Delete?
  }

  /** The id the change is about. */
  function ChangeId<M, L, V>(c: SceneChange<M, L, V>): Id {
    match c
    case Matrix(ch) => ch.id
    case Location(ch) => ch.id
    case Visual(ch) => ch.id
  }

  /** `destructive_change`: deletions report the type tag of their variant and the id;
      creations and updates report nothing. */
  function DestructiveChange<M, L, V>(c: SceneChange<M, L, V>): (r: Option<(TypeTag, Id)>)
    ensures r.Some? <==> IsDelete(c)
    ensures r.Some? ==> r.value.1 == ChangeId(c)
    ensures r.Some? && c.Matrix? ==> r.value.0 == Matrix4Tag
    ensures r.Some? && c.Visual? ==> r.value.0 == VisualTag
    ensures r.Some? && c.Location? ==> r.value.0 == LocationTag
  {
    match c
    case Matrix(Delete(id)) => Some((Matrix4Tag, id))
    case Visual(Delete(id)) => Some((VisualTag, id))
    case Location(Delete(id)) => Some((LocationTag, id))
    case _ => None
  }

  /** The tag a variant reports, whatever its change. */
  function VariantTag<M, L, V>(c: SceneChange<M, L, V>): TypeTag {
    match c
    case Matrix(_) => Matrix4Tag
    case Visual(_) => VisualTag
    case Location(_) => LocationTag
  }

  /** Distinct variants report distinct tags, so a reported pair identifies the deleted
      object's kind and id. */
  lemma DestructiveChangeInjective<M, L, V>(a: SceneChange<M, L, V>, b: SceneChange<M, L, V>)
    requires DestructiveChange(a).Some? && DestructiveChange(a) == DestructiveChange(b)
    ensures VariantTag(a) == VariantTag(b) && ChangeId(a) == ChangeId(b)
    ensures IsDelete(a) && IsDelete(b)
  {
  }
}
