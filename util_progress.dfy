/** util/src/progress.rs: `Progress<T>` describes a stream of values that ends with a
    commit or a cancel, with its mapping combinators. */
module UtilProgress {
  import opened Wrappers

  datatype Progress<T> = Proceed(v: T) | Commit | Cancel

  /** `proceeds`: the carried value, for Proceed only. */
  function Proceeds<T>(p: Progress<T>): (r: Option<T>)
    ensures r.Some? <==> p.Proceed?
    ensures r.Some? ==> r.value == p.v
  {
    match p
    case Proceed(v) => Some(v)
    case Commit => None
    case Cancel => None
  }

  /** `ends`: the progress is over (committed or cancelled). */
  function Ends<T>(p: Progress<T>): (r: bool)
    ensures r <==> !p.Proceed?
  {
    Proceeds(p).None?
  }

  /** `map`: f is applied to a Proceed value; Commit and Cancel pass through. */
  function Map<T, R>(p: Progress<T>, f: T -> R): (r: Progress<R>)
    ensures r.Proceed? <==> p.Proceed?
    ensures p.Proceed? ==> r.v == f(p.v)
    ensures p.Commit? <==> r.Commit?
    ensures p.Cancel? <==> r.Cancel?
  {
    match p
    case Proceed(v) => Proceed(f(v))
    case Commit => Commit
    case Cancel => Cancel
  }

  /** `try_map`: None when f rejects the Proceed value; Commit and Cancel come back wrapped. */
  function TryMap<T, R>(p: Progress<T>, f: T -> Option<R>): (r: Option<Progress<R>>)
    ensures p.Proceed? ==> (r.None? <==> f(p.v).None?)
    ensures p.Proceed? && f(p.v).Some? ==> r == Some(Proceed(f(p.v).value))
    ensures p.Commit? ==> r == Some(Commit)
    ensures p.Cancel? ==> r == Some(Cancel)
  {
    match p
    case Proceed(v) => (match f(v) case Some(x) => Some(Proceed(x)) case None => None)
    case Commit => Some(Commit)
    case Cancel => Some(Cancel)
  }

  /** `try_map_or`: like `try_map`, with `or` in place of a rejected Proceed value. */
  function TryMapOr<T, R>(p: Progress<T>, f: T -> Option<R>, or: Progress<R>): (r: Progress<R>)
    ensures p.Proceed? && f(p.v).None? ==> r == or
    ensures p.Proceed? && f(p.v).Some? ==> r == Proceed(f(p.v).value)
    ensures p.Commit? ==> r.Commit?
    ensures p.Cancel? ==> r.Cancel?
  {
    match p
    case Proceed(v) => (match f(v) case Some(x) => Proceed(x) case None => or)
    case Commit => Commit
    case Cancel => Cancel
  }

  /** `try_map_or_cancel`: a rejected Proceed value cancels. */
  function TryMapOrCancel<T, R>(p: Progress<T>, f: T -> Option<R>): (r: Progress<R>)
    ensures p.Proceed? && f(p.v).None? ==> r.Cancel?
    ensures r == TryMap(p, f).UnwrapOr(Cancel)
  {
    TryMapOr(p, f, Cancel)
  }

  /** `try_map_or_commit`: a rejected Proceed value commits. */
  function TryMapOrCommit<T, R>(p: Progress<T>, f: T -> Option<R>): (r: Progress<R>)
    ensures p.Proceed? && f(p.v).None? ==> r.Commit?
    ensures r == TryMap(p, f).UnwrapOr(Commit)
  {
    TryMapOr(p, f, Commit)
  }

  /** `try_map_or` is `try_map` with the rejection replaced by `or`. */
  lemma TryMapOrIsTryMapUnwrapOr<T, R>(p: Progress<T>, f: T -> Option<R>, or: Progress<R>)
    ensures TryMapOr(p, f, or) == TryMap(p, f).UnwrapOr(or)
  {
  }

  /** `map` is `try_map` with a function that never rejects. */
  lemma MapIsTotalTryMap<T, R>(p: Progress<T>, f: T -> R)
    ensures TryMap(p, x => Some(f(x))) == Some(Map(p, f))
  {
  }

  /** Mapping twice is mapping once with the composition. */
  lemma MapCompose<T, U, R>(p: Progress<T>, f: T -> U, g: U -> R)
    ensures Map(Map(p, f), g) == Map(p, x => g(f(x)))
  {
  }

  /** The end of the progress does not depend on the mapping function: f is not consulted
      for Commit and Cancel. */
  lemma EndsUnaffectedByMap<T, R>(p: Progress<T>, f: T -> R, g: T -> R)
    ensures Ends(Map(p, f)) == Ends(p)
    ensures Ends(p) ==> Map(p, f) == Map(p, g)
  {
  }
}
