/** input/src/progress.rs: the input crate's own `Progress<T>` with `map` and `try_map`. */
module InputProgress {
  import opened Wrappers
  import UtilProgress

  datatype Progress<T> = Proceed(v: T) | Commit | Cancel

  /** `try_map`: a rejection by f on a Proceed value propagates as None. */
  function TryMap<T, R>(p: Progress<T>, f: T -> Option<R>): (r: Option<Progress<R>>)
    ensures p.Proceed? ==> (r.None? <==> f(p.v).None?)
    ensures p.Proceed? && f(p.v).Some? ==> r == Some(Proceed(f(p.v).value))
    ensures p.Commit? ==> r == Some(Commit)
    ensures p.Cancel? ==> r == Some(Cancel)
  {
    match p
    case Proceed(v) => (match f(v) case Some(x) => Some(Proceed(x)) case None => None)
    case Commit => Some(Commit)
    case Cancel => Some(Cancel)
  }

  /** `map`: f is applied to a Proceed value; Commit and Cancel are preserved. */
  function Map<T, R>(p: Progress<T>, f: T -> R): (r: Progress<R>)
    ensures r.Proceed? <==> p.Proceed?
    ensures p.Proceed? ==> r.v == f(p.v)
    ensures p.Commit? <==> r.Commit?
    ensures p.Cancel? <==> r.Cancel?
  {
    match p
    case Proceed(v) => Proceed(f(v))
    case Commit => Commit
    case Cancel => Cancel
  }

  /** The same progress value in the util crate's type. */
  function ToUtil<T>(p: Progress<T>): UtilProgress.Progress<T> {
    match p
    case Proceed(v) => UtilProgress.Proceed(v)
    case Commit => UtilProgress.Commit
    case Cancel => UtilProgress.Cancel
  }

  /** The input crate's combinators agree with the util crate's. */
  lemma AgreesWithUtil<T, R>(p: Progress<T>, f: T -> R, g: T -> Option<R>)
    ensures ToUtil(Map(p, f)) == UtilProgress.Map(ToUtil(p), f)
    ensures TryMap(p, g).None? <==> UtilProgress.TryMap(ToUtil(p), g).None?
    ensures TryMap(p, g).Some? ==> UtilProgress.TryMap(ToUtil(p), g) == Some(ToUtil(TryMap(p, g).value))
  {
  }

  /** f is not consulted for Commit and Cancel. */
  lemma FunctionIgnoredAtEnd<T, R>(p: Progress<T>, f: T -> R, g: T -> R)
    requires !p.Proceed?
    ensures Map(p, f) == Map(p, g)
  {
  }
}
