/** renderer/src/tools/versioning.rs: a value tagged with the version it was last updated at,
    and a lazily recomputed value. */
module ToolsVersioning {
  import opened Wrappers
  import opened Transactions

  /** The contents of a `Versioned` (its value and `updated_at`). */
  datatype Stamped<T> = Stamped(value: T, updatedAt: Version)

  /** `resolve` on the contents: panics when the head version is behind `updated_at`;
      recomputes (the resolver's result is `recomputed`) and stamps the head version when
      `updated_at` is behind; otherwise keeps the contents. */
  function Resolved<T>(s: Stamped<T>, head: Version, recomputed: T): (r: Outcome<Stamped<T>>)
    ensures r.Panics? <==> head < s.updatedAt
    ensures r.Returns? ==> r.value.updatedAt == head
    ensures r.Returns? && s.updatedAt < head ==> r.value.value == recomputed
    ensures r.Returns? && s.updatedAt == head ==> r.value == s
  {
    if head < s.updatedAt then Panics
    else if s.updatedAt < head then Updated(s, recomputed, head)
    else Returns(s)
  }

  /** `update` on the contents: panics unless the version is newer. */
  function Updated<T>(s: Stamped<T>, value: T, version: Version): (r: Outcome<Stamped<T>>)
    ensures r.Panics? <==> version <= s.updatedAt
    ensures r.Returns? ==> r.value == Stamped(value, version)
  {
    if version > s.updatedAt then Returns(Stamped(value, version)) else Panics
  }

  /** Whether `resolve` calls the resolver. */
  predicate Recomputes<T>(s: Stamped<T>, head: Version) {
    s.updatedAt < head
  }

  /** A second `resolve` at the same head version returns the same value without calling the
      resolver again, whatever it would return. */
  lemma ResolveTwice<T>(s: Stamped<T>, head: Version, recomputed: T, other: T)
    requires Resolved(s, head, recomputed).Returns?
    ensures !Recomputes(Resolved(s, head, recomputed).value, head)
    ensures Resolved(Resolved(s, head, recomputed).value, head, other) == Resolved(s, head, recomputed)
  {
  }

  /** Resolving at head versions that never go back never panics, and the stamp follows the
      head. */
  lemma ResolveMonotone<T>(s: Stamped<T>, head: Version, next: Version, recomputed: T, recomputed2: T)
    requires s.updatedAt <= head <= next
    ensures Resolved(s, head, recomputed).Returns?
    ensures Resolved(Resolved(s, head, recomputed).value, next, recomputed2).Returns?
    ensures Resolved(Resolved(s, head, recomputed).value, next, recomputed2).value.updatedAt == next
  {
  }

  /** `Versioned<T>`. */
  class Versioned<T> {
    var value: T
    var updatedAt: Version

    /** `new`. */
    constructor (value: T, version: Version)
      ensures this.value == value && updatedAt == version
    {
      this.value := value;
      updatedAt := version;
    }

    function Contents(): Stamped<T>
      reads this
    {
      Stamped(value, updatedAt)
    }

    /** `Deref`: the value. */
    function Deref(): T
      reads this
    {
      value
    }

    /** `resolve(head_version, resolver)`; `recomputed` is what the resolver returns when it is
        called, and `called` says whether it is. A panic leaves the value as it was. */
    method Resolve(head: Version, recomputed: T) returns (r: Outcome<T>, called: bool)
      modifies this
      ensures called <==> old(updatedAt) < head
      ensures Resolved(old(Contents()), head, recomputed).Returns? ==>
        Contents() == Resolved(old(Contents()), head, recomputed).value && r == Returns(value)
      ensures Resolved(old(Contents()), head, recomputed).Panics? ==>
        r.Panics? && Contents() == old(Contents())
    {
      called := false;
      if head < updatedAt {
        return Panics, false;
      }
      if updatedAt < head {
        called := true;
        var panicked := Update(recomputed, head);
      }
      r := Returns(value);
    }

    /** `update(value, version)`; `panicked` is the failing `assert!`, which leaves the
        contents as they were. */
    method Update(value: T, version: Version) returns (panicked: bool)
      modifies this
      ensures panicked <==> Updated(old(Contents()), value, version).Panics?
      ensures !panicked ==> Contents() == Updated(old(Contents()), value, version).value
      ensures panicked ==> Contents() == old(Contents())
    {
      panicked := version <= updatedAt;
      if !panicked {
        this.value := value;
        updatedAt := version;
      }
    }
  }

  /** `Computed<V>`: when the value was last validated against its dependencies, and the
      value stamped with the largest version among them. */
  class Computed<V> {
    var validatedAt: Version
    const versioned: Versioned<V>

    /** The `Default` value: validated at 0, holding the default value at version 0. */
    constructor Default(default: V)
      ensures validatedAt == 0 && fresh(versioned)
      ensures versioned.Contents() == Stamped(default, 0)
    {
      validatedAt := 0;
      versioned := new Versioned(default, 0);
    }

    /** `Deref`: the value. */
    function Deref(): V
      reads this, versioned
    {
      versioned.value
    }
  }
}
