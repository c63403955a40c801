/** renderer/src/scene/versioning.rs: the scene's versioned values and computed values. */
module SceneVersioning {
  import opened Transactions

  /** `Versioned<T>`. */
  class Versioned<T> {
    var value: T
    var updatedAt: Version

    /** `new`. */
    constructor (value: T, version: Version)
      ensures this.value == value && updatedAt == version
    {
      this.value := value;
      updatedAt := version;
    }

    /** `Deref`: the value. */
    function Deref(): T
      reads this
    {
      value
    }

    /** `update(value, version)`: replaces value and version when the version is newer; a
        version that is not is the failing `assert!` (`panicked`), which changes nothing. */
    method Update(value: T, version: Version) returns (panicked: bool)
      modifies this
      ensures panicked <==> version <= old(updatedAt)
      ensures !panicked ==> this.value == value && updatedAt == version
      ensures panicked ==> this.value == old(this.value) && updatedAt == old(updatedAt)
    {
      panicked := version <= updatedAt;
      if !panicked {
        this.value := value;
        updatedAt := version;
      }
    }
  }

  /** `Computed<V>`: when it was last validated, the largest version of its dependencies, and
      the value computed from them. */
  datatype Computed<V> = Computed(validatedAt: Version, maxDepsVersion: Version, value: V) {
    /** `Deref`: the value. */
    function Deref(): (r: V)
      ensures r == value
    {
      value
    }
  }
}
