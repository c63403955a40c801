/** The strict map of the desktop's aggregates (desktop/src/aggregates/layout_specs.rs): a
    hash map whose `insert` reports an existing key and whose `remove` reports a missing
    one. */
module LayoutSpecs {
  import opened Wrappers

  /** The errors the map reports. */
  datatype MapError = AlreadyExisting | NotFound

  /** `Map`. */
  class Map<K(==), V> {
    var entries: map<K, V>

    /** `Map::default`. */
    constructor()
      ensures entries == map[]
    {
      entries := map[];
    }

    /** `insert`: stores the value in any case, and fails when the key was present; the
        old value is overwritten by then. */
    method Insert(key: K, value: V) returns (r: Result<(), MapError>)
      modifies this
      ensures entries == old(entries)[key := value]
      ensures r.Err? <==> key in old(entries)
      ensures r.Err? ==> r.error == AlreadyExisting
    {
      var existed := key in entries;
      entries := entries[key := value];
      if existed {
        return Err(AlreadyExisting);
      }
      r := Ok(());
    }

    /** `insert_or_update`: stores the value. */
    method InsertOrUpdate(key: K, value: V)
      modifies this
      ensures entries == old(entries)[key := value]
    {
      entries := entries[key := value];
    }

    /** `remove`: fails on a missing key and deletes the entry otherwise. */
    method Remove(target: K) returns (r: Result<(), MapError>)
      modifies this
      ensures r.Err? <==> target !in old(entries)
      ensures r.Err? ==> r.error == NotFound && entries == old(entries)
      ensures r.Ok? ==> entries == old(entries) - {target}
    {
      if target !in entries {
        return Err(NotFound);
      }
      entries := entries - {target};
      r := Ok(());
    }

    /** `get`. */
    function Get(target: K): (r: Option<V>)
      reads this
      ensures r.Some? <==> target in entries
      ensures r.Some? ==> r.value == entries[target]
    {
      if target in entries then Some(entries[target]) else None
    }
  }
}
