/** renderer/src/scene/id_table.rs: a table of optional rows indexed by scene id. */
module IdTable {
  import opened Wrappers
  import opened SceneChange

  /** `put` on the rows: grows them with empty rows up to `id + 1` and stores the value at
      `id`; every other row keeps its content, and the new rows are empty. */
  function Stored<T>(rows: seq<Option<T>>, id: Id, value: T): (r: seq<Option<T>>)
    ensures |r| == if id < |rows| then |rows| else id + 1
    ensures r[id] == Some(value)
    ensures forall i :: 0 <= i < |r| && i != id ==> r[i] == if i < |rows| then rows[i] else None
  {
    var grown := if id < |rows| then rows else rows + seq(id + 1 - |rows|, _ => None);
    grown[id := Some(value)]
  }

  /** `take` on the rows: the row at `id` and the rows with that one emptied; nothing for an
      id beyond the table. */
  function Taken<T>(rows: seq<Option<T>>, id: Id): (r: (Option<T>, seq<Option<T>>))
    ensures r.0 == if id < |rows| then rows[id] else None
    ensures |r.1| == |rows|
    ensures forall i :: 0 <= i < |rows| ==> r.1[i] == if i == id then None else rows[i]
  {
    if id < |rows| then (rows[id], rows[id := None]) else (None, rows)
  }

  /** The present values in index order (`iter`). */
  function Values<T>(rows: seq<Option<T>>): seq<T>
  {
    if |rows| == 0 then []
    else Values(rows[..|rows| - 1]) + (if rows[|rows| - 1].Some? then [rows[|rows| - 1].value] else [])
  }

  /** `iter` yields exactly the values of the present rows. */
  lemma {:induction false} ValuesArePresentRows<T>(rows: seq<Option<T>>, x: T)
    ensures x in Values(rows) <==> Some(x) in rows
  {
    if |rows| > 0 {
      var front := rows[..|rows| - 1];
      ValuesArePresentRows(front, x);
      assert rows == front + [rows[|rows| - 1]];
    }
  }

  /** `iter` yields one value per present row. */
  lemma {:induction false} ValuesCount<T>(rows: seq<Option<T>>)
    ensures |Values(rows)| <= |rows|
    ensures (forall i :: 0 <= i < |rows| ==> rows[i].Some?) ==> |Values(rows)| == |rows|
  {
    if |rows| > 0 {
      ValuesCount(rows[..|rows| - 1]);
    }
  }

  /** Taking a row just put gives back its value and leaves the row empty. */
  lemma TakeAfterPut<T>(rows: seq<Option<T>>, id: Id, value: T)
    ensures Taken(Stored(rows, id, value), id).0 == Some(value)
    ensures Taken(Stored(rows, id, value), id).1 == Stored(rows, id, value)[id := None]
  {
  }

  /** `IdTable`. */
  class IdTable<T> {
    var rows: seq<Option<T>>

    /** The `Default` value: no rows. */
    constructor ()
      ensures rows == []
    {
      rows := [];
    }

    /** `put`. */
    method Put(id: Id, value: T)
      modifies this
      ensures rows == Stored(old(rows), id, value)
    {
      if id >= |rows| {
        rows := rows + seq(id + 1 - |rows|, _ => None);
      }
      rows := rows[id := Some(value)];
    }

    /** `take`. */
    method Take(id: Id) returns (r: Option<T>)
      modifies this
      ensures (r, rows) == Taken(old(rows), id)
    {
      if id < |rows| {
        r := rows[id];
        rows := rows[id := None];
      } else {
        r := None;
      }
    }

    /** `remove`: `take`, dropping the row. */
    method Remove(id: Id)
      modifies this
      ensures rows == Taken(old(rows), id).1
    {
      var _ := Take(id);
    }

    /** `iter`. */
    function Iter(): seq<T>
      reads this
    {
      Values(rows)
    }
  }
}
