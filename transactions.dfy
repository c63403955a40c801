/** renderer/src/transactions.rs: the version counter of scene updates. */
module Transactions {
  /** `Version` (`u64`; the model does not wrap). */
  type Version = nat

  /** `Transaction`: the version a batch of scene updates is applied at. */
  datatype Transaction = Transaction(currentVersion: Version)

  /** `TransactionManager`. */
  class TransactionManager {
    var currentVersion: Version

    /** The `Default` value: version 0. */
    constructor ()
      ensures currentVersion == 0
    {
      currentVersion := 0;
    }

    /** `new_transaction`: advances the version first, then hands it out. */
    method NewTransaction() returns (t: Transaction)
      modifies this
      ensures currentVersion == old(currentVersion) + 1
      ensures t.currentVersion == currentVersion
    {
      currentVersion := currentVersion + 1;
      t := CurrentTransaction();
    }

    /** `current_transaction`: the current version; the counter is unchanged. */
    method CurrentTransaction() returns (t: Transaction)
      ensures t.currentVersion == currentVersion
    {
      t := Transaction(currentVersion);
    }

    /** `current`. */
    function Current(): (v: Version)
      reads this
      ensures v == currentVersion
    {
      currentVersion
    }
  }

  /** Versions handed out by successive `new_transaction` calls, starting at `v`. */
  function Issued(v: Version, n: nat): (r: seq<Version>)
    ensures |r| == n
  {
    if n == 0 then [] else Issued(v, n - 1) + [v + n]
  }

  /** Successive transactions get strictly increasing versions, the `k`-th one `v + k + 1`, so
      no two share a version. */
  lemma {:induction false} IssuedIncreasing(v: Version, n: nat)
    ensures forall k :: 0 <= k < n ==> Issued(v, n)[k] == v + k + 1
    ensures forall k, l :: 0 <= k < l < n ==> Issued(v, n)[k] < Issued(v, n)[l]
  {
    if n > 0 {
      IssuedIncreasing(v, n - 1);
    }
  }
}
