/** `AsyncWindowRenderer::filter_latest_messages` (shell/src/async_window_renderer.rs): of
    the renderer messages collected in one round, only the latest of each variant is
    dispatched, in the original order. The variant is `mem::discriminant`, a function
    parameter here. */
module AsyncWindowRenderer {
  import opened Wrappers
  import opened MessageFilter

  /** Every message keyed by its variant. */
  function ByVariant<M, V>(discriminant: M -> V): M -> Option<V> {
    VariantKey(_ => true, discriminant)
  }

  /** The survivors among the first `n` messages, in order. */
  ghost function Survivors<M, K>(msgs: seq<M>, key: M -> Option<K>, n: nat): seq<M>
    requires n <= |msgs|
  {
    if n == 0 then [] else Survivors(msgs, key, n - 1) + (if KeptAt(msgs, key, n - 1) then [msgs[n - 1]] else [])
  }

  /** Taking the survivors front to back gives what `LastPerKey` keeps. */
  lemma {:induction false} SurvivorsCons<M, K>(msgs: seq<M>, key: M -> Option<K>, n: nat)
    requires 0 < n <= |msgs|
    ensures Survivors(msgs, key, n) == (if KeptAt(msgs, key, 0) then [msgs[0]] else []) + Survivors(msgs[1..], key, n - 1)
  {
    var tail := msgs[1..];
    if n > 1 {
      SurvivorsCons(msgs, key, n - 1);
      assert KeptAt(msgs, key, n - 1) <==> KeptAt(tail, key, n - 2) by {
        assert forall j :: n - 1 < j < |msgs| ==> msgs[j] == tail[j - 1];
        if !KeptAt(tail, key, n - 2) {
          var j :| n - 2 < j < |tail| && key(tail[j]) == key(tail[n - 2]);
          assert msgs[j + 1] == tail[j];
        }
      }
    }
  }

  lemma {:induction false} SurvivorsAll<M, K>(msgs: seq<M>, key: M -> Option<K>)
    ensures Survivors(msgs, key, |msgs|) == LastPerKey(msgs, key)
    decreases |msgs|
  {
    if msgs != [] {
      var head := if KeptAt(msgs, key, 0) then [msgs[0]] else [];
      SurvivorsCons(msgs, key, |msgs|);
      SurvivorsAll(msgs[1..], key);
      assert |msgs[1..]| == |msgs| - 1;
      assert Survivors(msgs, key, |msgs|) == head + Survivors(msgs[1..], key, |msgs| - 1);
      assert LastPerKey(msgs, key) == head + LastPerKey(msgs[1..], key);
    }
  }

  /** `latest` maps each variant among the first `n` messages to the index of its last
      message there. */
  ghost predicate LatestIndices<M, V>(messages: seq<M>, discriminant: M -> V, latest: map<V, nat>, n: nat)
    requires n <= |messages|
  {
    (forall v :: v in latest ==> latest[v] < n && discriminant(messages[latest[v]]) == v) &&
    (forall v, j :: v in latest && latest[v] < j < n ==> discriminant(messages[j]) != v) &&
    (forall j :: 0 <= j < n ==> discriminant(messages[j]) in latest)
  }

  lemma LatestIndicesStep<M, V>(messages: seq<M>, discriminant: M -> V, latest: map<V, nat>, n: nat)
    requires n < |messages| && LatestIndices(messages, discriminant, latest, n)
    ensures LatestIndices(messages, discriminant, latest[discriminant(messages[n]) := n], n + 1)
  {
  }

  /** Over all messages, a message survives exactly when its index is the one recorded
      for its variant. */
  lemma LatestDecidesKept<M, V>(messages: seq<M>, discriminant: M -> V, latest: map<V, nat>, i: nat)
    requires i < |messages| && LatestIndices(messages, discriminant, latest, |messages|)
    ensures discriminant(messages[i]) in latest
    ensures Survivors(messages, ByVariant(discriminant), i + 1) ==
      Survivors(messages, ByVariant(discriminant), i) + (if latest[discriminant(messages[i])] == i then [messages[i]] else [])
  {
    var key := ByVariant(discriminant);
    var v := discriminant(messages[i]);
    if latest[v] > i {
      assert key(messages[latest[v]]) == key(messages[i]);
    }
    assert KeptAt(messages, key, i) <==> latest[v] == i;
  }

  /** `filter_latest_messages`: records the latest index of each variant, then keeps the
      message at each index that is the latest of its variant. It is `keep_last_per_key`
      with every message keyed by its variant. */
  method FilterLatestMessages<M, V(==)>(messages: seq<M>, discriminant: M -> V) returns (result: seq<M>)
    ensures result == LastPerKey(messages, ByVariant(discriminant))
  {
    var latest: map<V, nat> := map[];
    var index := 0;
    while index < |messages|
      invariant 0 <= index <= |messages|
      invariant LatestIndices(messages, discriminant, latest, index)
    {
      LatestIndicesStep(messages, discriminant, latest, index);
      latest := latest[discriminant(messages[index]) := index];
      index := index + 1;
    }
    result := [];
    index := 0;
    while index < |messages|
      invariant 0 <= index <= |messages|
      invariant result == Survivors(messages, ByVariant(discriminant), index)
    {
      var v := discriminant(messages[index]);
      LatestDecidesKept(messages, discriminant, latest, index);
      if v in latest && latest[v] == index {
        result := result + [messages[index]];
      }
      index := index + 1;
    }
    SurvivorsAll(messages, ByVariant(discriminant));
  }

  /** What `filter_latest_messages` keeps: one message per variant, every variant of the
      input, in the input's order, and no more messages than it was given. */
  lemma LatestPerVariant<M, V>(messages: seq<M>, discriminant: M -> V)
    ensures var out := LastPerKey(messages, ByVariant(discriminant));
      (forall i, j :: 0 <= i < j < |out| ==> discriminant(out[i]) != discriminant(out[j])) &&
      (forall i :: 0 <= i < |messages| ==> exists j :: 0 <= j < |out| && discriminant(out[j]) == discriminant(messages[i])) &&
      IsSubsequence(out, messages) &&
      |out| <= |messages|
  {
    var key := ByVariant(discriminant);
    var out := LastPerKey(messages, key);
    LastPerKeyKeysDistinct(messages, key);
    LastPerKeyCoversKeys(messages, key);
    LastPerKeyIsSubsequence(messages, key);
    forall i, j | 0 <= i < j < |out|
      ensures discriminant(out[i]) != discriminant(out[j])
    {
      assert key(out[i]) != key(out[j]);
    }
    forall i | 0 <= i < |messages|
      ensures exists j :: 0 <= j < |out| && discriminant(out[j]) == discriminant(messages[i])
    {
      assert key(messages[i]).value in KeysOf(messages, key);
      var j :| 0 <= j < |out| && key(out[j]).Some? && key(out[j]).value == key(messages[i]).value;
    }
  }
}
