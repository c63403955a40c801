/** The message filters of the shell (shell/src/message_filter.rs): of the messages that
    have a key, keep only the last one per key; keep every message without a key; keep
    the original order. */
module MessageFilter {
  import opened Wrappers

  /** Message `i` survives: it has no key, or no later message has the same key. */
  ghost predicate KeptAt<M, K>(msgs: seq<M>, key: M -> Option<K>, i: nat)
    requires i < |msgs|
  {
    key(msgs[i]).None? || forall j :: i < j < |msgs| ==> key(msgs[j]) != key(msgs[i])
  }

  /** The surviving messages in their original order. */
  ghost function LastPerKey<M, K>(msgs: seq<M>, key: M -> Option<K>): (out: seq<M>)
    ensures |out| <= |msgs|
    decreases |msgs|
  {
    if msgs == [] then []
    else (if KeptAt(msgs, key, 0) then [msgs[0]] else []) + LastPerKey(msgs[1..], key)
  }

  /** The keys of the messages that have one. */
  ghost function KeysOf<M, K>(msgs: seq<M>, key: M -> Option<K>): set<K> {
    set i | 0 <= i < |msgs| && key(msgs[i]).Some? :: key(msgs[i]).value
  }

  /** `s` back to front. */
  function Reversed<T>(s: seq<T>): (r: seq<T>)
    ensures |r| == |s|
    ensures forall i :: 0 <= i < |s| ==> r[i] == s[|s| - 1 - i]
    decreases |s|
  {
    if s == [] then [] else Reversed(s[1..]) + [s[0]]
  }

  lemma ReversedTwice<T>(s: seq<T>)
    ensures Reversed(Reversed(s)) == s
  {
  }

  /** A suffix's surviving first message is decided by the keys the rest of it holds. */
  lemma KeptAtSuffix<M, K>(msgs: seq<M>, key: M -> Option<K>, i: nat)
    requires i < |msgs|
    ensures KeptAt(msgs[i..], key, 0) <==> key(msgs[i]).None? || key(msgs[i]).value !in KeysOf(msgs[i + 1..], key)
  {
    var tail := msgs[i + 1..];
    if key(msgs[i]).Some? && key(msgs[i]).value in KeysOf(tail, key) {
      var j :| 0 <= j < |tail| && key(tail[j]).Some? && key(tail[j]).value == key(msgs[i]).value;
      assert msgs[i..][j + 1] == tail[j];
    }
    if key(msgs[i]).Some? && !KeptAt(msgs[i..], key, 0) {
      var j :| 0 < j < |msgs[i..]| && key(msgs[i..][j]) == key(msgs[i]);
      assert tail[j - 1] == msgs[i..][j];
    }
  }

  lemma KeysOfCons<M, K>(msgs: seq<M>, key: M -> Option<K>, i: nat)
    requires i < |msgs|
    ensures KeysOf(msgs[i..], key) == KeysOf(msgs[i + 1..], key) + (if key(msgs[i]).Some? then {key(msgs[i]).value} else {})
  {
    var s, t := msgs[i..], msgs[i + 1..];
    forall k | k in KeysOf(s, key)
      ensures k in KeysOf(t, key) || (key(msgs[i]).Some? && k == key(msgs[i]).value)
    {
      var j :| 0 <= j < |s| && key(s[j]).Some? && key(s[j]).value == k;
      if j > 0 {
        assert t[j - 1] == s[j];
      }
    }
    forall k | k in KeysOf(t, key)
      ensures k in KeysOf(s, key)
    {
      var j :| 0 <= j < |t| && key(t[j]).Some? && key(t[j]).value == k;
      assert s[j + 1] == t[j];
    }
  }

  /** `keep_last_per_key`: walks the messages from the back, keeping a message when it has
      no key or its key was not seen yet, then restores the order. */
  method KeepLastPerKey<M, K(==)>(messages: seq<M>, getKey: M -> Option<K>) returns (out: seq<M>)
    ensures out == LastPerKey(messages, getKey)
  {
    var seen: set<K> := {};
    out := [];
    var i := |messages|;
    while i > 0
      invariant 0 <= i <= |messages|
      invariant seen == KeysOf(messages[i..], getKey)
      invariant out == Reversed(LastPerKey(messages[i..], getKey))
    {
      i := i - 1;
      var msg := messages[i];
      KeptAtSuffix(messages, getKey, i);
      KeysOfCons(messages, getKey, i);
      assert messages[i..][1..] == messages[i + 1..];
      match getKey(msg) {
        case Some(key) =>
          if key !in seen {
            seen := seen + {key};
            out := out + [msg];
          }
        case None =>
          out := out + [msg];
      }
    }
    assert messages[0..] == messages;
    ReversedTwice(LastPerKey(messages, getKey));
    out := Reversed(out);
  }

  /** `keep_last_per_variant`: the selected messages keyed by their variant, the others
      without a key. */
  function VariantKey<M, V>(selector: M -> bool, variant: M -> V): M -> Option<V> {
    m => if selector(m) then Some(variant(m)) else None
  }

  method KeepLastPerVariant<M, V(==)>(messages: seq<M>, selector: M -> bool, variant: M -> V) returns (out: seq<M>)
    ensures out == LastPerKey(messages, VariantKey(selector, variant))
  {
    out := KeepLastPerKey(messages, VariantKey(selector, variant));
  }

  /** No two messages with a key share it. */
  ghost predicate KeysDistinct<M, K>(msgs: seq<M>, key: M -> Option<K>) {
    forall i, j :: 0 <= i < j < |msgs| && key(msgs[i]).Some? ==> key(msgs[i]) != key(msgs[j])
  }

  /** No two survivors share a key. */
  lemma {:induction false} LastPerKeyKeysDistinct<M, K>(msgs: seq<M>, key: M -> Option<K>)
    ensures KeysDistinct(LastPerKey(msgs, key), key)
    decreases |msgs|
  {
    if msgs != [] {
      var tail := msgs[1..];
      LastPerKeyKeysDistinct(tail, key);
      var rest := LastPerKey(tail, key);
      var out := LastPerKey(msgs, key);
      if KeptAt(msgs, key, 0) {
        assert out == [msgs[0]] + rest;
        LastPerKeyFromTail(tail, key);
        forall i, j | 0 <= i < j < |out| && key(out[i]).Some?
          ensures key(out[i]) != key(out[j])
        {
          assert out[j] == rest[j - 1];
          if i == 0 {
            assert rest[j - 1] in tail;
            var m :| 0 <= m < |tail| && tail[m] == rest[j - 1];
            assert msgs[m + 1] == tail[m];
            assert key(msgs[m + 1]) != key(msgs[0]);
          } else {
            assert out[i] == rest[i - 1];
            assert key(rest[i - 1]) != key(rest[j - 1]);
          }
        }
      } else {
        assert out == rest;
      }
    }
  }

  /** Every survivor is one of the messages. */
  lemma {:induction false} LastPerKeyFromTail<M, K>(msgs: seq<M>, key: M -> Option<K>)
    ensures forall m :: m in LastPerKey(msgs, key) ==> m in msgs
    decreases |msgs|
  {
    if msgs != [] {
      LastPerKeyFromTail(msgs[1..], key);
    }
  }

  /** Every key among the messages is the key of a survivor, and every message without a
      key survives. */
  lemma {:induction false} LastPerKeyCoversKeys<M, K>(msgs: seq<M>, key: M -> Option<K>)
    ensures KeysOf(LastPerKey(msgs, key), key) == KeysOf(msgs, key)
    ensures forall m :: m in msgs && key(m).None? ==> m in LastPerKey(msgs, key)
    decreases |msgs|
  {
    if msgs != [] {
      var tail := msgs[1..];
      LastPerKeyCoversKeys(tail, key);
      KeysOfCons(msgs, key, 0);
      assert msgs[0..] == msgs && msgs[1..] == tail;
      var out := LastPerKey(msgs, key);
      var head := if KeptAt(msgs, key, 0) then [msgs[0]] else [];
      assert out == head + LastPerKey(tail, key);
      KeysOfAppend(head, LastPerKey(tail, key), key);
      forall m | m in msgs && key(m).None?
        ensures m in out
      {
        if m != msgs[0] {
          var j :| 0 <= j < |msgs| && msgs[j] == m;
          assert tail[j - 1] == m;
          assert m in LastPerKey(tail, key);
        }
      }
      if !KeptAt(msgs, key, 0) {
        var j :| 0 < j < |msgs| && key(msgs[j]) == key(msgs[0]);
        assert tail[j - 1] == msgs[j];
        assert key(msgs[0]).value in KeysOf(tail, key);
      }
    }
  }

  lemma KeysOfAppend<M, K>(a: seq<M>, b: seq<M>, key: M -> Option<K>)
    ensures KeysOf(a + b, key) == KeysOf(a, key) + KeysOf(b, key)
  {
    var ab := a + b;
    forall k | k in KeysOf(ab, key)
      ensures k in KeysOf(a, key) + KeysOf(b, key)
    {
      var j :| 0 <= j < |ab| && key(ab[j]).Some? && key(ab[j]).value == k;
      if j >= |a| {
        assert b[j - |a|] == ab[j];
      } else {
        assert a[j] == ab[j];
      }
    }
    forall k | k in KeysOf(a, key)
      ensures k in KeysOf(ab, key)
    {
      var j :| 0 <= j < |a| && key(a[j]).Some? && key(a[j]).value == k;
      assert ab[j] == a[j];
    }
    forall k | k in KeysOf(b, key)
      ensures k in KeysOf(ab, key)
    {
      var j :| 0 <= j < |b| && key(b[j]).Some? && key(b[j]).value == k;
      assert ab[|a| + j] == b[j];
    }
  }

  /** Messages whose keys are already distinct all survive. */
  lemma {:induction false} DistinctKeysAllKept<M, K>(msgs: seq<M>, key: M -> Option<K>)
    requires KeysDistinct(msgs, key)
    ensures LastPerKey(msgs, key) == msgs
    decreases |msgs|
  {
    if msgs != [] {
      var tail := msgs[1..];
      forall i, j | 0 <= i < j < |tail| && key(tail[i]).Some?
        ensures key(tail[i]) != key(tail[j])
      {
        assert tail[i] == msgs[i + 1] && tail[j] == msgs[j + 1];
      }
      DistinctKeysAllKept(tail, key);
      forall j | 0 < j < |msgs| && key(msgs[0]).Some?
        ensures key(msgs[j]) != key(msgs[0])
      {
      }
      assert KeptAt(msgs, key, 0);
      assert msgs == [msgs[0]] + tail;
    }
  }

  /** `sub` is `s` with some elements left out, the rest in their order. */
  ghost predicate IsSubsequence<T>(sub: seq<T>, s: seq<T>)
    decreases |s|
  {
    if sub == [] then true
    else if s == [] then false
    else (sub[0] == s[0] && IsSubsequence(sub[1..], s[1..])) || IsSubsequence(sub, s[1..])
  }

  lemma {:induction false} EmptyIsSubsequence<T>(s: seq<T>)
    ensures IsSubsequence([], s)
  {
  }

  /** The survivors keep the messages' order. */
  lemma {:induction false} LastPerKeyIsSubsequence<M, K>(msgs: seq<M>, key: M -> Option<K>)
    ensures IsSubsequence(LastPerKey(msgs, key), msgs)
    decreases |msgs|
  {
    if msgs != [] {
      var out := LastPerKey(msgs, key);
      var rest := LastPerKey(msgs[1..], key);
      LastPerKeyIsSubsequence(msgs[1..], key);
      if KeptAt(msgs, key, 0) {
        assert out == [msgs[0]] + rest;
        assert out[1..] == rest;
      } else {
        assert out == rest;
        if rest == [] {
          EmptyIsSubsequence(msgs);
        }
      }
    }
  }

  /** Filtering twice is filtering once. */
  lemma LastPerKeyIdempotent<M, K>(msgs: seq<M>, key: M -> Option<K>)
    ensures LastPerKey(LastPerKey(msgs, key), key) == LastPerKey(msgs, key)
  {
    LastPerKeyKeysDistinct(msgs, key);
    DistinctKeysAllKept(LastPerKey(msgs, key), key);
  }
}
