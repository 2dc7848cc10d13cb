/** Building a map from a sequence by writing each element under its key,
    in order, so that the last element with a given key wins. This is what
    a Go loop `for _, x := range xs { m[key(x)] = x }` computes. */
module Collections {

  /** The map after writing every element of `s`, first to last. */
  function LastByKey<V>(s: seq<V>, key: V -> int): map<int, V>
  {
    if s == [] then map[] else LastByKey(s[..|s| - 1], key)[key(s[|s| - 1]) := s[|s| - 1]]
  }

  /** Writing one more element over the map of the elements before it. */
  lemma LastByKeySnoc<V>(s: seq<V>, x: V, key: V -> int)
    ensures LastByKey(s + [x], key) == LastByKey(s, key)[key(x) := x]
  {
    assert (s + [x])[..|s|] == s;
  }

  /** The keys of the elements of `s`. */
  function KeysOf<V>(s: seq<V>, key: V -> int): set<int>
  {
    set i | 0 <= i < |s| :: key(s[i])
  }

  /** The keys of a non-empty sequence: those before its last element,
      and the last element's. */
  lemma KeysOfSnoc<V>(s: seq<V>, key: V -> int)
    requires s != []
    ensures KeysOf(s, key) == KeysOf(s[..|s| - 1], key) + {key(s[|s| - 1])}
  {
    var init := s[..|s| - 1];
    forall k | k in KeysOf(s, key) ensures k in KeysOf(init, key) + {key(s[|s| - 1])} {
      var i :| 0 <= i < |s| && key(s[i]) == k;
      if i < |s| - 1 { assert init[i] == s[i]; }
    }
    forall k | k in KeysOf(init, key) ensures k in KeysOf(s, key) {
      var i :| 0 <= i < |init| && key(init[i]) == k;
      assert s[i] == init[i];
    }
  }

  /** The map has exactly the keys of the elements, and each value is an
      element stored under its own key. */
  lemma {:induction false} LastByKeyDomain<V>(s: seq<V>, key: V -> int)
    ensures LastByKey(s, key).Keys == KeysOf(s, key)
    ensures forall k :: k in LastByKey(s, key) ==> key(LastByKey(s, key)[k]) == k
    ensures forall k :: k in LastByKey(s, key) ==> LastByKey(s, key)[k] in s
  {
    if s != [] {
      var init := s[..|s| - 1];
      LastByKeyDomain(init, key);
      KeysOfSnoc(s, key);
      forall k | k in LastByKey(s, key) ensures LastByKey(s, key)[k] in s {
        if k != key(s[|s| - 1]) {
          var v := LastByKey(init, key)[k];
          assert v in init;
          var j :| 0 <= j < |init| && init[j] == v;
          assert s[j] == v;
        }
      }
    }
  }

  /** Last write wins: an element that no later element shares a key with
      is the value stored under its key. */
  lemma {:induction false} LastByKeyLastWins<V>(s: seq<V>, key: V -> int, i: int)
    requires 0 <= i < |s|
    requires forall j :: i < j < |s| ==> key(s[j]) != key(s[i])
    ensures key(s[i]) in LastByKey(s, key) && LastByKey(s, key)[key(s[i])] == s[i]
  {
    if i < |s| - 1 {
      var init := s[..|s| - 1];
      assert init[i] == s[i];
      forall j | i < j < |init| ensures key(init[j]) != key(init[i]) {
        assert init[j] == s[j];
      }
      LastByKeyLastWins(init, key, i);
    }
  }
}
