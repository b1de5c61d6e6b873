/**
 * A map filled by inserting key/value pairs in order, so that a later pair
 * replaces an earlier one with the same key.
 */
module KeyedMap {

  /** No pair after position `i` has the key of pair `i`. */
  predicate IsLastOccurrence<K(==), V>(entries: seq<(K, V)>, i: nat)
    requires i < |entries|
  {
    forall j :: i < j < |entries| ==> entries[j].0 != entries[i].0
  }

  /** The map after inserting every pair from first to last. */
  function InsertAll<K(==), V>(entries: seq<(K, V)>): (m: map<K, V>)
    ensures forall i :: 0 <= i < |entries| ==> entries[i].0 in m
    ensures |m| <= |entries|
  {
    if entries == [] then map[]
    else
      var init := entries[..|entries| - 1];
      var last := entries[|entries| - 1];
      assert forall i :: 0 <= i < |init| ==> init[i] == entries[i];
      InsertAll(init)[last.0 := last.1]
  }

  /** Inserting one more pair updates the map at that key only. */
  lemma InsertAllAppend<K, V>(entries: seq<(K, V)>, k: K, v: V)
    ensures InsertAll(entries + [(k, v)]) == InsertAll(entries)[k := v]
  {
    assert (entries + [(k, v)])[..|entries|] == entries;
  }

  /** The keys of the map are exactly the keys of the pairs. */
  lemma {:induction false} InsertAllKeys<K, V>(entries: seq<(K, V)>, k: K)
    ensures k in InsertAll(entries) <==> exists i :: 0 <= i < |entries| && entries[i].0 == k
  {
    if entries != [] {
      var init := entries[..|entries| - 1];
      InsertAllKeys(init, k);
      if exists i :: 0 <= i < |entries| && entries[i].0 == k {
        var i :| 0 <= i < |entries| && entries[i].0 == k;
        if i < |init| {
          assert init[i] == entries[i];
        }
      }
      if exists i :: 0 <= i < |init| && init[i].0 == k {
        var i :| 0 <= i < |init| && init[i].0 == k;
        assert entries[i] == init[i];
      }
    }
  }

  /** The last pair with a given key decides that key's value. */
  lemma {:induction false} InsertAllLastWins<K, V>(entries: seq<(K, V)>, i: nat)
    requires i < |entries| && IsLastOccurrence(entries, i)
    ensures entries[i].0 in InsertAll(entries) && InsertAll(entries)[entries[i].0] == entries[i].1
  {
    var init := entries[..|entries| - 1];
    if i < |init| {
      assert IsLastOccurrence(init, i) by {
        forall j | i < j < |init| ensures init[j].0 != init[i].0 {
          assert init[j] == entries[j];
        }
      }
      InsertAllLastWins(init, i);
      assert entries[|entries| - 1].0 != entries[i].0;
    }
  }

  /** Every value in the map is the value of the last pair with its key. */
  lemma InsertAllValue<K, V>(entries: seq<(K, V)>, k: K)
    requires k in InsertAll(entries)
    ensures exists i ::
      (0 <= i < |entries| && IsLastOccurrence(entries, i) && entries[i].0 == k && InsertAll(entries)[k] == entries[i].1)
  {
    InsertAllKeys(entries, k);
    var i :| 0 <= i < |entries| && entries[i].0 == k;
    while !IsLastOccurrence(entries, i)
      invariant 0 <= i < |entries| && entries[i].0 == k
      decreases |entries| - i
    {
      var j :| i < j < |entries| && entries[j].0 == entries[i].0;
      i := j;
    }
    InsertAllLastWins(entries, i);
  }
}
