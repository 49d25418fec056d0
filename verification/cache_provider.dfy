/**
 * The key-value cache the services share, as an abstract map from a
 * repository's git URL to the cached value. Expiry is not modelled.
 */
module CacheProvider {
  import opened Wrappers

  /** Stores the pairs one after the other, so a later pair for a key wins. */
  function SetAll<V>(m: map<string, V>, items: seq<(string, V)>): map<string, V>
    decreases |items|
  {
    if |items| == 0 then m else SetAll(m[items[0].0 := items[0].1], items[1..])
  }

  /** The keys after a batch store are the old keys and the batch's keys. */
  lemma {:induction false} SetAllKeys<V>(m: map<string, V>, items: seq<(string, V)>)
    ensures SetAll(m, items).Keys == m.Keys + set i | 0 <= i < |items| :: items[i].0
    decreases |items|
  {
    if |items| > 0 {
      SetAllKeys(m[items[0].0 := items[0].1], items[1..]);
      var rest := set i | 0 <= i < |items[1..]| :: items[1..][i].0;
      var all := set i | 0 <= i < |items| :: items[i].0;
      assert all == {items[0].0} + rest by {
        forall k | k in all ensures k in {items[0].0} + rest {
          var i :| 0 <= i < |items| && items[i].0 == k;
          if i > 0 { assert items[1..][i - 1].0 == k; }
        }
        forall k | k in rest ensures k in all {
          var i :| 0 <= i < |items[1..]| && items[1..][i].0 == k;
          assert items[i + 1].0 == k;
        }
      }
    }
  }

  /** A key whose last pair in the batch is items[i] holds that pair's value. */
  lemma {:induction false} SetAllLastWins<V>(m: map<string, V>, items: seq<(string, V)>, i: nat)
    requires i < |items|
    requires forall j :: i < j < |items| ==> items[j].0 != items[i].0
    ensures items[i].0 in SetAll(m, items)
    ensures SetAll(m, items)[items[i].0] == items[i].1
    decreases |items|
  {
    var m' := m[items[0].0 := items[0].1];
    if i == 0 {
      SetAllUntouched(m', items[1..], items[0].0);
    } else {
      SetAllLastWins(m', items[1..], i - 1);
    }
  }

  /** A key the batch does not mention keeps its old entry, or its absence. */
  lemma {:induction false} SetAllUntouched<V>(m: map<string, V>, items: seq<(string, V)>, k: string)
    requires forall j :: 0 <= j < |items| ==> items[j].0 != k
    ensures k in SetAll(m, items) <==> k in m
    ensures k in m ==> SetAll(m, items)[k] == m[k]
    decreases |items|
  {
    if |items| > 0 {
      SetAllUntouched(m[items[0].0 := items[0].1], items[1..], k);
    }
  }

  /** A cache whose entries the services read and write in place. */
  class Cache<V> {
    var entries: map<string, V>

    constructor ()
      ensures entries == map[]
    {
      entries := map[];
    }

    /** Returns the entry for key, if any, and removes it. */
    method Take(key: string) returns (v: Option<V>)
      modifies this
      ensures v == if key in old(entries) then Some(old(entries)[key]) else None
      ensures entries == old(entries) - {key}
    {
      v := if key in entries then Some(entries[key]) else None;
      entries := entries - {key};
    }

    /** Stores value under key, replacing any entry. */
    method Set(key: string, value: V)
      modifies this
      ensures entries == old(entries)[key := value]
    {
      entries := entries[key := value];
    }

    /** Stores every pair of the batch, in order. */
    method SetMany(items: seq<(string, V)>)
      modifies this
      ensures entries == SetAll(old(entries), items)
    {
      var i := 0;
      while i < |items|
        invariant 0 <= i <= |items|
        invariant SetAll(entries, items[i..]) == SetAll(old(entries), items)
      {
        assert items[i..][1..] == items[i + 1..];
        entries := entries[items[i].0 := items[i].1];
        i := i + 1;
      }
    }
  }
}
