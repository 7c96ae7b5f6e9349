/** `arrayToObject(items, key)`: indexes a list by one of its items' string
    fields. The field read `item[key]` is the parameter `keyOf`; the record
    built is a map from that string to the item, and a later item with the
    same key replaces an earlier one. */
module ArrayToObject {
  /** `items[j]` is the last item whose key is `keyOf(items[j])`. */
  predicate IsLastWithKey<T>(items: seq<T>, keyOf: T -> string, j: nat)
    requires j < |items|
  {
    forall l :: j < l < |items| ==> keyOf(items[l]) != keyOf(items[j])
  }

  method ArrayToObject<T>(items: seq<T>, keyOf: T -> string) returns (result: map<string, T>)
    ensures result.Keys == set j | 0 <= j < |items| :: keyOf(items[j])
    ensures forall j :: 0 <= j < |items| && IsLastWithKey(items, keyOf, j) ==> result[keyOf(items[j])] == items[j]
    ensures forall k :: k in result ==> result[k] in items
  {
    result := map[];
    for i := 0 to |items|
      invariant result.Keys == set j | 0 <= j < i :: keyOf(items[j])
      invariant forall j :: 0 <= j < i && IsLastWithKey(items[..i], keyOf, j) ==> result[keyOf(items[j])] == items[j]
      invariant forall k :: k in result ==> result[k] in items
    {
      var item := items[i];
      result := result[keyOf(item) := item];
      forall j | 0 <= j < i + 1 && IsLastWithKey(items[..i + 1], keyOf, j)
        ensures result[keyOf(items[j])] == items[j]
      {
        if j < i {
          LastInLongerPrefix(items, keyOf, i, j);
        }
      }
    }
    assert items[..|items|] == items;
  }

  /** An item that is the last with its key among the first `i + 1` items
      is the last with it among the first `i`, and item `i` has another key. */
  lemma LastInLongerPrefix<T>(items: seq<T>, keyOf: T -> string, i: nat, j: nat)
    requires j < i < |items| && IsLastWithKey(items[..i + 1], keyOf, j)
    ensures IsLastWithKey(items[..i], keyOf, j) && keyOf(items[i]) != keyOf(items[j])
  {
    assert keyOf(items[..i + 1][i]) != keyOf(items[..i + 1][j]);
    forall l | j < l < i ensures keyOf(items[..i][l]) != keyOf(items[..i][j]) {
      assert items[..i][l] == items[..i + 1][l];
    }
  }

  /** Items with distinct keys are all kept, each under its own key. */
  lemma DistinctKeysAllKept<T>(items: seq<T>, keyOf: T -> string, result: map<string, T>)
    requires forall j, l :: 0 <= j < l < |items| ==> keyOf(items[j]) != keyOf(items[l])
    requires result.Keys == set j | 0 <= j < |items| :: keyOf(items[j])
    requires forall j :: 0 <= j < |items| && IsLastWithKey(items, keyOf, j) ==> result[keyOf(items[j])] == items[j]
    ensures |result| == |items|
    ensures forall j :: 0 <= j < |items| ==> result[keyOf(items[j])] == items[j]
  {
    DistinctKeysCount(items, keyOf);
  }

  lemma {:induction false} DistinctKeysCount<T>(items: seq<T>, keyOf: T -> string)
    requires forall j, l :: 0 <= j < l < |items| ==> keyOf(items[j]) != keyOf(items[l])
    ensures |set j | 0 <= j < |items| :: keyOf(items[j])| == |items|
  {
    if |items| > 0 {
      var n := |items| - 1;
      var init := items[..n];
      DistinctKeysCount(init, keyOf);
      var before := set j | 0 <= j < n :: keyOf(init[j]);
      assert (set j | 0 <= j < |items| :: keyOf(items[j])) == before + {keyOf(items[n])} by {
        forall j | 0 <= j < n ensures keyOf(init[j]) == keyOf(items[j]) {
        }
      }
      assert keyOf(items[n]) !in before;
    }
  }
}
