/** `AsyncStorage`: a persistent map from string keys to string values. */
module Storage {
  import opened Maybe

  /** The value stored under each key after `pairs` are written in order over `items`. */
  function SetAll(items: map<string, string>, pairs: seq<(string, string)>): (r: map<string, string>)
    ensures r.Keys == items.Keys + set i | 0 <= i < |pairs| :: pairs[i].0
    decreases |pairs|
  {
    if |pairs| == 0 then items
    else SetAll(items[pairs[0].0 := pairs[0].1], pairs[1..])
  }

  /** A later pair for a key wins over an earlier one and over the old value. */
  lemma {:induction false} SetAllLastWins(items: map<string, string>, pairs: seq<(string, string)>, i: nat)
    requires i < |pairs|
    requires forall k :: i < k < |pairs| ==> pairs[k].0 != pairs[i].0
    ensures SetAll(items, pairs)[pairs[i].0] == pairs[i].1
    decreases |pairs|
  {
    if i == 0 {
      SetAllUntouched(items[pairs[0].0 := pairs[0].1], pairs[1..], pairs[0].0);
    } else {
      SetAllLastWins(items[pairs[0].0 := pairs[0].1], pairs[1..], i - 1);
    }
  }

  /** Keys not written keep their values. */
  lemma {:induction false} SetAllUntouched(items: map<string, string>, pairs: seq<(string, string)>, key: string)
    requires forall k :: 0 <= k < |pairs| ==> pairs[k].0 != key
    ensures key in items ==> key in SetAll(items, pairs) && SetAll(items, pairs)[key] == items[key]
    ensures key !in items ==> key !in SetAll(items, pairs)
    decreases |pairs|
  {
    if |pairs| > 0 {
      SetAllUntouched(items[pairs[0].0 := pairs[0].1], pairs[1..], key);
    }
  }

  /** The value under `key`, as `getItem` reports it. */
  function Lookup(items: map<string, string>, key: string): (r: Option<string>)
    ensures r.Some? <==> key in items
    ensures r.Some? ==> r.value == items[key]
  {
    if key in items then Some(items[key]) else None
  }

  class Store {
    var items: map<string, string>

    constructor(initial: map<string, string>)
      ensures items == initial
    {
      items := initial;
    }

    /** `getItem(key)`: the stored string, or `None` for `null`. */
    method GetItem(key: string) returns (r: Option<string>)
      ensures r == Lookup(items, key)
    {
      if key in items {
        r := Some(items[key]);
      } else {
        r := None;
      }
    }

    /** `setItem(key, value)`. */
    method SetItem(key: string, value: string)
      modifies this
      ensures items == old(items)[key := value]
    {
      items := items[key := value];
    }

    /** `multiSet(pairs)`: every pair written, in order. */
    method MultiSet(pairs: seq<(string, string)>)
      modifies this
      ensures items == SetAll(old(items), pairs)
    {
      var i := 0;
      while i < |pairs|
        invariant 0 <= i <= |pairs|
        invariant SetAll(items, pairs[i..]) == SetAll(old(items), pairs)
      {
        assert pairs[i..][1..] == pairs[i + 1..];
        items := items[pairs[i].0 := pairs[i].1];
        i := i + 1;
      }
    }
  }

  /** The value JavaScript treats as present: `if (json)` is false for `null` and for `""`. */
  function Truthy(v: Option<string>): (r: Option<string>)
    ensures r.Some? <==> v.Some? && |v.value| > 0
    ensures r.Some? ==> r == v
  {
    if v.Some? && |v.value| > 0 then v else None
  }
}
