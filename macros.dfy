/** The two map-building macros of the client. `procedure_args!` and
    `procedure_object!` both start from an empty map and insert the written
    pairs one after another; they differ only in the Rust map type they build
    (`BTreeMap<&str, Value>` and `serde_json::Map<String, Value>`), which are
    both a finite map from string to JSON value here. The conversion of each
    value into a `JsonValue` is done by the caller. */
module Macros {

  import opened Json

  /** The map the macro evaluates to: every pair inserted in order, so a
      later occurrence of a key overwrites an earlier one. */
  function ArgsMap(pairs: seq<(string, JsonValue)>): (m: map<string, JsonValue>)
    ensures pairs == [] ==> m == map[]
    decreases |pairs|
  {
    if pairs == [] then map[]
    else ArgsMap(pairs[..|pairs| - 1])[pairs[|pairs| - 1].0 := pairs[|pairs| - 1].1]
  }

  /** The expansion of `procedure_args!`: `let mut map = BTreeMap::new();`
      then one `map.insert(key, value)` per pair. */
  method ProcedureArgs(pairs: seq<(string, JsonValue)>) returns (m: map<string, JsonValue>)
    ensures m == ArgsMap(pairs)
  {
    m := map[];
    for i := 0 to |pairs|
      invariant m == ArgsMap(pairs[..i])
    {
      assert pairs[..i + 1][..i] == pairs[..i];
      m := m[pairs[i].0 := pairs[i].1];
    }
    assert pairs[..|pairs|] == pairs;
  }

  /** The macro with one, two or four literal pairs. */
  lemma ArgsMapOfOne(k: string, v: JsonValue)
    ensures ArgsMap([(k, v)]) == map[k := v]
  {
    assert [(k, v)][..0] == [];
  }

  lemma ArgsMapOfTwo(k1: string, v1: JsonValue, k2: string, v2: JsonValue)
    ensures ArgsMap([(k1, v1), (k2, v2)]) == map[k1 := v1][k2 := v2]
  {
    assert [(k1, v1), (k2, v2)][..1] == [(k1, v1)];
    ArgsMapOfOne(k1, v1);
  }

  lemma ArgsMapOfFour(k1: string, v1: JsonValue, k2: string, v2: JsonValue,
                      k3: string, v3: JsonValue, k4: string, v4: JsonValue)
    ensures ArgsMap([(k1, v1), (k2, v2), (k3, v3), (k4, v4)]) ==
            map[k1 := v1][k2 := v2][k3 := v3][k4 := v4]
  {
    var pairs := [(k1, v1), (k2, v2), (k3, v3), (k4, v4)];
    assert pairs[..3][..2] == [(k1, v1), (k2, v2)];
    ArgsMapOfTwo(k1, v1, k2, v2);
  }

  /** The keys of the result are exactly the keys written. */
  lemma {:induction false} ArgsMapKeys(pairs: seq<(string, JsonValue)>)
    ensures ArgsMap(pairs).Keys == set i | 0 <= i < |pairs| :: pairs[i].0
    decreases |pairs|
  {
    if pairs != [] {
      var front := pairs[..|pairs| - 1];
      ArgsMapKeys(front);
      assert forall i :: 0 <= i < |front| ==> front[i] == pairs[i];
      var written := set i | 0 <= i < |pairs| :: pairs[i].0;
      var frontWritten := set i | 0 <= i < |front| :: front[i].0;
      assert written == frontWritten + {pairs[|pairs| - 1].0} by {
        forall k | k in written ensures k in frontWritten + {pairs[|pairs| - 1].0} {
          var i :| 0 <= i < |pairs| && pairs[i].0 == k;
          if i < |front| { assert front[i].0 == k; }
        }
      }
    }
  }

  /** The value stored under a key is that of its last occurrence. */
  lemma {:induction false} ArgsMapLastWins(pairs: seq<(string, JsonValue)>, i: nat)
    requires i < |pairs|
    requires forall j :: i < j < |pairs| ==> pairs[j].0 != pairs[i].0
    ensures pairs[i].0 in ArgsMap(pairs) && ArgsMap(pairs)[pairs[i].0] == pairs[i].1
    decreases |pairs|
  {
    if i < |pairs| - 1 {
      var front := pairs[..|pairs| - 1];
      assert front[i] == pairs[i];
      ArgsMapLastWins(front, i);
    }
  }

  /** With distinct keys the macro builds the map of the written pairs. */
  lemma ArgsMapDistinct(pairs: seq<(string, JsonValue)>)
    requires forall i, j :: 0 <= i < j < |pairs| ==> pairs[i].0 != pairs[j].0
    ensures forall i :: 0 <= i < |pairs| ==>
              pairs[i].0 in ArgsMap(pairs) && ArgsMap(pairs)[pairs[i].0] == pairs[i].1
    ensures |ArgsMap(pairs)| == |pairs|
  {
    forall i | 0 <= i < |pairs|
      ensures pairs[i].0 in ArgsMap(pairs) && ArgsMap(pairs)[pairs[i].0] == pairs[i].1
    {
      ArgsMapLastWins(pairs, i);
    }
    ArgsMapKeys(pairs);
    InjectiveImageSize(pairs, |pairs|);
  }

  /** The keys of distinct-keyed pairs number as many as the pairs. */
  lemma {:induction false} InjectiveImageSize(pairs: seq<(string, JsonValue)>, n: nat)
    requires n <= |pairs|
    requires forall i, j :: 0 <= i < j < |pairs| ==> pairs[i].0 != pairs[j].0
    ensures |set i | 0 <= i < n :: pairs[i].0| == n
    decreases n
  {
    if n > 0 {
      InjectiveImageSize(pairs, n - 1);
      var before := set i | 0 <= i < n - 1 :: pairs[i].0;
      var now := set i | 0 <= i < n :: pairs[i].0;
      assert now == before + {pairs[n - 1].0};
      assert pairs[n - 1].0 !in before;
    }
  }
}
