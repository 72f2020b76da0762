/** The plugin's cancel registry (plugin/wireserver.go `localCancelRegistry`). */
module CancelRegistry {
  import opened GoStrings

  type Key = seq<bv8>

  datatype CancelTarget = CancelTarget(backendSocket: string, key: Key)

  /** A key a client may be given: eight bytes, the first four not all zero. */
  predicate Usable(key: Key)
  {
    |key| == 8 && key[0] | key[1] | key[2] | key[3] != 0
  }

  lemma UsableExactly(key: Key)
    ensures Usable(key) <==> |key| == 8 && exists i :: 0 <= i < 4 && key[i] != 0
  {
    if |key| == 8 { AnyBit(key[0], key[1], key[2], key[3]); }
  }

  lemma AnyBit(a: bv8, b: bv8, c: bv8, d: bv8)
    ensures a | b | c | d == 0 <==> a == 0 && b == 0 && c == 0 && d == 0
  {
  }

  class Registry {
    var m: map<Key, CancelTarget>

    constructor ()
      ensures m == map[]
    {
      m := map[];
    }

    /** `draws` is what the random source gives, `lucky` the first of it that will do: a usable key not in use. */
    method Register(t: CancelTarget, draws: seq<Key>, ghost lucky: nat) returns (key: Key)
      requires forall i :: 0 <= i < |draws| ==> |draws[i]| == 8
      requires lucky < |draws| && Usable(draws[lucky]) && draws[lucky] !in m
      requires forall i :: 0 <= i < lucky ==> !Usable(draws[i]) || draws[i] in m
      modifies this
      ensures key == draws[lucky] && m == old(m)[key := t]
      ensures key !in old(m) && |key| == 8 && exists i :: 0 <= i < 4 && key[i] != 0
    {
      UsableExactly(draws[lucky]);
      var n := 0;
      while true
        invariant n <= lucky && m == old(m)
        decreases lucky - n
      {
        key := draws[n];
        if key[0] | key[1] | key[2] | key[3] == 0 {
          n := n + 1;
          continue;
        }
        if key !in m {
          m := m[key := t];
          return;
        }
        n := n + 1;
      }
    }

    method Unregister(key: Key)
      modifies this
      ensures m == old(m) - {key}
    {
      m := m - {key};
    }

    method Lookup(key: Key) returns (t: Option<CancelTarget>)
      ensures t == if key in m then Some(m[key]) else None
    {
      if key in m { return Some(m[key]); }
      return None;
    }
  }
}
