/**
 * The extended-state merge rule `updateState` (src/svelte-suspense-fsm.js:33-36):
 * shallow-copy the held extended state, then `Object.assign` each update
 * fragment onto the copy, from left to right.
 */
module ExtendedState {
  import opened Values

  /** The machine-wide extended state: property name to value. */
  type State = map<string, Value>

  /** One update fragment: the own enumerable properties of a plain object. */
  type Fragment = map<string, Value>

  /**
   * The specification of the merge: the left fold of map override
   * (`m + f` keeps the value of `f` on shared keys, as Object.assign does).
   * It recurses on the last fragment, which is how the loop below builds it.
   */
  function Merged(s: State, updates: seq<Fragment>): (r: State)
    ensures updates == [] ==> r == s
    ensures s.Keys <= r.Keys
    ensures forall j :: 0 <= j < |updates| ==> updates[j].Keys <= r.Keys
  {
    if updates == [] then s
    else Merged(s, updates[..|updates| - 1]) + updates[|updates| - 1]
  }

  /** True when `k` is set by at least one fragment of `updates`. */
  predicate Touched(k: string, updates: seq<Fragment>)
  {
    exists j :: 0 <= j < |updates| && k in updates[j]
  }

  /**
   * `updateState` as the source runs it: a fresh accumulator that starts as
   * a copy of `extendedState` and receives each fragment in turn. Maps are
   * values here, so the caller's extended state cannot be changed by it.
   */
  method UpdateState(extendedState: State, updates: seq<Fragment>) returns (r: State)
    ensures r == Merged(extendedState, updates)
  {
    var acc := extendedState;
    var i := 0;
    while i < |updates|
      invariant 0 <= i <= |updates|
      invariant acc == Merged(extendedState, updates[..i])
    {
      assert updates[..i + 1][..i] == updates[..i];
      acc := acc + updates[i];
      i := i + 1;
    }
    assert updates[..i] == updates;
    r := acc;
  }

  /** The fold read from the left: the first fragment is applied first, as `reduce` does. */
  lemma {:induction false} MergedFirstFragmentFirst(s: State, f: Fragment, rest: seq<Fragment>)
    ensures Merged(s, [f] + rest) == Merged(s + f, rest)
  {
    if rest == [] {
      assert [f] + rest == [f];
      assert [f][..0] == [];
    } else {
      var n := |rest|;
      assert ([f] + rest)[..n] == [f] + rest[..n - 1];
      MergedFirstFragmentFirst(s, f, rest[..n - 1]);
    }
  }

  /** Merging two update lists one after the other is merging their concatenation. */
  lemma {:induction false} MergedConcat(s: State, us: seq<Fragment>, vs: seq<Fragment>)
    ensures Merged(s, us + vs) == Merged(Merged(s, us), vs)
  {
    if vs == [] {
      assert us + vs == us;
    } else {
      var n := |vs|;
      assert (us + vs)[..|us + vs| - 1] == us + vs[..n - 1];
      MergedConcat(s, us, vs[..n - 1]);
    }
  }

  /** An empty update list gives back the extended state unchanged. */
  lemma MergedNoUpdates(s: State)
    ensures Merged(s, []) == s
  {
  }

  /** The keys of the result are the prior keys plus every key some fragment sets. */
  lemma {:induction false} MergedKeys(s: State, updates: seq<Fragment>)
    ensures forall k :: k in Merged(s, updates) <==> k in s || Touched(k, updates)
  {
    if updates != [] {
      var n := |updates|;
      MergedKeys(s, updates[..n - 1]);
      forall k | Touched(k, updates)
        ensures k in Merged(s, updates)
      {
        var j :| 0 <= j < n && k in updates[j];
        if j < n - 1 {
          assert k in updates[..n - 1][j];
        }
      }
      forall k | k in Merged(s, updates) && k !in s
        ensures Touched(k, updates)
      {
        if k !in updates[n - 1] {
          var j :| 0 <= j < n - 1 && k in updates[..n - 1][j];
          assert k in updates[j];
        }
      }
    }
  }

  /** A key that no fragment sets keeps its prior value, or stays absent. */
  lemma {:induction false} MergedKeepsUntouched(s: State, updates: seq<Fragment>, k: string)
    requires !Touched(k, updates)
    ensures k in Merged(s, updates) <==> k in s
    ensures k in s ==> Merged(s, updates)[k] == s[k]
  {
    if updates != [] {
      var n := |updates|;
      var prefix := updates[..n - 1];
      assert k !in updates[n - 1];
      forall j | 0 <= j < |prefix|
        ensures k !in prefix[j]
      {
        assert prefix[j] == updates[j];
      }
      MergedKeepsUntouched(s, prefix, k);
    }
  }

  /**
   * The last fragment that sets `k` decides its value, overriding earlier
   * fragments and the prior state. The value is taken whole: a nested
   * object in the fragment replaces the old one and is not merged into it.
   */
  lemma {:induction false} MergedLastWriterWins(s: State, updates: seq<Fragment>, j: nat, k: string)
    requires j < |updates| && k in updates[j]
    requires forall i :: j < i < |updates| ==> k !in updates[i]
    ensures k in Merged(s, updates)
    ensures Merged(s, updates)[k] == updates[j][k]
  {
    var n := |updates|;
    if j < n - 1 {
      var prefix := updates[..n - 1];
      forall i | j < i < |prefix|
        ensures k !in prefix[i]
      {
        assert prefix[i] == updates[i];
      }
      MergedLastWriterWins(s, prefix, j, k);
    }
  }

  /**
   * The example of the comment above `updateState`:
   * {a, b: {c, d}} merged with [{b: {e}}] gives {a, b: {e}}.
   */
  lemma ShallowMergeExample(a: Value, c: Value, d: Value, e: Value)
    ensures Merged(map["a" := a, "b" := Obj(map["c" := c, "d" := d])],
                   [map["b" := Obj(map["e" := e])]])
         == map["a" := a, "b" := Obj(map["e" := e])]
  {
    var updates := [map["b" := Obj(map["e" := e])]];
    assert updates[..0] == [];
  }
}
