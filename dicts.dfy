/**
 * A dictionary filled by assignments `d[k] = v` made in order on an empty
 * dictionary, the way the loops and comprehensions of the system build their
 * results: a later assignment to a key replaces an earlier one.
 */
module Dicts {
  /** The keys of a sequence of assignments. */
  function Keys<K, V>(pairs: seq<(K, V)>): set<K>
  {
    set i | 0 <= i < |pairs| :: pairs[i].0
  }

  /**
   * The dictionary left by the assignments `d[k] = v` of `pairs`, in order, on an
   * empty dictionary.
   */
  function FromPairs<K, V>(pairs: seq<(K, V)>): (d: map<K, V>)
    ensures d.Keys == Keys(pairs)
  {
    if pairs == [] then map[]
    else
      var d := FromPairs(pairs[..|pairs| - 1]);
      assert forall i :: 0 <= i < |pairs| - 1 ==> pairs[..|pairs| - 1][i] == pairs[i];
      d[pairs[|pairs| - 1].0 := pairs[|pairs| - 1].1]
  }

  /** Each key holds the value of its last assignment: the later assignment wins. */
  lemma {:induction false} FromPairsLastWins<K, V>(pairs: seq<(K, V)>, i: nat)
    requires i < |pairs|
    requires forall j :: i < j < |pairs| ==> pairs[j].0 != pairs[i].0
    ensures FromPairs(pairs)[pairs[i].0] == pairs[i].1
    decreases |pairs|
  {
    if i < |pairs| - 1 {
      var init := pairs[..|pairs| - 1];
      assert forall j :: i < j < |init| ==> init[j] == pairs[j];
      FromPairsLastWins(init, i);
    }
  }

  /** Assigning `a` and then `b`: a key that `b` assigns keeps the value `b` gives it. */
  lemma {:induction false} FromPairsConcat<K, V>(a: seq<(K, V)>, b: seq<(K, V)>, k: K)
    requires k in FromPairs(b)
    ensures k in FromPairs(a + b) && FromPairs(a + b)[k] == FromPairs(b)[k]
    decreases |b|
  {
    var last := b[|b| - 1];
    var init := b[..|b| - 1];
    assert (a + b)[..|a + b| - 1] == a + init;
    assert (a + b)[|a + b| - 1] == last;
    if last.0 != k {
      FromPairsConcat(a, init, k);
    }
  }

  /** One more assignment on top of the ones already made. */
  lemma FromPairsSnoc<K, V>(pairs: seq<(K, V)>, k: K, v: V)
    ensures FromPairs(pairs + [(k, v)]) == FromPairs(pairs)[k := v]
  {
    assert (pairs + [(k, v)])[..|pairs|] == pairs;
  }

  /** A key absent from `b` is found in `a + b` exactly as in `a`. */
  lemma {:induction false} FromPairsBefore<K, V>(a: seq<(K, V)>, b: seq<(K, V)>, k: K)
    requires k !in FromPairs(b) && k in FromPairs(a)
    ensures k in FromPairs(a + b) && FromPairs(a + b)[k] == FromPairs(a)[k]
    decreases |b|
  {
    if b != [] {
      var init := b[..|b| - 1];
      assert (a + b)[..|a + b| - 1] == a + init;
      assert (a + b)[|a + b| - 1] == b[|b| - 1];
      assert b[|b| - 1] in b;
      assert forall x :: x in init ==> x in b;
      assert b[|b| - 1].0 in Keys(b);
      assert k !in Keys(init) by {
        forall i | 0 <= i < |init| ensures init[i].0 != k {
          assert init[i] == b[i];
        }
      }
      FromPairsBefore(a, init, k);
    } else {
      assert a + b == a;
    }
  }
}
