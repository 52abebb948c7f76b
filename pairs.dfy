/**
 * A dict filled by `d[key] = value` assignments in a loop: the key set is every
 * assigned key, and each key holds the value of its last assignment.
 */
module Pairs {

  /** The dict after assigning the pairs in order, starting from `{}`. */
  function Assigned<K, V>(ps: seq<(K, V)>): map<K, V>
  {
    if ps == [] then map[] else Assigned(ps[..|ps| - 1])[ps[|ps| - 1].0 := ps[|ps| - 1].1]
  }

  /** One more assignment after a prefix. */
  lemma AssignedSnoc<K, V>(ps: seq<(K, V)>, i: nat)
    requires i < |ps|
    ensures Assigned(ps[..i + 1]) == Assigned(ps[..i])[ps[i].0 := ps[i].1]
  {
    assert ps[..i + 1][..i] == ps[..i];
  }

  /** A key is present exactly when some assignment used it. */
  lemma {:induction false} AssignedKeys<K, V>(ps: seq<(K, V)>, k: K)
    ensures k in Assigned(ps) <==> exists i :: 0 <= i < |ps| && ps[i].0 == k
  {
    if ps != [] {
      var init := ps[..|ps| - 1];
      AssignedKeys(init, k);
      if k in Assigned(init) {
        var i :| 0 <= i < |init| && init[i].0 == k;
        assert ps[i].0 == k;
      }
      if exists i :: 0 <= i < |ps| && ps[i].0 == k {
        var i :| 0 <= i < |ps| && ps[i].0 == k;
        if i < |ps| - 1 {
          assert init[i].0 == k;
        }
      }
    }
  }

  /** The value held for a key is that of the last assignment to it. */
  lemma {:induction false} AssignedLast<K, V>(ps: seq<(K, V)>, i: nat)
    requires i < |ps|
    requires forall j :: i < j < |ps| ==> ps[j].0 != ps[i].0
    ensures ps[i].0 in Assigned(ps) && Assigned(ps)[ps[i].0] == ps[i].1
  {
    if i < |ps| - 1 {
      var init := ps[..|ps| - 1];
      AssignedLast(init, i);
    }
  }

  /** Assigning the pairs of two runs one after the other. */
  lemma {:induction false} AssignedAppend<K, V>(ps: seq<(K, V)>, qs: seq<(K, V)>)
    ensures Assigned(ps + qs) == Assigned(ps) + Assigned(qs)
  {
    if qs != [] {
      var init := qs[..|qs| - 1];
      AssignedAppend(ps, init);
      assert (ps + qs)[..|ps + qs| - 1] == ps + init;
    } else {
      assert ps + qs == ps;
    }
  }

  /** Assigning one more pair on top of a dict and a run. */
  lemma AssignedStep<K, V>(m: map<K, V>, ps: seq<(K, V)>, p: (K, V))
    ensures m + Assigned(ps + [p]) == (m + Assigned(ps))[p.0 := p.1]
  {
    assert (ps + [p])[..|ps|] == ps;
  }
}
