/** Counting the entries of a sequence that lie in a set. */
module Counting {

  /** How many entries of `keys` lie in `w`, repeats included. */
  function CountIn<T>(keys: seq<T>, w: set<T>): (n: nat)
    ensures n <= |keys|
  {
    if keys == [] then 0
    else CountIn(keys[..|keys| - 1], w) + (if keys[|keys| - 1] in w then 1 else 0)
  }

  /** The entries of `keys` that lie in `w`, as a set. */
  function ElemsIn<T>(keys: seq<T>, w: set<T>): set<T>
  {
    if keys == [] then {}
    else ElemsIn(keys[..|keys| - 1], w) + (if keys[|keys| - 1] in w then {keys[|keys| - 1]} else {})
  }

  lemma {:induction false} ElemsInMembers<T>(keys: seq<T>, w: set<T>)
    ensures forall x :: x in ElemsIn(keys, w) <==> x in keys && x in w
  {
    if keys != [] {
      var n := |keys| - 1;
      ElemsInMembers(keys[..n], w);
      assert keys == keys[..n] + [keys[n]];
      forall x ensures x in keys <==> x in keys[..n] || x == keys[n] {
      }
    }
  }

  /** Over distinct keys, the count is the size of their intersection with `w`. */
  lemma {:induction false} CountInDistinct<T>(keys: seq<T>, w: set<T>)
    requires forall i, j :: 0 <= i < j < |keys| ==> keys[i] != keys[j]
    ensures CountIn(keys, w) == |ElemsIn(keys, w)|
  {
    if keys != [] {
      var n := |keys| - 1;
      var init, last := keys[..n], keys[n];
      assert forall i, j :: 0 <= i < j < |init| ==> init[i] != init[j] by {
        forall i, j | 0 <= i < j < |init| ensures init[i] != init[j] {
          assert init[i] == keys[i] && init[j] == keys[j];
        }
      }
      CountInDistinct(init, w);
      assert last !in ElemsIn(init, w) by {
        ElemsInMembers(init, w);
        forall i | 0 <= i < n ensures init[i] != last {
          assert init[i] == keys[i];
        }
      }
    }
  }
}
