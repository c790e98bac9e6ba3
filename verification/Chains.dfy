/** A property carried from step to step. */
module Chains {
  /**
   If each step out of a good state (and the first in any case) leads to a good one exactly if
   the step is sound, then all states are good exactly if all steps are sound.
   */
  lemma {:induction false} AllGoodIff(good: nat -> bool, sound: nat -> bool, n: nat)
    requires forall k: nat | k < n && (k == 0 || good(k)) :: good(k + 1) <==> sound(k)
    ensures (forall k: nat | 0 < k <= n :: good(k)) <==> (forall k: nat | k < n :: sound(k))
  {
    if n > 0 {
      var last: nat := n - 1;
      AllGoodIff(good, sound, last);
      assert last == 0 || good(last) ==> (good(last + 1) <==> sound(last));
      if forall k: nat | 0 < k <= n :: good(k) {
        assert good(last + 1) && (last == 0 || good(last));
      } else if forall k: nat | k < n :: sound(k) {
        assert sound(last) && (last == 0 || good(last));
      }
    }
  }

  /**
   If both hold of the first state, and out of a good state the next is good exactly if it keeps,
   then all states are good exactly if all keep.
   */
  lemma {:induction false} AllKeepIff<S>(run: seq<S>, good: S -> bool, keeps: S -> bool)
    requires run != [] && good(run[0]) && keeps(run[0])
    requires forall k | 0 < k < |run| && good(run[k - 1]) :: good(run[k]) <==> keeps(run[k])
    ensures (forall k | 0 <= k < |run| :: keeps(run[k])) <==> (forall k | 0 <= k < |run| :: good(run[k]))
    decreases |run|
  {
    var last := |run| - 1;
    if last > 0 {
      var init := run[..last];
      AllKeepIff(init, good, keeps);
      assert forall k | 0 <= k < last :: init[k] == run[k];
      assert good(run[last - 1]) ==> (good(run[last]) <==> keeps(run[last]));
      assert init[last - 1] == run[last - 1];
    }
  }
}
