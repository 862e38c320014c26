/** A stream that ignores a message whose identity it stored less than a window ago. */
module Stream {

  /** A copy arriving at `t` is ignored: an earlier one is still remembered. */
  predicate Remembered(stored: seq<int>, t: int, window: nat) {
    exists i :: 0 <= i < |stored| && t < stored[i] + window
  }

  /** Storage times of one message, given the arrival times of its copies as processed. */
  function Stored(arrivals: seq<int>, window: nat): seq<int> {
    if arrivals == [] then []
    else
      var last := |arrivals| - 1;
      var before := Stored(arrivals[..last], window);
      if Remembered(before, arrivals[last], window) then before else before + [arrivals[last]]
  }

  /** A message is stored exactly once if and only if it arrives at all and each later copy
      arrives within the window of the first one. */
  lemma {:induction false} StoredOnce(arrivals: seq<int>, window: nat)
    requires window > 0
    ensures |Stored(arrivals, window)| == 1
            <==> arrivals != [] && forall i :: 0 <= i < |arrivals| ==> arrivals[i] < arrivals[0] + window
    ensures arrivals != [] ==> Stored(arrivals, window) != [] && Stored(arrivals, window)[0] == arrivals[0]
  {
    if arrivals != [] {
      var last := |arrivals| - 1;
      var init := arrivals[..last];
      StoredOnce(init, window);
      var before := Stored(init, window);
      assert forall i :: 0 <= i < last ==> init[i] == arrivals[i];
      if last == 0 {
        assert before == [];
      } else {
        assert before[0] == arrivals[0];
        if |before| == 1 {
          assert Remembered(before, arrivals[last], window) <==> arrivals[last] < before[0] + window;
          if arrivals[last] < before[0] + window {
            assert forall i :: 0 <= i < |arrivals| ==> i < last || arrivals[i] == arrivals[last];
          }
        } else {
          var i :| 0 <= i < |init| && init[i] >= init[0] + window;
          assert arrivals[i] >= arrivals[0] + window;
        }
      }
    }
  }

  predicate AllWithin(times: seq<int>, lo: int, hi: int) {
    forall i :: 0 <= i < |times| ==> lo <= times[i] <= hi
  }

  /** Copies that all arrive inside a span shorter than the window are stored once, in
      whatever order the stream takes them. */
  lemma ShortSpanStoresOnce(arrivals: seq<int>, window: nat, lo: int, hi: int)
    requires AllWithin(arrivals, lo, hi) && hi - lo < window
    ensures |Stored(arrivals, window)| == if arrivals == [] then 0 else 1
  {
    if arrivals != [] {
      assert lo <= arrivals[0] <= hi;
      StoredOnce(arrivals, window);
    }
  }
}
