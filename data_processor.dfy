/** `FPSCounter` (src/utils/data_processor.py), with the clock reading passed in. */
module DataProcessor {
  import opened Wrappers

  /** A reported rate lies in (0, count] when at least one second has elapsed. */
  lemma {:induction false} RateBounds(count: nat, elapsed: real)
    requires count >= 1 && elapsed >= 1.0
    ensures 0.0 < count as real / elapsed <= count as real
  {
    var c := count as real;
    var rate := c / elapsed;
    assert rate * elapsed == c;
    assert c <= c * elapsed;
    assert rate * elapsed <= c * elapsed;
  }

  class FPSCounter {
    var lastTime: real
    var frameCount: nat
    ghost var pending: seq<real>   // the clock readings of the updates counted since the last report

    /** Every counted update is one since the last report, and none of them reached a full second. */
    ghost predicate Valid()
      reads this
    {
      frameCount == |pending| && forall t <- pending :: t - lastTime < 1.0
    }

    constructor (now: real)
      ensures Valid() && lastTime == now && frameCount == 0 && pending == []
    {
      lastTime := now;
      frameCount := 0;
      pending := [];
    }

    /**
     * `update` at clock reading `now`: counts the call; once at least a second
     * has passed it reports count / elapsed and starts a new period.
     */
    method Update(now: real) returns (fps: Option<real>)
      requires Valid()
      modifies this
      ensures Valid()
      ensures now - old(lastTime) < 1.0 ==>
        fps.None? && lastTime == old(lastTime) && frameCount == old(frameCount) + 1
        && pending == old(pending) + [now]
      ensures now - old(lastTime) >= 1.0 ==>
        && fps == Some((old(frameCount) + 1) as real / (now - old(lastTime)))
        && lastTime == now && frameCount == 0 && pending == []
      ensures fps.Some? ==> 0.0 < fps.value <= (old(frameCount) + 1) as real
    {
      frameCount := frameCount + 1;
      pending := pending + [now];
      var elapsed := now - lastTime;
      if elapsed >= 1.0 {
        RateBounds(frameCount, elapsed);
        fps := Some(frameCount as real / elapsed);
        lastTime := now;
        frameCount := 0;
        pending := [];
      } else {
        fps := None;
      }
    }
  }
}
