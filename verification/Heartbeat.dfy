/** The sleep between ticks, cut into chunks that each end with a heartbeat. */
module HeartbeatSleep {
  import opened Replies

  const CHUNK := 30.0

  datatype Act = Slept(seconds: real) | Beat

  /** Chunks needed for `r` seconds: the ceiling of `r / 30`, and none once `r` is over. */
  function Chunks(r: real): (n: nat)
    ensures r > 0.0 <==> n > 0
    ensures n > 0 ==> (n - 1) as real * CHUNK < r <= n as real * CHUNK
  {
    if r <= 0.0 then 0 else
      assert (-r / CHUNK).Floor as real <= -r / CHUNK < (-r / CHUNK).Floor as real + 1.0;
      -(-r / CHUNK).Floor
  }

  lemma OneChunkLess(r: real, after: real)
    requires r > 0.0 && after <= r - (if r < CHUNK then r else CHUNK)
    ensures Chunks(after) < Chunks(r)
    ensures after == r - (if r < CHUNK then r else CHUNK) ==> Chunks(after) == Chunks(r) - 1
  {
    if r > CHUNK && after > 0.0 {
      var n, m := Chunks(r), Chunks(after);
      assert (m - 1) as real * CHUNK < after <= n as real * CHUNK - CHUNK;
    }
  }

  predicate Alternates(acts: seq<Act>) {
    |acts| % 2 == 0 &&
    forall i :: 0 <= i < |acts| ==>
      if i % 2 == 0 then acts[i].Slept? && 0.0 < acts[i].seconds <= CHUNK else acts[i].Beat?
  }

  /** Sleep for `seconds` from `mono`. The i-th sleep advances the clock by the requested
      amount plus `late(i)`. There are at most ceil(seconds / 30) sleeps, exactly that many
      when none is late, each at most 30 s long and followed by one heartbeat; on return
      the whole interval has passed. */
  method SleepWithHeartbeat(mono: real, seconds: real, late: nat -> real) returns (acts: seq<Act>, now: real)
    requires forall i :: late(i) >= 0.0
    ensures Alternates(acts)
    ensures now >= mono + seconds
    ensures |acts| / 2 <= Chunks(seconds)
    ensures (forall i :: late(i) == 0.0) ==> |acts| / 2 == Chunks(seconds) && (seconds > 0.0 ==> now == mono + seconds)
  {
    var deadline := mono + seconds;
    now, acts := mono, [];
    while deadline - now > 0.0
      invariant Alternates(acts)
      invariant |acts| / 2 + Chunks(deadline - now) <= Chunks(seconds)
      invariant (forall i :: late(i) == 0.0) ==> |acts| / 2 + Chunks(deadline - now) == Chunks(seconds)
      invariant (forall i :: late(i) == 0.0) && seconds > 0.0 ==> now <= deadline
      decreases Chunks(deadline - now)
    {
      var remaining := deadline - now;
      var pause := if remaining < CHUNK then remaining else CHUNK;
      OneChunkLess(remaining, remaining - pause - late(|acts| / 2));
      now := now + pause + late(|acts| / 2);
      assert deadline - now == remaining - pause - late(|acts| / 2);
      acts := acts + [Slept(pause), Beat];
    }
  }
}
