/** What the circuit breaker, the lockout marker and the supervision share. */
module Breaker {
  import opened Replies

  /** Exit status of a tripped breaker and of any command refused by the marker. */
  const LOCKED_OUT := 78

  /** Why a marker was written; `Unreadable` is a marker whose content cannot be read. */
  datatype Reason = AuthRejected | BudgetExhausted | WatchdogUnstable | Unreadable

  /** The nested blocks of a trip: an ordinary failure of the marker's write is swallowed,
      whatever else it does is pending while services and gluetun are stopped, and the exit
      is raised in the innermost `finally`. */
  function TripBlocks<S>(marker: (S, Reply<()>), stop: S -> (S, Reply<()>), tunnel: S -> (S, Reply<()>)): (S, Reply<()>) {
    Finally(Swallow(marker), (s: S) => StopBlocks(s, stop, tunnel))
  }

  function StopBlocks<S>(s: S, stop: S -> (S, Reply<()>), tunnel: S -> (S, Reply<()>)): (S, Reply<()>) {
    Finally(stop(s), (t: S) => Finally(tunnel(t), (u: S) => (u, Exits(LOCKED_OUT))))
  }

  /** Whichever of the three fail, and however: each runs on the state the one before it
      left, and the exit status is 78. */
  lemma TripBlocksComplete<S>(marker: (S, Reply<()>), stop: S -> (S, Reply<()>), tunnel: S -> (S, Reply<()>))
    ensures TripBlocks(marker, stop, tunnel) == (tunnel(stop(marker.0).0).0, Exits(LOCKED_OUT))
  {
  }
}
