/** Answers of the outside world: Docker, the network, the clock, the disk.

    Every call the program makes into code it does not own is an oracle. A run is
    described by the script of replies those oracles give, so a statement about all
    scripts is a statement about every behaviour of the environment. */
module Replies {

  datatype Option<+T> = None | Some(value: T)

  /** Python truthiness of an optional string: absent and empty are both false. */
  predicate Truthy(s: Option<string>) {
    s.Some? && s.value != ""
  }

  /** A tunable read with a minimum of one. */
  type Positive = n: int | n >= 1 witness 1

  /** What one call does: return a value, raise an ordinary exception, or unwind the
      process with an exit status. From an oracle `Exits` stands for `SystemExit` (a
      signal) or `KeyboardInterrupt`, which `except Exception` does not catch; `typer.Exit`,
      which it would, is raised by the program's own breaker and guards only. */
  datatype Reply<+T> = Answer(value: T) | Raises | Exits(code: int) {

    predicate IsFailure() {
      !Answer?
    }

    function PropagateFailure<U>(): Reply<U>
      requires IsFailure()
    {
      if Raises? then Raises else Exits(code)
    }

    function Extract(): T
      requires !IsFailure()
    {
      value
    }
  }

  const Done: Reply<()> := Answer(())

  /** A reply with its value forgotten. */
  function Status<T>(r: Reply<T>): Reply<()> {
    if r.Answer? then Done else r.PropagateFailure<()>()
  }

  // ----- Exception blocks over a state -----

  /** `try: first finally: cleanup`. The cleanup runs whatever `first` did, and a failure
      of its own replaces the pending one. */
  function Finally<S>(first: (S, Reply<()>), cleanup: S -> (S, Reply<()>)): (S, Reply<()>) {
    var (s, r) := cleanup(first.0);
    (s, if r.IsFailure() then r else first.1)
  }

  /** `try: first except Exception: pass` */
  function Swallow<S>(first: (S, Reply<()>)): (S, Reply<()>) {
    (first.0, if first.1.Raises? then Done else first.1)
  }
}
