/** Repeated application of a step function, used to state what a run of calls does. */
module Iteration {

  /** `f` applied `n` times to `x`. */
  function Repeat<T>(f: T -> T, n: nat, x: T): T
    decreases n
  {
    if n == 0 then x else f(Repeat(f, n - 1, x))
  }
}
