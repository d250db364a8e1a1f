/** Shared result types and small arithmetic helpers. */
module Wrappers {

  datatype Option<+T> = None | Some(value: T)

  datatype Result<+T, +E> = Ok(value: T) | Err(error: E)

  function Max(a: nat, b: nat): nat { if a >= b then a else b }

  function Min(a: nat, b: nat): nat { if a <= b then a else b }

  lemma LastApart<T>(first: seq<T>, second: seq<T>)
    requires second != []
    ensures first + second == (first + second[..|second| - 1]) + [second[|second| - 1]]
  {
  }

  function Flat<T>(bursts: seq<seq<T>>): seq<T> {
    if bursts == [] then [] else Flat(bursts[..|bursts| - 1]) + bursts[|bursts| - 1]
  }
}
