/** Shared by the models: optional values, results, timed calls, and small facts about numbers and lists. */
module Common {
  datatype Option<+T> = None | Some(value: T)

  datatype Result<+T, +E> = Success(value: T) | Failure(error: E)

  /** A call with the ledger's time. */
  datatype Timed<+C> = At(now: nat, call: C)

  /** The time of the last call, or the start. */
  function LastTime<C>(calls: seq<Timed<C>>, start: nat): nat {
    if calls == [] then start else calls[|calls| - 1].now
  }

  const U64: int := 0x1_0000_0000_0000_0000

  function Max(a: int, b: int): int {
    if a >= b then a else b
  }

  function Min(a: int, b: int): int {
    if a <= b then a else b
  }

  function Sum(list: seq<int>): int {
    if list == [] then 0 else Sum(list[..|list| - 1]) + list[|list| - 1]
  }

  /** No entry is repeated. */
  predicate Distinct<T(==)>(list: seq<T>) {
    forall i, j :: 0 <= i < j < |list| ==> list[i] != list[j]
  }
}
