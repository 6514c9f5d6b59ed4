/** Small value types shared by every part of the model. */
module Prelude {

  datatype Option<+T> = None | Some(value: T)

  /**
   The credential errors that the store and the lifecycles return. `Invalid` is
   any error of a driver's validation.
   */
  datatype Error =
    | Storage
    | PersistenceUncertain
    | PoolFull
    | InvalidInput
    | Invalid
    | Superseded
    | LoginRequired
    | IdentityMismatch
    | KeyUnavailable
    | KeyExists
    | Busy

  /** How a store operation ended. `Died` is a process that stopped inside the operation and returned nothing. */
  datatype Outcome = Done | Failed(error: Error) | Died

  const MAX_U64: nat := 0xffff_ffff_ffff_ffff

  function Min(a: int, b: int): int { if a <= b then a else b }

  function Concat<T>(parts: seq<seq<T>>): seq<T> {
    if parts == [] then [] else Concat(parts[..|parts| - 1]) + parts[|parts| - 1]
  }

  lemma ConcatPrefix<T>(parts: seq<seq<T>>, n: nat)
    requires n <= |parts|
    ensures Concat(parts[..n]) <= Concat(parts)
  {
    if n < |parts| {
      ConcatPrefix(parts[..|parts| - 1], n);
      assert parts[..|parts| - 1][..n] == parts[..n];
    } else {
      assert parts[..n] == parts;
    }
  }
}
