/** Vocabulary shared by the models of the GaudiHive components. */
module Common {

  /** The conventional optional value, used where the C++ code has a null pointer or a sentinel. */
  datatype Option<+T> = None | Some(value: T)

  /** The outcome of a function that may throw. */
  datatype Result<+T, +E> = Ok(value: T) | Err(error: E)

  /** A sum of equal amounts, one for each step that counts, is taken step by step. */
  lemma Distribute(n: nat, first: bool, rest: nat)
    ensures n * ((if first then 1 else 0) + rest) == (if first then n else 0) + n * rest
  {
  }
}
