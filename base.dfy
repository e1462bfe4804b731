/**
 * Shared vocabulary of the model: the optional value used for parse results
 * and for identifiers that a string-keyed match does not recognise, and the
 * fixed-width integer types that the Rust structs declare.
 */
module Base {

  datatype Option<+T> = None | Some(value: T)

  /** Rust `u8`: trigger values. */
  type u8 = x: int | 0 <= x < 0x100

  /** Rust `i16`: thumb-stick axes on the wire and in the emulated pad. */
  type i16 = x: int | -0x8000 <= x < 0x8000

  /** Rust `i32`: thumb-stick axes as the producer stores them. */
  type i32 = x: int | -0x8000_0000 <= x < 0x8000_0000

  /**
   * A sequence is empty or holds its first element. Calling this puts the
   * term `s[0]` in front of the solver without indexing in the caller.
   */
  lemma FirstElement<T>(s: seq<T>)
    ensures s == [] || s[0] in s
  {
  }

  /** A sequence is shorter than two or holds its first two elements. */
  lemma FirstTwoElements<T>(s: seq<T>)
    ensures |s| <= 1 || (s[0] in s && s[1] in s)
  {
  }
}
