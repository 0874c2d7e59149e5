/** What several components share: optional values, bounds, and text that is not blank. */
module Wrappers {

  datatype Option<T> = None | Some(value: T)

  function Min(a: int, b: int): int { if a <= b then a else b }

  function Max(a: int, b: int): int { if a >= b then a else b }

  function MinReal(a: real, b: real): real { if a <= b then a else b }

  function MaxReal(a: real, b: real): real { if a >= b then a else b }

  function Members<T(==)>(s: seq<T>): set<T> {
    set x | x in s
  }

  /** The ASCII characters that stripping removes. */
  predicate IsSpace(c: char) {
    c == ' ' || '\t' <= c <= '\r' || '\U{1C}' <= c <= '\U{1F}'
  }

  /** Something is left after stripping. */
  predicate HasText(s: string) {
    exists i :: 0 <= i < |s| && !IsSpace(s[i])
  }
}
