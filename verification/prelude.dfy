/** Small vocabulary shared by the model: optional values, bytes and C-style line bytes. */
module Prelude {
  datatype Option<+T> = None | Some(value: T)

  /** An unsigned byte as received from the remote. */
  type byte = x: int | 0 <= x < 256 witness 0

  type bytes = seq<byte>

  /** `a` is `b` cut short (possibly not at all). */
  predicate IsPrefix<T(==)>(a: seq<T>, b: seq<T>) {
    |a| <= |b| && a == b[..|a|]
  }

  /** `a` is `b` cut short by at least one element. */
  predicate IsStrictPrefix<T(==)>(a: seq<T>, b: seq<T>) {
    |a| < |b| && a == b[..|a|]
  }

  /** All the strings of `lines`, in order, in one string. */
  function Concat(lines: seq<string>): string {
    if lines == [] then "" else Concat(lines[..|lines| - 1]) + lines[|lines| - 1]
  }

  lemma ConcatSnoc(lines: seq<string>, line: string)
    ensures Concat(lines + [line]) == Concat(lines) + line
  {
    assert (lines + [line])[..|lines|] == lines;
  }
}
