/**
 * Hash codes as the dataflow framework builds them: a 32-bit value per
 * component, fed part by part into a `RoslynHashCode` accumulator.
 * The mixing function that folds the parts into one `int` is library code and
 * is never fixed here: every property is stated for the sequence of parts, so
 * it holds for whatever mixing function the accumulator uses.
 */
module HashCodes {
  import opened Wrappers

  /** A C# `int`; `GetHashCode` returns one. */
  newtype int32 = x: int | -0x8000_0000 <= x < 0x8000_0000

  /**
   * `GetHashCodeOrDefault`: the hash of a present reference, `0` for `null`.
   * So `null` hashes like any present value whose own hash is `0`.
   */
  function HashOrDefault<T>(o: Option<T>, hash: T -> int32): (r: int32)
    ensures o.None? ==> r == 0
    ensures o.Some? ==> r == hash(o.value)
  {
    match o
    case None => 0
    case Some(v) => hash(v)
  }

  /**
   * The `RoslynHashCode` accumulator that `ComputeHashCodeParts` receives by
   * `ref`, seen as the parts added to it so far.
   */
  class RoslynHashCode {
    var parts: seq<int32>

    constructor ()
      ensures parts == []
    {
      parts := [];
    }

    /** `hashCode.Add(value)`: appends one part. */
    method Add(value: int32)
      modifies this
      ensures parts == old(parts) + [value]
    {
      parts := parts + [value];
    }
  }
}
