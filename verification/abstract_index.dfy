/**
 * `AbstractIndex.ConstantValueIndex`: the dataflow location key "element at
 * constant index N". Its hash code and its equality are both computed from
 * the hash of the index, so equal keys are interchangeable in a map.
 */
module AbstractIndex {
  import opened HashCodes

  /** `nameof(ConstantValueIndex)`, whose string hash tags the variant. */
  const ConstantValueIndexName: string := "ConstantValueIndex"

  /** The two hash functions the key relies on: `int.GetHashCode` and `string.GetHashCode`. */
  datatype Hashers = Hashers(intHash: int32 -> int32, stringHash: string -> int32)

  /** `int.GetHashCode` in .NET returns the value itself. */
  function Int32GetHashCode(i: int32): int32
  {
    i
  }

  ghost predicate Injective(f: int32 -> int32)
  {
    forall i, j :: f(i) == f(j) ==> i == j
  }

  /** An immutable key: `Index` is set by the constructor and has no setter. */
  datatype ConstantValueIndex = ConstantValueIndex(Index: int32)
  {
    /** The parts `ComputeHashCodeParts` feeds to the accumulator, in order. */
    function HashCodeParts(h: Hashers): seq<int32>
    {
      [h.intHash(Index), h.stringHash(ConstantValueIndexName)]
    }

    /** `ComputeHashCodeParts(ref hashCode)`: adds the index hash, then the variant tag. */
    method ComputeHashCodeParts(hashCode: RoslynHashCode, h: Hashers)
      modifies hashCode
      ensures hashCode.parts == old(hashCode.parts) + HashCodeParts(h)
    {
      hashCode.Add(h.intHash(Index));
      hashCode.Add(h.stringHash(ConstantValueIndexName));
    }

    /**
     * `ComputeEqualsByHashCodeParts(other)`: the two keys' index hashes agree.
     * It holds exactly when both keys feed the accumulator the same parts.
     */
    function ComputeEqualsByHashCodeParts(other: ConstantValueIndex, h: Hashers): (eq: bool)
      ensures eq <==> HashCodeParts(h) == other.HashCodeParts(h)
    {
      h.intHash(Index) == h.intHash(other.Index)
    }
  }

  /** The hash parts are the index hash followed by the variant tag, so they depend on `Index` alone. */
  lemma HashCodePartsDependOnIndexOnly(x: ConstantValueIndex, y: ConstantValueIndex, h: Hashers)
    ensures |x.HashCodeParts(h)| == 2
    ensures x.HashCodeParts(h)[0] == h.intHash(x.Index)
    ensures x.HashCodeParts(h)[1] == h.stringHash("ConstantValueIndex")
    ensures x.Index == y.Index ==> x.HashCodeParts(h) == y.HashCodeParts(h)
  {
  }

  /** Two keys built from the same index compare equal, whatever the hash functions. */
  lemma SameIndexCompareEqual(i: int32, h: Hashers)
    ensures ConstantValueIndex(i).ComputeEqualsByHashCodeParts(ConstantValueIndex(i), h)
  {
  }

  lemma EqualsIsReflexive(x: ConstantValueIndex, h: Hashers)
    ensures x.ComputeEqualsByHashCodeParts(x, h)
  {
  }

  lemma EqualsIsSymmetric(x: ConstantValueIndex, y: ConstantValueIndex, h: Hashers)
    ensures x.ComputeEqualsByHashCodeParts(y, h) <==> y.ComputeEqualsByHashCodeParts(x, h)
  {
  }

  lemma EqualsIsTransitive(x: ConstantValueIndex, y: ConstantValueIndex, z: ConstantValueIndex, h: Hashers)
    requires x.ComputeEqualsByHashCodeParts(y, h) && y.ComputeEqualsByHashCodeParts(z, h)
    ensures x.ComputeEqualsByHashCodeParts(z, h)
  {
  }

  /**
   * Equal keys hash alike: they feed the accumulator the same parts, so any
   * mixing function gives them the same hash code.
   */
  lemma EqualKeysHashAlike(x: ConstantValueIndex, y: ConstantValueIndex, h: Hashers, mix: seq<int32> -> int32)
    requires x.ComputeEqualsByHashCodeParts(y, h)
    ensures x.HashCodeParts(h) == y.HashCodeParts(h)
    ensures mix(x.HashCodeParts(h)) == mix(y.HashCodeParts(h))
  {
  }

  /** With an injective index hash, key equality is exactly equality of the indices. */
  lemma InjectiveHashMakesEqualityExact(x: ConstantValueIndex, y: ConstantValueIndex, h: Hashers)
    requires Injective(h.intHash)
    ensures x.ComputeEqualsByHashCodeParts(y, h) <==> x.Index == y.Index
  {
  }

  /** .NET's own `int.GetHashCode` is injective, so with it keys are equal iff their indices are. */
  lemma Int32HashMakesEqualityExact(x: ConstantValueIndex, y: ConstantValueIndex, stringHash: string -> int32)
    ensures x.ComputeEqualsByHashCodeParts(y, Hashers(Int32GetHashCode, stringHash)) <==> x == y
  {
    InjectiveHashMakesEqualityExact(x, y, Hashers(Int32GetHashCode, stringHash));
  }
}
