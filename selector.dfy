/**
 * Selection of the next note: randomNewIndex of src/index.tsx, with the
 * random draw made an explicit argument.
 */
module Selector {
  import opened Options

  /**
   * The values Math.floor(Math.random() * (length - 1)) can take for a
   * non-empty inventory: every integer in [0, length - 1) when length >= 2,
   * and only 0 when length == 1 (the product is then always zero).
   */
  predicate IsDraw(length: nat, r: int)
    requires length >= 1
  {
    0 <= r < (if length >= 2 then length - 1 else 1)
  }

  /**
   * randomNewIndex as written: the draw r is shifted up by one when it is at
   * or past the current index. The result is never the current index, and
   * for an inventory of two or more notes it is a valid index.
   */
  function RandomNewIndex(currentIndex: int, length: nat, r: int): (i: int)
    requires length >= 1 && IsDraw(length, r)
    ensures i != currentIndex
    ensures i == r || i == r + 1
    ensures length >= 2 && 0 <= currentIndex < length ==> 0 <= i < length
  {
    if r >= currentIndex then r + 1 else r
  }

  /** Different draws give different indices: the selector is injective in its draw. */
  lemma RandomNewIndexInjective(currentIndex: int, length: nat, r1: int, r2: int)
    requires length >= 1 && IsDraw(length, r1) && IsDraw(length, r2)
    requires RandomNewIndex(currentIndex, length, r1) == RandomNewIndex(currentIndex, length, r2)
    ensures r1 == r2
  {
  }

  /** The one draw that selects index j: the inverse of the exclusion mapping. */
  function DrawFor(currentIndex: nat, length: nat, j: nat): (r: int)
    requires length >= 2 && currentIndex < length && j < length && j != currentIndex
    ensures IsDraw(length, r)
    ensures RandomNewIndex(currentIndex, length, r) == j
  {
    if j < currentIndex then j else j - 1
  }

  /** The valid indices of an inventory of n notes, {0, ..., n - 1}. */
  ghost function Indices(n: nat): (s: set<int>)
    ensures forall j :: j in s <==> 0 <= j < n
    ensures |s| == n
  {
    if n == 0 then {} else Indices(n - 1) + {n - 1}
  }

  /** The indices the selector may produce: every valid index except the current one. */
  ghost function OtherIndices(currentIndex: nat, length: nat): set<int>
  {
    Indices(length) - {currentIndex}
  }

  /** There are length - 1 other indices, as many as there are draws. */
  lemma OtherIndicesCount(currentIndex: nat, length: nat)
    requires currentIndex < length
    ensures |OtherIndices(currentIndex, length)| == length - 1
  {
  }

  /** The image of all draws is exactly the other indices. */
  lemma ImageIsOtherIndices(currentIndex: nat, length: nat)
    requires length >= 2 && currentIndex < length
    ensures (set r | 0 <= r < length - 1 :: RandomNewIndex(currentIndex, length, r))
            == OtherIndices(currentIndex, length)
  {
    var image := set r | 0 <= r < length - 1 :: RandomNewIndex(currentIndex, length, r);
    forall j | j in OtherIndices(currentIndex, length)
      ensures j in image
    {
      var r := DrawFor(currentIndex, length, j);
      assert RandomNewIndex(currentIndex, length, r) == j;
    }
  }

  /**
   * Uniformity: every index other than the current one is selected by
   * exactly one of the length - 1 equally likely draws.
   */
  lemma EachOtherIndexHitOnce(currentIndex: nat, length: nat, j: nat)
    requires length >= 2 && currentIndex < length && j < length && j != currentIndex
    ensures (set r | 0 <= r < length - 1 && RandomNewIndex(currentIndex, length, r) == j)
            == {DrawFor(currentIndex, length, j)}
    ensures |set r | 0 <= r < length - 1 && RandomNewIndex(currentIndex, length, r) == j| == 1
  {
    var hits := set r | 0 <= r < length - 1 && RandomNewIndex(currentIndex, length, r) == j;
    var r0 := DrawFor(currentIndex, length, j);
    forall r | r in hits ensures r == r0 {
      RandomNewIndexInjective(currentIndex, length, r, r0);
    }
    assert r0 in hits;
    assert hits == {r0};
  }

  /**
   * As written, a one-note inventory breaks the selector: the only draw is 0,
   * and it selects index 1, which is outside the inventory.
   */
  lemma SingletonSelectsOutOfRange()
    ensures IsDraw(1, 0)
    ensures RandomNewIndex(0, 1, 0) == 1
  {
  }

  /**
   * The selector with the singleton case made an explicit configuration
   * error: None when no other index exists, otherwise the exclusion mapping.
   */
  function NextIndex(currentIndex: nat, length: nat, r: int): (res: Option<nat>)
    requires currentIndex < length && IsDraw(length, r)
    ensures res.Some? <==> length >= 2
    ensures res.Some? ==> res.value < length && res.value != currentIndex
    ensures res.Some? ==> res.value == r || res.value == r + 1
  {
    if length < 2 then None else Some(RandomNewIndex(currentIndex, length, r))
  }
}
