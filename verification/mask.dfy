/**
 * The dirty-mask bit layout: one bit per adjustment group, as 64-bit Kotlin
 * `Long` constants.
 */
module Mask {

  /** A Kotlin `Long` bitfield. */
  type Mask = bv64

  const LIGHT: Mask := 1 << 0
  const COLOR: Mask := 1 << 1
  const DETAIL: Mask := 1 << 2
  const VIGNETTE: Mask := 1 << 3
  const GRAIN: Mask := 1 << 4
  const MASK_HSL: Mask := 1 << 5

  /**
   * The view-models set and clear a `MASK_LUT` bit that the mask object does
   * not declare. The model gives it the next free position, 1 << 6, so that
   * it is a single bit distinct from all the others.
   */
  const MASK_LUT: Mask := 1 << 6

  /** The constants in declaration order, followed by the undeclared LUT bit. */
  const AllBits: seq<Mask> := [LIGHT, COLOR, DETAIL, VIGNETTE, GRAIN, MASK_HSL, MASK_LUT]

  /** The five groups the mask calculator can set. */
  const GroupBits: Mask := LIGHT | COLOR | DETAIL | VIGNETTE | GRAIN

  predicate IsSingleBit(m: Mask) {
    m != 0 && m & (m - 1) == 0
  }

  predicate Has(m: Mask, bit: Mask) {
    m & bit != 0
  }

  /** Each declared constant is the single bit 1 << k, k being its declaration index. */
  lemma ConstantsAreSingleBits()
    ensures forall k :: 0 <= k < |AllBits| ==> AllBits[k] == 1 << k
    ensures forall k :: 0 <= k < |AllBits| ==> IsSingleBit(AllBits[k])
    ensures forall k :: 0 <= k < |AllBits| ==> 0 < AllBits[k] as int
  {
  }

  /** Distinct constants never share a bit, so they are also distinct values. */
  lemma ConstantsDisjoint()
    ensures forall j, k :: 0 <= j < k < |AllBits| ==> AllBits[j] & AllBits[k] == 0
    ensures forall j, k :: 0 <= j < k < |AllBits| ==> AllBits[j] != AllBits[k]
  {
  }

  /** The five group bits fill the low five positions; the HSL and LUT bits lie outside them. */
  lemma GroupBitsLayout()
    ensures GroupBits == 31
    ensures MASK_HSL & GroupBits == 0
    ensures MASK_LUT & GroupBits == 0
  {
  }
}
