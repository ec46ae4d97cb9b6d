/** Positional metadata: a set of 21 independent facts recorded about a grid
    position by completed matches, kept as a bit mask. */
module Flags {

  type Meta = bv21

  const M_NONE: Meta := 0
  const M_OCCUPIED: Meta := 0x1  // bit 0
  const M_BOX_START_S: Meta := 0x2  // bit 1
  const M_BOX_AFTER_S: Meta := 0x4  // bit 2
  const M_BOX_START_E: Meta := 0x8  // bit 3
  const M_BOX_AFTER_E: Meta := 0x10  // bit 4
  const M_LINE_START_E: Meta := 0x20  // bit 5
  const M_DASH_START_E: Meta := 0x40  // bit 6
  const M_LINE_AFTER_E: Meta := 0x80  // bit 7
  const M_DASH_AFTER_E: Meta := 0x100  // bit 8
  const M_LINE_START_S: Meta := 0x200  // bit 9
  const M_DASH_START_S: Meta := 0x400  // bit 10
  const M_LINE_AFTER_S: Meta := 0x800  // bit 11
  const M_DASH_AFTER_S: Meta := 0x1000  // bit 12
  const M_LINE_START_SE: Meta := 0x2000  // bit 13
  const M_DASH_START_SE: Meta := 0x4000  // bit 14
  const M_LINE_AFTER_SE: Meta := 0x8000  // bit 15
  const M_DASH_AFTER_SE: Meta := 0x10000  // bit 16
  const M_LINE_START_SW: Meta := 0x20000  // bit 17
  const M_DASH_START_SW: Meta := 0x40000  // bit 18
  const M_LINE_AFTER_SW: Meta := 0x80000  // bit 19
  const M_DASH_AFTER_SW: Meta := 0x100000  // bit 20

  /** Every named flag, in the order of their bit positions. */
  const ALL_FLAGS: seq<Meta> := [
    M_OCCUPIED, M_BOX_START_S, M_BOX_AFTER_S, M_BOX_START_E, M_BOX_AFTER_E,
    M_LINE_START_E, M_DASH_START_E, M_LINE_AFTER_E, M_DASH_AFTER_E,
    M_LINE_START_S, M_DASH_START_S, M_LINE_AFTER_S, M_DASH_AFTER_S,
    M_LINE_START_SE, M_DASH_START_SE, M_LINE_AFTER_SE, M_DASH_AFTER_SE,
    M_LINE_START_SW, M_DASH_START_SW, M_LINE_AFTER_SW, M_DASH_AFTER_SW ]

  predicate Has(m: Meta, flag: Meta) {
    m & flag != 0
  }

  /** A mask with exactly one bit set. */
  predicate SingleBit(m: Meta) {
    m != 0 && m & (m - 1) == 0
  }

  /** The mask carrying every bit set in `a` or in `b`. */
  function Union(a: Meta, b: Meta): Meta {
    a | b
  }

  /** `a` carries every bit of `b`. */
  predicate Covers(a: Meta, b: Meta) {
    a & b == b
  }

  /** The mask whose only set bit is bit `k`. */
  function Bit(k: nat): Meta
    requires k < 21
  {
    (1 as Meta) << k
  }

  /** Flag k of ALL_FLAGS is bit k, a mask with that one bit set, and
      M_NONE carries none of them. */
  lemma FlagsAreSingleBits()
    ensures |ALL_FLAGS| == 21
    ensures forall k :: 0 <= k < 21 ==> ALL_FLAGS[k] == Bit(k) && SingleBit(Bit(k))
    ensures forall k :: 0 <= k < 21 ==> !Has(M_NONE, Bit(k))
  {
  }

  /** Distinct flags share no bit. */
  lemma FlagsAreDisjoint()
    ensures forall j, k :: 0 <= j < k < 21 ==> Bit(j) & Bit(k) == 0
  {
  }
}
