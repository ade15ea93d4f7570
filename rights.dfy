/** The access-right vocabulary used by the hosting-computer heuristic. */
module Rights {

  /** `MaskFlags::MANAGE_CERTIFICATES`: the "Manage Certificates" right of a
      Certificate Authority's security descriptor. */
  const MANAGE_CERTIFICATES: bv32 := 0x0000_0002

  /** `(required | observed) == observed`: the right is granted when every
      bit of `required` is set in `observed`. */
  predicate Contains(observed: bv32, required: bv32) {
    (required | observed) == observed
  }

  /** The OR-equality test is the AND test `observed & required == required`,
      not the weaker `observed & required != 0`. */
  lemma ContainsIsAndTest(observed: bv32, required: bv32)
    ensures Contains(observed, required) ==> (observed & required) == required
    ensures (observed & required) == required ==> Contains(observed, required)
  {
  }

  /** A mask containing a right keeps it when more bits are added. */
  lemma ContainsMonotone(observed: bv32, extra: bv32, required: bv32)
    requires Contains(observed, required)
    ensures Contains(observed | extra, required)
  {
  }

  /** `0b0011` contains `0b0001` but not `0b0100`. */
  lemma ContainsExamples()
    ensures Contains(0x3, 0x1)
    ensures !Contains(0x3, 0x4)
  {
  }
}
