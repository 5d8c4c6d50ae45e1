/** Two's complement integer widths used by the stepper code.
    Dafny integers are unbounded; these functions make explicit what the
    AVR compiler keeps of an exact result stored in an int32_t or a uint32_t. */
module FixedWidth {

  const TWO32: int := 0x1_0000_0000
  const INT32_MIN: int := -0x8000_0000
  const INT32_MAX: int := 0x7FFF_FFFF

  predicate IsUint32(x: int) { 0 <= x < TWO32 }

  predicate IsInt32(x: int) { INT32_MIN <= x <= INT32_MAX }

  /** The value a uint32_t holds after an exact result `x` is stored in it:
      the unique representative of `x` modulo 2^32 in [0, 2^32). */
  function Uint32(x: int): (r: int)
    ensures IsUint32(r)
    ensures IsUint32(x) ==> r == x
  {
    x % TWO32
  }

  /** The value an int32_t holds after an exact result `x` is stored in it,
      taking the two's complement wrap-around the AVR compiler produces
      (C itself leaves signed overflow undefined): the unique representative
      of `x` modulo 2^32 in [-2^31, 2^31). */
  function Int32(x: int): (r: int)
    ensures IsInt32(r)
    ensures IsInt32(x) ==> r == x
  {
    var u := x % TWO32;
    if u <= INT32_MAX then u else u - TWO32
  }

  /** Storing a uint32_t value into an int32_t changes it to zero only if it was zero. */
  lemma Int32OfUint32Zero(x: int)
    requires IsUint32(x)
    ensures Int32(x) == 0 <==> x == 0
  {
  }
}
