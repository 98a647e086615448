/**
 * Size comparisons of the regression core.
 *
 * Every size check in `albatross/core/model.h` casts both `std::size_t`
 * operands to a 32-bit signed integer (`s32` or `int`) before comparing them.
 * A cast of a value that does not fit keeps the low 32 bits (two's complement),
 * so two sizes that differ by a multiple of 2^32 compare equal. `SameSizeAsWritten`
 * is that comparison; `SameSize` is the exact comparison the checks are meant
 * to perform, and it is the one the rest of the model uses.
 */
module Sizes {

  const TwoTo31: int := 0x8000_0000
  const TwoTo32: int := 0x1_0000_0000

  /** `static_cast<int32_t>(n)` for a non-negative size: the low 32 bits, read as two's complement. */
  function ToInt32(n: nat): (r: int)
    ensures -TwoTo31 <= r < TwoTo31
    ensures (n - r) % TwoTo32 == 0
    ensures n < TwoTo31 ==> r == n
  {
    var low := n % TwoTo32;
    if low < TwoTo31 then low else low - TwoTo32
  }

  /** The size check as the source writes it: equality after truncation to 32 bits. */
  predicate SameSizeAsWritten(a: nat, b: nat) {
    ToInt32(a) == ToInt32(b)
  }

  /** The size check as intended: the two counts are equal. */
  predicate SameSize(a: nat, b: nat) {
    a == b
  }

  /** The truncating check accepts two sizes exactly when they agree modulo 2^32. */
  lemma SameSizeAsWrittenIsCongruence(a: nat, b: nat)
    ensures SameSizeAsWritten(a, b) <==> (a - b) % TwoTo32 == 0
  {
    var ra, rb := ToInt32(a), ToInt32(b);
    assert (a - ra) % TwoTo32 == 0 && (b - rb) % TwoTo32 == 0;
    var qa, qb := (a - ra) / TwoTo32, (b - rb) / TwoTo32;
    assert a == ra + qa * TwoTo32;
    assert b == rb + qb * TwoTo32;
    assert a - b == (ra - rb) + (qa - qb) * TwoTo32;
    if (a - b) % TwoTo32 == 0 {
      var q := (a - b) / TwoTo32;
      assert a - b == q * TwoTo32;
      assert ra - rb == (q - qa + qb) * TwoTo32;
      assert -TwoTo32 < ra - rb < TwoTo32;
    }
  }

  /** A counterexample: 2^32 + 1 features against a single target pass the check. */
  lemma SameSizeAsWrittenAcceptsMismatch()
    ensures SameSizeAsWritten(TwoTo32 + 1, 1)
    ensures !SameSize(TwoTo32 + 1, 1)
  {
    assert ToInt32(TwoTo32 + 1) == 1;
  }

  /** Whenever both sizes fit in 31 bits the intended check agrees with the written one. */
  lemma SameSizeAgreesBelowTwoTo31(a: nat, b: nat)
    requires a < TwoTo31 && b < TwoTo31
    ensures SameSize(a, b) <==> SameSizeAsWritten(a, b)
  {
  }
}
