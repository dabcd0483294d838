/** Alignment of lengths and locations to a padding. */
module Rounding {

  function RoundDown(length: int, pad: int): int
    requires pad > 0
  {
    (length / pad) * pad
  }

  function RoundUp(length: int, pad: int): int
    requires pad > 0
  {
    ((length + pad - 1) / pad) * pad
  }

  ghost predicate Multiple(a: int, pad: int)
    requires pad > 0
  {
    exists k: int :: Times(k, pad) == a
  }

  function Times(k: int, pad: int): int {
    k * pad
  }

  lemma TimesApart(x: int, y: int, pad: int)
    requires pad > 0 && x < y
    ensures Times(x, pad) + pad <= Times(y, pad)
  {
    assert Times(y, pad) - Times(x, pad) == (y - x) * pad;
    assert (y - x) * pad >= 1 * pad by {
      assert ((y - x) - 1) * pad >= 0;
    }
  }

  lemma DivTimes(a: int, pad: int)
    requires pad > 0
    ensures Times(a / pad, pad) <= a < Times(a / pad, pad) + pad
  {
  }

  /** RoundDown gives the largest multiple at or below, and leaves multiples alone. */
  lemma RoundDownBounds(length: int, pad: int)
    requires pad > 0
    ensures length - pad < RoundDown(length, pad) <= length
    ensures Multiple(RoundDown(length, pad), pad)
    ensures Multiple(length, pad) ==> RoundDown(length, pad) == length
  {
    DivTimes(length, pad);
    assert Times(length / pad, pad) == RoundDown(length, pad);
    if Multiple(length, pad) {
      var k: int :| Times(k, pad) == length;
      if length / pad < k {
        TimesApart(length / pad, k, pad);
      } else if k < length / pad {
        TimesApart(k, length / pad, pad);
      }
    }
  }

  /** RoundUp gives the smallest multiple at or above, and leaves multiples alone. */
  lemma RoundUpBounds(length: int, pad: int)
    requires pad > 0
    ensures length <= RoundUp(length, pad) < length + pad
    ensures Multiple(RoundUp(length, pad), pad)
    ensures Multiple(length, pad) ==> RoundUp(length, pad) == length
  {
    RoundDownBounds(length + pad - 1, pad);
    if Multiple(length, pad) {
      RoundUpWithin(length, length, pad);
    }
  }

  /** A multiple of pad that bounds a from above also bounds a rounded up. */
  lemma RoundUpWithin(a: int, n: int, pad: int)
    requires pad > 0 && Multiple(n, pad) && a <= n
    ensures RoundUp(a, pad) <= n
  {
    var q := (a + pad - 1) / pad;
    DivTimes(a + pad - 1, pad);
    assert Times(q, pad) == RoundUp(a, pad);
    var k: int :| Times(k, pad) == n;
    if k < q {
      TimesApart(k, q, pad);
    }
  }

  lemma RoundDownNat(length: int, pad: int)
    requires pad > 0 && length >= 0
    ensures RoundDown(length, pad) >= 0
  {
    assert length / pad >= 0;
  }

  lemma RoundUpZero(pad: int)
    requires pad > 0
    ensures RoundUp(0, pad) == 0
  {
    assert Times(0, pad) == 0;
    RoundUpBounds(0, pad);
  }
}
