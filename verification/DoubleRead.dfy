/** Reading a register in two halves while it grows.

    `values` are the values the register has at successive accesses; the first access of a
    reading returns the upper half and the next one the lower half. */
module DoubleRead {
  import opened Options
  import opened Ring

  predicate Growing(values: seq<nat>) {
    forall i, j | 0 <= i <= j < |values| :: values[i] <= values[j]
  }

  /** The reading whose first access is number `i`. */
  function Reading(values: seq<nat>, i: nat, base: nat): nat
    requires i + 1 < |values| && base > 0
  {
    values[i] / base * base + values[i + 1] % base
  }

  lemma NextMultiple(base: nat, q: nat, q': nat)
    requires q > q'
    ensures base * q >= base * q' + base
  {
    MulNonneg(base, q - q' - 1);
    assert base * (q - q' - 1) == base * q - base * q' - base;
  }

  /** The quotients are ordered as the numbers are. */
  lemma QuotientOrder(q: nat, r: nat, q': nat, r': nat, base: nat)
    requires r < base && r' < base && base * q + r <= base * q' + r'
    ensures q <= q'
  {
    if q > q' {
      NextMultiple(base, q, q');
    }
  }

  lemma DivisionGrows(a: nat, b: nat, base: nat)
    requires a <= b && base > 0
    ensures a / base <= b / base
  {
    QuotientOrder(a / base, a % base, b / base, b % base, base);
  }

  /** Two equal readings, one after the other, are the value the register had when the first
      of them was complete. */
  lemma EqualReadings(hi: nat, lo: nat, hi': nat, lo': nat, base: nat)
    requires base > 0 && hi <= lo <= hi'
    requires hi / base * base + lo % base == hi' / base * base + lo' % base
    ensures hi / base * base + lo % base == lo
  {
    DivisionGrows(hi, lo, base);
    DivisionGrows(lo, hi', base);
    assert hi / base == hi' / base by {
      QuotientOrder(hi / base, lo % base, hi' / base, lo' % base, base);
      QuotientOrder(hi' / base, lo' % base, hi / base, lo % base, base);
    }
    assert lo == base * (lo / base) + lo % base;
  }

  /** A reading is never more than the value at its second access. */
  lemma ReadingIsLow(hi: nat, lo: nat, base: nat)
    requires base > 0 && hi <= lo
    ensures hi / base * base + lo % base <= lo
    ensures hi == lo ==> hi / base * base + lo % base == lo
  {
    DivisionGrows(hi, lo, base);
    assert lo == base * (lo / base) + lo % base;
    MulNonneg(base, lo / base - hi / base);
    assert base * (lo / base) == base * (hi / base) + base * (lo / base - hi / base);
  }

  /** What one reading, and two in a row, tell about a growing register. */
  lemma ReadingFacts(values: seq<nat>, i: nat, base: nat)
    requires base > 0 && Growing(values) && i + 1 < |values|
    ensures Reading(values, i, base) <= values[i + 1]
    ensures values[i] == values[i + 1] ==> Reading(values, i, base) == values[i + 1]
    ensures i + 3 < |values| && Reading(values, i, base) == Reading(values, i + 2, base) ==>
              Reading(values, i, base) == values[i + 1]
    ensures i + 3 < |values| && Reading(values, i, base) != Reading(values, i + 2, base) ==>
              values[i] < values[i + 3]
  {
    ReadingIsLow(values[i], values[i + 1], base);
    if i + 3 < |values| && Reading(values, i, base) == Reading(values, i + 2, base) {
      EqualReadings(values[i], values[i + 1], values[i + 2], values[i + 3], base);
    }
  }

  /** `r` is the value the register had at one of the first `used` accesses. */
  ghost predicate WasTrue(values: seq<nat>, used: nat, r: nat) {
    exists k | 0 <= k < used && k < |values| :: values[k] == r
  }

  /** The first reading meets the value `first` the code starts from although the register has
      never held it: it crosses a multiple of the base between the two accesses. */
  predicate Crosses(values: seq<nat>, base: nat, first: nat)
    requires base > 0
  {
    && |values| >= 2
    && values[0] < base <= values[1] && values[1] % base == first && values[0] != first
  }

  /** A first reading of a value below the base is right unless the register has crossed. */
  lemma FirstReading(values: seq<nat>, base: nat, first: nat)
    requires first < base && Growing(values) && |values| >= 2
    ensures Reading(values, 0, base) == first && values[0] != first && values[1] != first ==>
              Crosses(values, base, first)
    ensures Crosses(values, base, first) ==>
              && Reading(values, 0, base) == first
              && forall k | 0 <= k < |values| :: values[k] != first
  {
    var hi, lo := values[0], values[1];
    ReadingIsLow(hi, lo, base);
    SmallQuotient(hi, base);
    if hi >= base {
      NextMultiple(base, hi / base, 0);
    } else if lo < base {
      ModUnique(lo, 0, lo, base);
    }
    if Crosses(values, base, first) {
      assert forall k | 1 <= k < |values| :: values[1] <= values[k];
    }
  }

  lemma SmallQuotient(n: nat, base: nat)
    requires base > 0
    ensures n / base == 0 <==> n < base
  {
    assert n == base * (n / base) + n % base;
    if n / base > 0 {
      NextMultiple(base, n / base, 0);
    } else {
      assert base * (n / base) == 0;
    }
  }

  lemma ReadingAtLeast(values: seq<nat>, i: nat, base: nat)
    requires base > 0 && i + 1 < |values| && values[i] >= base
    ensures Reading(values, i, base) >= base
  {
    SmallQuotient(values[i], base);
    NextMultiple(base, values[i] / base, 0);
  }

  /** A reading of 0 behind one that is not 0 means that the register has passed the base. */
  lemma ZeroBehind(values: seq<nat>, i: nat, base: nat)
    requires base > 0 && Growing(values) && i + 3 < |values|
    requires Reading(values, i, base) != 0 && Reading(values, i + 2, base) == 0
    ensures values[i + 3] >= base
  {
    if values[i + 3] < base {
      assert values[i] <= values[i + 1] <= values[i + 2] <= values[i + 3];
      SmallQuotient(values[i], base);
      ModUnique(values[i + 1], 0, values[i + 1], base);
      ModUnique(values[i + 3], 0, values[i + 3], base);
    }
  }

  /** The free and received sizes of sixteen bits, read byte by byte: a register that grows from
      255 to 256 between the two accesses is read as 0, and that confirms itself. */
  lemma ZeroCanBeWrong()
    ensures Crosses([255, 256], 256, 0) && Reading([255, 256], 0, 256) == 0
    ensures !WasTrue([255, 256], 2, 0)
  {
    var values: seq<nat> := [255, 256];
    assert values[0] == 255 && values[1] == 256;
  }

  /** How much the register grows in all. */
  function Growth(values: seq<nat>): int {
    if values == [] then 0 else values[|values| - 1] as int - values[0]
  }

  /** The reading of the W5100, W5100S and W5200: a second reading confirms the first, and a
      first reading of 0 confirms itself.  `None` means that the accesses in `values` did not
      suffice, which needs the register to grow in every round. */
  method ReadConfirmed(values: seq<nat>, base: nat) returns (r: Option<nat>, used: nat)
    requires base > 1 && Growing(values)
    ensures r.Some? ==> 2 <= used <= |values| && r.value <= values[used - 1]
    ensures r.Some? && r.value > 0 ==> WasTrue(values, used, r.value)
    ensures r.Some? ==> (WasTrue(values, used, r.value) <==> !Crosses(values, base, 0))
    ensures Crosses(values, base, 0) ==> r == Some(0) && used == 2
    ensures r.Some? && values[0] == values[used - 1] ==> r.value == values[0]
    ensures r.None? ==> |values| < 4 * (Growth(values) + 1)
  {
    hide Reading;
    var val, val1 := 0, 0;
    used := 0;
    var again := true;
    if |values| >= 2 {
      FirstReading(values, base, 0);
    }
    while again
      invariant used <= |values| && (again ==> used > 0 ==> 4 * (values[used - 1] - values[0]) >= used)
      invariant val > 0 ==> used >= 4 && values[used - 1] > 0
      invariant again && used > 0 ==> !Crosses(values, base, 0)
      invariant again && used > 0 && val == 0 ==> used >= 4 && values[used - 1] >= base
      invariant !again && val == 0 && !Crosses(values, base, 0) ==> WasTrue(values, used, 0)
      invariant !again && Crosses(values, base, 0) ==> val == 0 && used == 2
      invariant !again ==>
                  && 2 <= used && val <= values[used - 1]
                  && (val > 0 ==> WasTrue(values, used, val))
                  && (values[0] == values[used - 1] ==> val == values[0])
      decreases again, |values| - used
    {
      if used + 2 > |values| {
        return None, used;
      }
      ReadingFacts(values, used, base);
      val1 := Reading(values, used, base);
      if used > 0 && val == 0 {
        ReadingAtLeast(values, used, base);
      }
      if val1 != 0 {
        if used + 4 > |values| {
          return None, used;
        }
        val := Reading(values, used + 2, base);
        ReadingFacts(values, used + 2, base);
        if val == 0 {
          ZeroBehind(values, used, base);
        }
        used := used + 4;
      } else {
        used := used + 2;
      }
      again := val != val1;
    }
    r := Some(val);
  }

  /** The reading of the W6300 (`first` is 0) and of the W5300 (`first` is 1): a reading that
      equals the one before, or `first`, is the result. */
  method ReadRepeated(values: seq<nat>, base: nat, first: nat) returns (r: Option<nat>, used: nat)
    requires base > 1 && Growing(values)
    ensures r.Some? ==> 2 <= used <= |values| && r.value <= values[used - 1]
    ensures r.Some? ==>
              && r.value == Reading(values, used - 2, base)
              && r.value == (if used < 4 then first else Reading(values, used - 4, base))
    ensures r.Some? && r.value != first ==> WasTrue(values, used, r.value)
    ensures first < base && r.Some? ==> (WasTrue(values, used, r.value) <==> !Crosses(values, base, first))
    ensures first < base && Crosses(values, base, first) ==> r == Some(first) && used == 2
    ensures r.Some? && values[0] == values[used - 1] ==> r.value == values[0]
    ensures r.None? ==> |values| < 4 * (Growth(values) + 1)
  {
    hide Reading;
    var prev, val := first, first;
    used := 0;
    var again := true;
    if first < base && |values| >= 2 {
      FirstReading(values, base, first);
    }
    while again
      invariant used <= |values| && used != 1
      invariant used == 0 ==> val == first
      invariant used > 0 ==> val == Reading(values, used - 2, base)
      invariant again && used >= 2 ==> 4 * (values[used - 1] - values[0]) >= used - 2
      invariant again && used >= 4 ==> 4 * (values[used - 3] - values[0]) >= used - 4
      invariant first < base && used > 0 && (again || used > 2) ==> !Crosses(values, base, first)
      invariant !again ==>
                  && 2 <= used && val <= values[used - 1]
                  && (used == 2 ==> val == first)
                  && (used > 2 ==> used >= 4 && val == Reading(values, used - 4, base))
                  && (used > 2 ==> WasTrue(values, used, val))
                  && (values[0] == values[used - 1] ==> val == values[0])
      decreases again, |values| - used
    {
      if used + 2 > |values| {
        return None, used;
      }
      prev := val;
      val := Reading(values, used, base);
      ReadingFacts(values, used, base);
      if used > 0 {
        ReadingFacts(values, used - 2, base);
      }
      again := val != prev;
      used := used + 2;
    }
    if first < base && used == 2 && !Crosses(values, base, first) {
      assert values[0] == val || values[1] == val;
    }
    r := Some(val);
  }

  /** A register that never passes the base does not cross it to a remainder other than 0. */
  lemma NeverCrosses(values: seq<nat>, base: nat, first: nat)
    requires base > 1 && 0 < first && forall i | 0 <= i < |values| :: values[i] <= base
    ensures !Crosses(values, base, first)
  {
    if |values| >= 2 && values[1] == base {
      ModUnique(base, 1, 0, base);
    }
  }

  /** Beyond that the W5300 can return a 1 the register never held. */
  lemma FirstReadingCanBeWrong()
    ensures Growing([65535, 65537]) && Reading([65535, 65537], 0, 65536) == 1
    ensures !WasTrue([65535, 65537], 2, 1)
  {
    var values: seq<nat> := [65535, 65537];
    assert values[0] == 65535 && values[1] == 65537;
  }
}
