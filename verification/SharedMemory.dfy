/** Socket buffers inside one shared memory, as on the W5100: `wizchip_init` divides the
    memory, the base addresses are prefix sums of the sizes, and the copies of a socket go
    round inside its region. */
module SharedMemory {
  import opened Ring
  import opened Bits

  const SOCKS: nat := 4
  const TXBUF: nat := 0x4000
  const RXBUF: nat := 0x6000
  const MEMORY: nat := 0x2000

  // ------------------------------------------------------------- what a size register says

  /** `getSn_TXMEM_SIZE`: the two bits of socket `i`. */
  function SizeField(reg: byte, i: nat): nat { Field(reg, 2 * i) }

  /** `getSn_TxMAX`: 1, 2, 4 or 8 KB. */
  function MaxSize(reg: byte, i: nat): nat { 1024 * Power2(SizeField(reg, i)) }

  /** `getSn_TxBASE` less the start of the memory: the sizes of the sockets before. */
  function Base(reg: byte, i: nat): nat {
    if i == 0 then 0 else Base(reg, i - 1) + MaxSize(reg, i - 1)
  }

  lemma MaxSizeIsRing(reg: byte, i: nat)
    ensures RingSize(MaxSize(reg, i)) && 1024 <= MaxSize(reg, i) <= MEMORY
  {
    FieldIsSmall(reg, 2 * i);
    assert Power2(1) == 2 && Power2(2) == 4 && Power2(3) == 8;
  }

  lemma {:induction false} BaseGrows(reg: byte, i: nat, j: nat)
    requires i < j
    ensures Base(reg, i) + MaxSize(reg, i) <= Base(reg, j) <= MEMORY * j
    decreases j
  {
    MaxSizeIsRing(reg, j - 1);
    if i < j - 1 {
      BaseGrows(reg, i, j - 1);
    } else {
      BaseBound(reg, i);
    }
  }

  lemma {:induction false} BaseBound(reg: byte, i: nat)
    ensures Base(reg, i) <= MEMORY * i
  {
    if i > 0 {
      MaxSizeIsRing(reg, i - 1);
      BaseBound(reg, i - 1);
    }
  }

  /** Whatever the register holds, the regions of two sockets do not overlap, and all of
      them lie inside the memory exactly when the sizes add up to no more than it has. */
  lemma RegionsAreDisjoint(reg: byte, i: nat, j: nat)
    requires i < SOCKS && j < SOCKS
    ensures i != j ==>
              || Base(reg, i) + MaxSize(reg, i) <= Base(reg, j)
              || Base(reg, j) + MaxSize(reg, j) <= Base(reg, i)
    ensures (forall k | 0 <= k < SOCKS :: Base(reg, k) + MaxSize(reg, k) <= MEMORY)
            <==> Base(reg, SOCKS) <= MEMORY
  {
    if i < j {
      BaseGrows(reg, i, j);
    } else if j < i {
      BaseGrows(reg, j, i);
    }
    assert Base(reg, SOCKS) == Base(reg, SOCKS - 1) + MaxSize(reg, SOCKS - 1);
    forall k | 0 <= k < SOCKS
      ensures Base(reg, k) + MaxSize(reg, k) <= Base(reg, SOCKS)
    {
      BaseGrows(reg, k, SOCKS);
    }
  }

  // -------------------------------------------------------------------- what is asked for

  /** The value of an `int8_t` variable that is given `n`. */
  function Int8(n: int): (r: int)
    ensures -128 <= r < 128
  {
    (n + 128) % 256 - 128
  }

  /** The sum of the first `i` sizes as `wizchip_init` keeps it. */
  function Sum8(sizes: seq<byte>, i: nat): int
    requires i <= |sizes|
  {
    if i == 0 then 0 else Int8(Sum8(sizes, i - 1) + sizes[i - 1])
  }

  predicate Accepted(sizes: seq<byte>) {
    forall i | 0 < i <= |sizes| :: Sum8(sizes, i) <= 8
  }

  function Total(sizes: seq<byte>, i: nat): nat
    requires i <= |sizes|
  {
    if i == 0 then 0 else Total(sizes, i - 1) + sizes[i - 1]
  }

  /** No prefix sum leaves the range of an `int8_t`. */
  predicate NoWrap(sizes: seq<byte>) {
    forall i | 0 <= i <= |sizes| :: Total(sizes, i) < 128
  }

  lemma {:induction false} SumIsTotal(sizes: seq<byte>, i: nat)
    requires NoWrap(sizes) && i <= |sizes|
    ensures Sum8(sizes, i) == Total(sizes, i)
  {
    if i > 0 {
      SumIsTotal(sizes, i - 1);
    }
  }

  lemma {:induction false} TotalGrows(sizes: seq<byte>, i: nat, j: nat)
    requires i <= j <= |sizes|
    ensures Total(sizes, i) <= Total(sizes, j)
    ensures i < j ==> sizes[i] <= Total(sizes, j)
    decreases j
  {
    if i < j {
      TotalGrows(sizes, i, j - 1);
    }
  }

  /** The test is the one that is meant exactly when no prefix sum wraps: the sizes that add up
      to at most 8 are those that are accepted without wrapping. */
  lemma AcceptedIsSum(sizes: seq<byte>)
    ensures Accepted(sizes) && NoWrap(sizes) <==> Total(sizes, |sizes|) <= 8
  {
    forall i | 0 <= i <= |sizes|
      ensures Total(sizes, i) <= Total(sizes, |sizes|)
      ensures NoWrap(sizes) ==> Sum8(sizes, i) == Total(sizes, i)
    {
      TotalGrows(sizes, i, |sizes|);
      if NoWrap(sizes) {
        SumIsTotal(sizes, i);
      }
    }
    if Accepted(sizes) && NoWrap(sizes) && |sizes| > 0 {
      assert Sum8(sizes, |sizes|) <= 8;
    }
  }

  /** The largest power of two up to an entry, and 1 for an entry of 0. */
  function PowerOf(size: byte): nat {
    if size >= 128 then 128 else if size >= 64 then 64 else if size >= 32 then 32
    else if size >= 16 then 16 else if size >= 8 then 8 else if size >= 4 then 4
    else if size >= 2 then 2 else 1
  }

  /** The KB a socket gets for an entry: a field has two bits, so 16 KB and more count as that
      power of two divided by 16. */
  function Granted(size: byte): nat {
    if PowerOf(size) >= 16 then PowerOf(size) / 16 else PowerOf(size)
  }

  function GrantedTotal(sizes: seq<byte>, i: nat): nat
    requires i <= |sizes|
  {
    if i == 0 then 0 else GrantedTotal(sizes, i - 1) + Granted(sizes[i - 1])
  }

  /** The exponent the log loop finds for an entry. */
  predicate IsExponent(size: byte, j: nat) {
    j < 8 && Power2(j) == PowerOf(size)
  }

  lemma ExponentInField(size: byte, j: nat)
    requires IsExponent(size, j)
    ensures Power2(j % 4) == Granted(size)
  {
    assert Power2(1) == 2 && Power2(2) == 4 && Power2(3) == 8 && Power2(4) == 16;
    assert Power2(5) == 32 && Power2(6) == 64 && Power2(7) == 128;
  }

  /** The largest power of two up to a size is the only one the size divided by it is 1. */
  lemma ExponentFound(size: byte, j: nat)
    requires size != 0 && size / Power2(j) == 1 && j < 8
    ensures IsExponent(size, j)
  {
    assert Power2(1) == 2 && Power2(2) == 4 && Power2(3) == 8 && Power2(4) == 16;
    assert Power2(5) == 32 && Power2(6) == 64 && Power2(7) == 128;
  }

  lemma StillTwo(size: nat, p: nat)
    requires 0 < p <= size && size / p != 1
    ensures 2 * p <= size
  {
    if size < 2 * p {
      ModUnique(size, 1, size - p, p);
      QuotientOne(size, p);
    }
  }

  lemma QuotientOne(size: nat, p: nat)
    requires 0 < p <= size < 2 * p
    ensures size / p == 1
  {
    assert size == p * (size / p) + size % p;
  }

  lemma ZeroExponent(size: byte, j: nat)
    requires size == 0 ==> j == 0
    requires size != 0 ==> IsExponent(size, j)
    ensures IsExponent(size, j)
  {
  }

  lemma {:induction false} PowerAdds(n: nat, m: nat)
    ensures Power2(n + m) == Power2(n) * Power2(m)
  {
    if n > 0 {
      PowerAdds(n - 1, m);
      assert Power2(n) * Power2(m) == 2 * (Power2(n - 1) * Power2(m));
    }
  }

  lemma MaxSizeIsPower(reg: byte, i: nat)
    ensures MaxSize(reg, i) == Power2(SizeField(reg, i) + 10)
  {
    PowerAdds(SizeField(reg, i), 10);
    assert Power2(5) == 32;
    PowerAdds(5, 5);
  }

  /** The register that holds the granted sizes of all sockets. */
  predicate Holds(reg: byte, sizes: seq<byte>, i: nat)
    requires i <= |sizes|
  {
    forall k | 0 <= k < i :: Power2(SizeField(reg, k)) == Granted(sizes[k])
  }

  lemma {:induction false} BaseIsGranted(reg: byte, sizes: seq<byte>, i: nat)
    requires i <= |sizes| && Holds(reg, sizes, i)
    ensures Base(reg, i) == 1024 * GrantedTotal(sizes, i)
  {
    if i > 0 {
      BaseIsGranted(reg, sizes, i - 1);
    }
  }

  lemma {:induction false} GrantedAtMost(sizes: seq<byte>, i: nat)
    requires i <= |sizes| && forall k | 0 <= k < |sizes| :: sizes[k] >= 1
    ensures GrantedTotal(sizes, i) <= Total(sizes, i)
  {
    if i > 0 {
      GrantedAtMost(sizes, i - 1);
    }
  }

  predicate AllPositive(sizes: seq<byte>) { forall k | 0 <= k < |sizes| :: sizes[k] >= 1 }

  /** An allocation of one memory, whatever was asked for: the four regions are pairwise
      disjoint, and they all lie inside the memory exactly when the granted sizes add up to at
      most 8.  They do if the sizes asked for add up to at most 8 and none of them is 0. */
  lemma AllocationIsSafe(reg: byte, sizes: seq<byte>)
    requires |sizes| == SOCKS && Holds(reg, sizes, SOCKS)
    ensures forall i, j | 0 <= i < j < SOCKS :: Base(reg, i) + MaxSize(reg, i) <= Base(reg, j)
    ensures (forall k | 0 <= k < SOCKS :: Base(reg, k) + MaxSize(reg, k) <= MEMORY)
            <==> GrantedTotal(sizes, SOCKS) <= 8
    ensures AllPositive(sizes) && Total(sizes, SOCKS) <= 8 ==> GrantedTotal(sizes, SOCKS) <= 8
  {
    forall i, j | 0 <= i < j < SOCKS
      ensures Base(reg, i) + MaxSize(reg, i) <= Base(reg, j)
    {
      BaseGrows(reg, i, j);
    }
    RegionsAreDisjoint(reg, 0, 0);
    BaseIsGranted(reg, sizes, SOCKS);
    if AllPositive(sizes) {
      GrantedAtMost(sizes, SOCKS);
    }
  }

  /** One socket that asks for everything and three that ask for nothing are accepted, and
      the last three regions lie outside the memory. */
  lemma ZeroEntriesOverflow(reg: byte)
    requires Holds(reg, [8, 0, 0, 0], SOCKS)
    ensures Accepted([8, 0, 0, 0]) && NoWrap([8, 0, 0, 0])
    ensures Base(reg, 1) == MEMORY && GrantedTotal([8, 0, 0, 0], 4) == 11
  {
    var sizes: seq<byte> := [8, 0, 0, 0];
    assert Sum8(sizes, 1) == Sum8(sizes, 2) == Sum8(sizes, 3) == Sum8(sizes, 4) == 8;
    assert Total(sizes, 1) == Total(sizes, 2) == Total(sizes, 3) == Total(sizes, 4) == 8;
    assert GrantedTotal(sizes, 1) == 8 && GrantedTotal(sizes, 2) == 9 && GrantedTotal(sizes, 3) == 10;
    BaseIsGranted(reg, sizes, 1);
  }

  /** A sum that wraps is accepted although it is far too large, and grants 32 KB ... */
  lemma WrappedSumIsAccepted()
    ensures Accepted([200, 8, 8, 8]) && Total([200, 8, 8, 8], 4) == 224
    ensures GrantedTotal([200, 8, 8, 8], 4) == 32
  {
    var sizes: seq<byte> := [200, 8, 8, 8];
    assert Sum8(sizes, 1) == -56 && Sum8(sizes, 2) == -48 && Sum8(sizes, 3) == -40 && Sum8(sizes, 4) == -32;
    assert Total(sizes, 1) == 200 && Total(sizes, 2) == 208 && Total(sizes, 3) == 216;
    assert GrantedTotal(sizes, 1) == 8 && GrantedTotal(sizes, 2) == 16 && GrantedTotal(sizes, 3) == 24;
  }

  /** ... and another one is accepted and grants no more than there is. */
  lemma WrappedSumCanFit()
    ensures Accepted([1, 127, 1, 1]) && Total([1, 127, 1, 1], 4) == 130
    ensures GrantedTotal([1, 127, 1, 1], 4) == 7
  {
    var sizes: seq<byte> := [1, 127, 1, 1];
    assert Sum8(sizes, 1) == 1 && Sum8(sizes, 2) == -128 && Sum8(sizes, 3) == -127 && Sum8(sizes, 4) == -126;
    assert Total(sizes, 1) == 1 && Total(sizes, 2) == 128 && Total(sizes, 3) == 129;
    assert GrantedTotal(sizes, 1) == 1 && GrantedTotal(sizes, 2) == 5 && GrantedTotal(sizes, 3) == 6;
  }

  // --------------------------------------------------------------- copies inside a region

  /** Which byte of a ring write from pointer `p` on lands in cell `j`. */
  lemma IndexOfCell(p: nat, j: nat, size: nat)
    requires j < size
    ensures (j - p) % size == if j >= p % size then j - p % size else j - p % size + size
  {
    var q, m := p / size, p % size;
    assert p == size * q + m;
    assert size * -q == -(size * q) && size * (-q - 1) == -(size * q) - size;
    ModUnique(j - p, if j >= m then -q else -q - 1, if j >= m then j - m else j - m + size, size);
  }

  /** Two straight copies, the second from the start of the region on, are one ring write. */
  lemma SplitWrite(view: seq<byte>, p: nat, data: seq<byte>)
    requires 0 < |view| && |data| <= |view|
    ensures var m := p % |view|;
            RingWrite(view, p, data) ==
              if m + |data| > |view| then
                data[|view| - m..] + view[m + |data| - |view|..m] + data[..|view| - m]
              else view[..m] + data + view[m + |data|..]
  {
    var size, m, n := |view|, p % |view|, |data|;
    var split := if m + n > size then data[size - m..] + view[m + n - size..m] + data[..size - m]
                 else view[..m] + data + view[m + n..];
    assert |split| == size;
    forall j | 0 <= j < size
      ensures RingWrite(view, p, data)[j] == split[j]
    {
      IndexOfCell(p, j, size);
      var i := (j - p) % size;
      assert RingWrite(view, p, data)[j] == if i < n then data[i] else view[j];
    }
  }

  lemma SplitRead(view: seq<byte>, p: nat, n: nat)
    requires 0 < |view| && n <= |view|
    ensures var m := p % |view|;
            RingRead(view, p, n) ==
              if m + n > |view| then view[m..] + view[..m + n - |view|] else view[m..m + n]
  {
    var size, m := |view|, p % |view|;
    assert p == size * (p / size) + m;
    forall i | 0 <= i < n
      ensures Cell(p, i, size) == if m + i < size then m + i else m + i - size
    {
      var q := p / size;
      assert size * (q + 1) == size * q + size;
      ModUnique(p + i, if m + i < size then q else q + 1, if m + i < size then m + i else m + i - size, size);
    }
  }

  /** The memory `all` after `data` has been copied to address `at`. */
  function Patch(all: seq<byte>, at: nat, data: seq<byte>): (r: seq<byte>)
    requires at + |data| <= |all|
    ensures |r| == |all|
  {
    all[..at] + data + all[at + |data|..]
  }

  /** The memory after one copy into the region between `front` and `back`. */
  lemma OneCopy(front: seq<byte>, view: seq<byte>, back: seq<byte>, m: nat, data: seq<byte>)
    requires m + |data| <= |view|
    ensures Patch(front + view + back, |front| + m, data)
            == front + (view[..m] + data + view[m + |data|..]) + back
  {
    var all, at := front + view + back, |front| + m;
    assert all[..at] == front + view[..m];
    assert all[at + |data|..] == view[m + |data|..] + back;
  }

  /** The memory after a copy up to the end of the region and one from its start on. */
  lemma TwoCopies(front: seq<byte>, view: seq<byte>, back: seq<byte>, m: nat, data: seq<byte>)
    requires m <= |view| < m + |data| && |data| <= |view|
    ensures var n := |view| - m;
            Patch(Patch(front + view + back, |front| + m, data[..n]), |front|, data[n..])
            == front + (data[n..] + view[m + |data| - |view|..m] + data[..n]) + back
  {
    var n, r := |view| - m, m + |data| - |view|;
    OneCopy(front, view, back, m, data[..n]);
    var once := view[..m] + data[..n] + view[m + n..];
    OneCopy(front, once, back, 0, data[n..]);
    assert once[r..] == view[r..m] + data[..n];
    assert once[..0] + data[n..] + once[r..] == data[n..] + view[r..m] + data[..n];
  }

  lemma SliceInSlice(all: seq<byte>, start: nat, size: nat, from: nat, n: nat)
    requires start + size <= |all| && from + n <= size
    ensures all[start..start + size][from..from + n] == all[start + from..start + from + n]
  {
    var a, b := all[start..start + size][from..from + n], all[start + from..start + from + n];
    forall k | 0 <= k < n
      ensures a[k] == b[k]
    {
      assert all[start..start + size][from + k] == all[start + from + k];
    }
  }

  /** The reads that make up a ring read of the region. */
  lemma RegionRead(all: seq<byte>, base: nat, size: nat, p: nat, n: nat)
    requires 0 < size && base + size <= |all| && n <= size
    ensures var m, view := p % size, all[base..base + size];
            RingRead(view, p, n) ==
              if m + n > size then all[base + m..base + size] + all[base..base + m + n - size]
              else all[base + m..base + m + n]
  {
    var m, view := p % size, all[base..base + size];
    SplitRead(view, p, n);
    if m + n > size {
      SliceInSlice(all, base, size, m, size - m);
      SliceInSlice(all, base, size, 0, m + n - size);
      assert view[m..] == view[m..m + (size - m)];
    } else {
      SliceInSlice(all, base, size, m, n);
    }
  }

  /** A region put together again from the memory. */
  lemma Parts(all: seq<byte>, front: seq<byte>, view: seq<byte>, back: seq<byte>)
    requires all == front + view + back
    ensures all[..|front|] == front && all[|front|..|front| + |view|] == view
    ensures all[|front| + |view|..] == back
  {
  }

  lemma Written(front: seq<byte>, view: seq<byte>, back: seq<byte>, p: nat, data: seq<byte>)
    requires 0 < |view| && |data| <= |view|
    ensures var m, all, base := p % |view|, front + view + back, |front|;
            front + RingWrite(view, p, data) + back ==
              if m + |data| > |view|
              then Patch(Patch(all, base + m, data[..|view| - m]), base, data[|view| - m..])
              else Patch(all, base + m, data)
  {
    hide Patch, RingWrite;
    var m := p % |view|;
    SplitWrite(view, p, data);
    if m + |data| > |view| {
      TwoCopies(front, view, back, m, data);
    } else {
      OneCopy(front, view, back, m, data);
    }
  }

  /** The copies that make up a ring write of the region: what the region holds afterwards,
      and that nothing outside it has changed. */
  lemma RegionWritten(all: seq<byte>, base: nat, size: nat, p: nat, data: seq<byte>)
    requires 0 < size && base + size <= |all| && |data| <= size
    ensures var m := p % size;
            var after := if m + |data| > size
                         then Patch(Patch(all, base + m, data[..size - m]), base, data[size - m..])
                         else Patch(all, base + m, data);
            && after[base..base + size] == RingWrite(all[base..base + size], p, data)
            && after[..base] == all[..base] && after[base + size..] == all[base + size..]
  {
    hide Patch, RingWrite;
    var m, front, view, back := p % size, all[..base], all[base..base + size], all[base + size..];
    var ring := RingWrite(view, p, data);
    var after := if m + |data| > size
                 then Patch(Patch(all, base + m, data[..size - m]), base, data[size - m..])
                 else Patch(all, base + m, data);
    Written(front, view, back, p, data);
    assert all == front + view + back;
    Parts(after, front, ring, back);
  }

  lemma FitsSpace(reg: byte, sn: nat)
    requires sn < SOCKS
    ensures RXBUF + Base(reg, sn) + MaxSize(reg, sn) <= WORD
  {
    BaseGrows(reg, sn, SOCKS);
  }

  /** The regions 0 to 3 are those of the transmit memory, 4 to 7 those of the receive memory. */
  function Start(tmsr: byte, rmsr: byte, k: nat): nat {
    if k < SOCKS then TXBUF + Base(tmsr, k) else RXBUF + Base(rmsr, k - SOCKS)
  }

  function Size(tmsr: byte, rmsr: byte, k: nat): nat {
    if k < SOCKS then MaxSize(tmsr, k) else MaxSize(rmsr, k - SOCKS)
  }

  /** No two of the eight regions share a byte. */
  predicate AllApart(tmsr: byte, rmsr: byte) {
    forall i, j | 0 <= i < j < 2 * SOCKS ::
      Start(tmsr, rmsr, i) + Size(tmsr, rmsr, i) <= Start(tmsr, rmsr, j)
  }

  /** The memories lie at 0x4000 and 0x6000 and end at 0x8000; the eight regions are pairwise
      disjoint exactly when the transmit regions lie inside their memory. */
  lemma MemoriesApart(tmsr: byte, rmsr: byte)
    ensures 0x4000 == TXBUF && TXBUF + MEMORY == RXBUF == 0x6000 && RXBUF + MEMORY == 0x8000
    ensures AllApart(tmsr, rmsr) <==> Base(tmsr, SOCKS) <= MEMORY
  {
    hide Base, MaxSize;
    LastEnds(tmsr);
    LastEnds(rmsr);
    if Base(tmsr, SOCKS) <= MEMORY {
      forall i, j | 0 <= i < j < 2 * SOCKS
        ensures Start(tmsr, rmsr, i) + Size(tmsr, rmsr, i) <= Start(tmsr, rmsr, j)
      {
        if j < SOCKS {
          BaseGrows(tmsr, i, j);
        } else if i >= SOCKS {
          BaseGrows(rmsr, i - SOCKS, j - SOCKS);
        } else {
          BaseGrows(tmsr, i, SOCKS);
        }
      }
    }
    if AllApart(tmsr, rmsr) {
      assert Start(tmsr, rmsr, 3) + Size(tmsr, rmsr, 3) <= Start(tmsr, rmsr, 4);
    }
  }

  lemma LastEnds(reg: byte)
    ensures Base(reg, SOCKS) == Base(reg, 3) + MaxSize(reg, 3) && Base(reg, 0) == 0
  {
    hide MaxSize;
  }

  /** A change inside a transmit region that lies inside the transmit memory leaves the receive
      regions of all sockets alone. */
  lemma ReceiveUntouched(before: seq<byte>, after: seq<byte>, tmsr: byte, rmsr: byte, sn: nat)
    requires sn < SOCKS && |before| == |after| == WORD
    requires Base(tmsr, sn) + MaxSize(tmsr, sn) <= MEMORY
    requires after[..TXBUF + Base(tmsr, sn)] == before[..TXBUF + Base(tmsr, sn)]
    requires after[TXBUF + Base(tmsr, sn) + MaxSize(tmsr, sn)..]
             == before[TXBUF + Base(tmsr, sn) + MaxSize(tmsr, sn)..]
    ensures forall k: nat | k < SOCKS ::
              var at, size := RXBUF + Base(rmsr, k), MaxSize(rmsr, k);
              at + size <= WORD && after[at..at + size] == before[at..at + size]
  {
    hide Base, MaxSize;
    forall k: nat | k < SOCKS
      ensures var at, size := RXBUF + Base(rmsr, k), MaxSize(rmsr, k);
              at + size <= WORD && after[at..at + size] == before[at..at + size]
    {
      FitsSpace(rmsr, k);
      SliceOutside(before, after, TXBUF + Base(tmsr, sn), MaxSize(tmsr, sn), RXBUF + Base(rmsr, k),
                   MaxSize(rmsr, k));
    }
  }

  /** A change inside the region of one socket leaves the regions of the others alone. */
  lemma OthersUntouched(before: seq<byte>, after: seq<byte>, reg: byte, start: nat, sn: nat)
    requires sn < SOCKS && start <= RXBUF && |before| == |after| == WORD
    requires start + Base(reg, sn) + MaxSize(reg, sn) <= WORD
    requires after[..start + Base(reg, sn)] == before[..start + Base(reg, sn)]
    requires after[start + Base(reg, sn) + MaxSize(reg, sn)..] == before[start + Base(reg, sn) + MaxSize(reg, sn)..]
    ensures forall k: nat | k < SOCKS && k != sn ::
              var at, size := start + Base(reg, k), MaxSize(reg, k);
              at + size <= WORD && after[at..at + size] == before[at..at + size]
  {
    hide Base, MaxSize;
    forall k: nat | k < SOCKS && k != sn
      ensures var at, size := start + Base(reg, k), MaxSize(reg, k);
              at + size <= WORD && after[at..at + size] == before[at..at + size]
    {
      FitsSpace(reg, k);
      RegionsAreDisjoint(reg, sn, k);
      SliceOutside(before, after, start + Base(reg, sn), MaxSize(reg, sn), start + Base(reg, k), MaxSize(reg, k));
    }
  }

  lemma SliceOutside(before: seq<byte>, after: seq<byte>, base: nat, size: nat, at: nat, n: nat)
    requires |before| == |after| && base + size <= |before| && at + n <= |before|
    requires after[..base] == before[..base] && after[base + size..] == before[base + size..]
    requires at + n <= base || base + size <= at
    ensures after[at..at + n] == before[at..at + n]
  {
    if at + n <= base {
      assert after[at..at + n] == after[..base][at..at + n];
      assert before[at..at + n] == before[..base][at..at + n];
    } else {
      var d := at - base - size;
      assert after[at..at + n] == after[base + size..][d..d + n];
      assert before[at..at + n] == before[base + size..][d..d + n];
    }
  }
}
