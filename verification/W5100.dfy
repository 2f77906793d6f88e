/** The W5100: memory and size registers, and the functions that copy to and from them. */
module W5100 {
  import opened Options
  import opened Ring
  import opened Bits
  import opened SharedMemory
  import SpiFrames

  /** How `wizchip_init` ends; in the last case it does not return. */
  datatype InitEnd = InitDone | Refused | Stuck

  /** All regions of a memory are inside it and pairwise disjoint. */
  predicate Divided(reg: byte) {
    && (forall k | 0 <= k < SOCKS :: Base(reg, k) + MaxSize(reg, k) <= MEMORY)
    && (forall i, j | 0 <= i < j < SOCKS :: Base(reg, i) + MaxSize(reg, i) <= Base(reg, j))
  }

  /** The entries the RX loop goes by: one whose TX entry is 0 counts as 0. */
  function Seen(txsize: seq<byte>, sizes: seq<byte>): (r: seq<byte>)
    requires |txsize| == |sizes|
    ensures |r| == |sizes|
  {
    seq(|sizes|, k requires 0 <= k < |sizes| => if txsize[k] == 0 then 0 else sizes[k])
  }

  lemma AllSeen(txsize: seq<byte>, sizes: seq<byte>)
    requires |txsize| == |sizes| && AllPositive(txsize)
    ensures Seen(txsize, sizes) == sizes
  {
  }

  /** The memory is divided exactly when the granted sizes fit. */
  lemma DividedWhen(reg: byte, sizes: seq<byte>)
    requires |sizes| == SOCKS && Holds(reg, sizes, SOCKS)
    ensures Divided(reg) <==> GrantedTotal(sizes, SOCKS) <= 8
    ensures AllPositive(sizes) && Total(sizes, SOCKS) <= 8 ==> Divided(reg)
  {
    AllocationIsSafe(reg, sizes);
  }

  /** The eight regions of the two memories are apart exactly when the transmit sizes fit. */
  lemma ApartWhen(tmsr: byte, rmsr: byte, txsize: seq<byte>)
    requires |txsize| == SOCKS && Holds(tmsr, txsize, SOCKS)
    ensures AllApart(tmsr, rmsr) <==> GrantedTotal(txsize, SOCKS) <= 8
  {
    hide Base, AllApart;
    MemoriesApart(tmsr, rmsr);
    BaseIsGranted(tmsr, txsize, SOCKS);
  }

  /** Writing the size of socket `i` leaves the sizes of the sockets before it; what its third
      bit does to the field behind is undone by the next write. */
  lemma HoldsOneMore(reg: byte, sizes: seq<byte>, i: nat, j: nat)
    requires i < |sizes| == SOCKS && Holds(reg, sizes, i) && IsExponent(sizes[i], j)
    ensures Holds(WithField(reg, 2 * i, j) % 256, sizes, i + 1)
  {
    var r := WithField(reg, 2 * i, j);
    assert Power2(8) == 256;
    ExponentInField(sizes[i], j);
    forall k | 0 <= k < i + 1
      ensures Power2(SizeField(r % 256, k)) == Granted(sizes[k])
    {
      FieldAfterWrite(reg, 2 * i, j, 2 * k);
      FieldBelow(r, 8, 2 * k);
      assert k < i ==> Power2(SizeField(reg, k)) == Granted(sizes[k]);
    }
  }

  /** The frames `WIZCHIP_WRITE_BUF` sends make the chip store exactly this patch. */
  lemma FramesStorePatch(all: seq<byte>, addr: word, buf: seq<byte>)
    requires |all| == WORD && addr + |buf| <= WORD && |buf| < WORD
    ensures SpiFrames.DecodeAll(SpiFrames.W5100, all, SpiFrames.Singles(SpiFrames.W5100, addr, buf))
            == Patch(all, addr, buf)
  {
    SpiFrames.DecodeSingles(SpiFrames.W5100, all, addr, buf);
    var stored, patched := SpiFrames.StoreAt(all, addr, buf), Patch(all, addr, buf);
    hide *;
    forall j | 0 <= j < WORD
      ensures stored[j] == patched[j]
    {
      CellOfPatch(all, addr, buf, j);
    }
  }

  lemma CellOfPatch(all: seq<byte>, addr: word, buf: seq<byte>, j: nat)
    requires |all| == WORD && addr + |buf| <= WORD && |buf| < WORD && j < WORD
    ensures SpiFrames.StoreAt(all, addr, buf)[j] == Patch(all, addr, buf)[j]
  {
    SpiFrames.StoredCells(all, addr, buf, j);
    hide SpiFrames.StoreAt;
  }

  lemma HoldsNone(reg: byte, sizes: seq<byte>)
    ensures Holds(reg, sizes, 0)
  {
  }

  class Chip {
    const space: array<byte>
    /** The SPI bus the host writes the memory through. */
    const bus: SpiFrames.Spi
    var tmsr: byte
    var rmsr: byte
    var txWr: seq<word>
    var rxRd: seq<word>

    constructor (tmsr: byte, rmsr: byte)
      ensures Valid() && fresh(space) && fresh(bus) && this.tmsr == tmsr && this.rmsr == rmsr
    {
      space := new byte[WORD](_ => 0);
      bus := new SpiFrames.Spi(false);
      this.tmsr, this.rmsr := tmsr, rmsr;
      txWr, rxRd := [0, 0, 0, 0], [0, 0, 0, 0];
    }

    ghost predicate Valid()
      reads this, bus
    {
      space.Length == WORD && |txWr| == |rxRd| == SOCKS && bus.current == []
    }

    // ------------------------------------------------------------------------- allocation

    /** The loop that turns a size into an exponent; `other` is the entry its second test
        looks at.  It does not end for a size of 0 when that entry is not 0, because no shift of
        0 is 1. */
    method Exponent(size: byte, other: byte) returns (j: nat, ends: bool)
      ensures ends <==> size != 0 || other == 0
      ensures !ends ==> other != 0 && forall k: nat :: size / Power2(k) != 1
      ensures other == 0 ==> j == 0
      ensures size != 0 && other != 0 ==> IsExponent(size, j)
    {
      j := 0;
      if other == 0 {
        return 0, true;
      }
      if size == 0 {
        return 0, false;
      }
      assert Power2(7) == 128;
      while size / Power2(j) != 1
        invariant Power2(j) <= size && j < 8
        decreases size - Power2(j)
      {
        StillTwo(size, Power2(j));
        if j == 7 {
          assert false;
        }
        j := j + 1;
      }
      ExponentFound(size, j);
      ends := true;
    }

    /** `wizchip_init`.  Whatever sizes are accepted, the fields hold the granted ones, and a
        memory is divided into disjoint regions inside it exactly when those add up to at most
        8, as they do for sizes that add up to at most 8 and are all at least 1.  The call does
        not return when an RX entry is 0 and its TX entry is not, because the second test of
        the RX loop looks at the TX entry. */
    method WizchipInit(txsize: Option<seq<byte>>, rxsize: Option<seq<byte>>) returns (r: InitEnd)
      requires Valid()
      requires txsize.Some? ==> |txsize.value| == SOCKS
      requires rxsize.Some? ==> |rxsize.value| == SOCKS && txsize.Some?
      modifies this`tmsr, this`rmsr
      ensures r.Refused? <==>
                || (txsize.Some? && !Accepted(txsize.value))
                || (rxsize.Some? && !Accepted(rxsize.value))
      ensures r.Stuck? <==>
                && rxsize.Some? && Accepted(txsize.value) && Accepted(rxsize.value)
                && exists i | 0 <= i < SOCKS :: txsize.value[i] != 0 && rxsize.value[i] == 0
      ensures txsize.Some? && Accepted(txsize.value) ==>
                && Holds(tmsr, txsize.value, SOCKS)
                && (Divided(tmsr) <==> GrantedTotal(txsize.value, SOCKS) <= 8)
                && (AllPositive(txsize.value) && Total(txsize.value, SOCKS) <= 8 ==> Divided(tmsr))
      ensures r.InitDone? && rxsize.Some? ==>
                var seen := Seen(txsize.value, rxsize.value);
                && Holds(rmsr, seen, SOCKS)
                && (Divided(rmsr) <==> GrantedTotal(seen, SOCKS) <= 8)
                && (AllPositive(txsize.value) && Total(rxsize.value, SOCKS) <= 8 ==> Divided(rmsr))
                && (AllApart(tmsr, rmsr) <==> GrantedTotal(txsize.value, SOCKS) <= 8)
      ensures txsize.None? ==> tmsr == old(tmsr)
      ensures r.Refused? || rxsize.None? ==> rmsr == old(rmsr)
    {
      hide Divided, Holds, Accepted, AllApart;
      if txsize.Some? {
        var fits := CheckSum(txsize.value);
        if !fits {
          return Refused;
        }
        SetTxSizes(txsize.value);
        DividedWhen(tmsr, txsize.value);
      }
      if rxsize.Some? {
        var fits := CheckSum(rxsize.value);
        if !fits {
          return Refused;
        }
        var ends := SetRxSizes(txsize.value, rxsize.value);
        if !ends {
          return Stuck;
        }
        ghost var seen := Seen(txsize.value, rxsize.value);
        DividedWhen(rmsr, seen);
        ApartWhen(tmsr, rmsr, txsize.value);
        if AllPositive(txsize.value) {
          AllSeen(txsize.value, rxsize.value);
        }
      }
      r := InitDone;
    }

    method CheckSum(sizes: seq<byte>) returns (fits: bool)
      ensures fits <==> Accepted(sizes)
    {
      var tmp := 0;
      for i := 0 to |sizes|
        invariant tmp == Sum8(sizes, i)
        invariant forall k | 0 < k <= i :: Sum8(sizes, k) <= 8
      {
        tmp := Int8(tmp + sizes[i]);
        if tmp > 8 {
          assert Sum8(sizes, i + 1) > 8;
          return false;
        }
      }
      fits := true;
    }

    method SetTxSizes(sizes: seq<byte>)
      requires |sizes| == SOCKS
      modifies this`tmsr
      ensures Holds(tmsr, sizes, SOCKS)
    {
      hide Holds, IsExponent, WithField;
      HoldsNone(tmsr, sizes);
      for i := 0 to SOCKS
        invariant Holds(tmsr, sizes, i)
      {
        var j, ends := Exponent(sizes[i], sizes[i]);
        ZeroExponent(sizes[i], j);
        HoldsOneMore(tmsr, sizes, i, j);
        tmsr := WithField(tmsr, 2 * i, j) % 256;
      }
    }

    method SetRxSizes(txsize: seq<byte>, sizes: seq<byte>) returns (ends: bool)
      requires |txsize| == |sizes| == SOCKS
      modifies this`rmsr
      ensures ends <==> forall i | 0 <= i < SOCKS :: txsize[i] == 0 || sizes[i] != 0
      ensures ends ==> Holds(rmsr, Seen(txsize, sizes), SOCKS)
    {
      hide Holds, IsExponent, WithField;
      ghost var seen := Seen(txsize, sizes);
      HoldsNone(rmsr, seen);
      for i := 0 to SOCKS
        invariant forall k | 0 <= k < i :: txsize[k] == 0 || sizes[k] != 0
        invariant Holds(rmsr, seen, i)
      {
        var j;
        j, ends := Exponent(sizes[i], txsize[i]);
        if !ends {
          return;
        }
        ZeroExponent(seen[i], j);
        HoldsOneMore(rmsr, seen, i, j);
        rmsr := WithField(rmsr, 2 * i, j) % 256;
      }
      ends := true;
    }

    // ----------------------------------------------------------------------------- copies

    /** `getSn_TxBASE` */
    method TxBase(sn: nat) returns (txbase: nat)
      requires sn < SOCKS
      ensures txbase == TXBUF + Base(tmsr, sn) == 0x4000 + Base(tmsr, sn)
    {
      txbase := TXBUF;
      for i := 0 to sn
        invariant txbase == TXBUF + Base(tmsr, i)
      {
        txbase := txbase + MaxSize(tmsr, i);
      }
    }

    /** `getSn_RxBASE` */
    method RxBase(sn: nat) returns (rxbase: nat)
      requires sn < SOCKS
      ensures rxbase == RXBUF + Base(rmsr, sn) == 0x6000 + Base(rmsr, sn)
    {
      rxbase := RXBUF;
      for i := 0 to sn
        invariant rxbase == RXBUF + Base(rmsr, i)
      {
        rxbase := rxbase + MaxSize(rmsr, i);
      }
    }

    /** The whole memory as a value. */
    ghost function All(): (all: seq<byte>)
      ensures |all| == space.Length
      reads space
    {
      space[..]
    }

    /** The bytes of one region. */
    ghost function View(start: nat, size: nat): (v: seq<byte>)
      ensures start + size <= space.Length ==> |v| == size
      reads space
    {
      if start + size <= space.Length then All()[start..start + size] else []
    }

    /** What the chip does with the frames it is sent: it stores the byte of each. */
    method Execute(frames: seq<SpiFrames.Frame>)
      requires space.Length == WORD
      modifies space
      ensures All() == SpiFrames.DecodeAll(SpiFrames.W5100, old(All()), frames)
    {
      hide SpiFrames.Decode, SpiFrames.DecodeAll;
      ghost var start := All();
      assert SpiFrames.DecodeAll(SpiFrames.W5100, start, frames[..0]) == start by {
        SpiFrames.DecodeNone(SpiFrames.W5100, start);
      }
      for i := 0 to |frames|
        invariant All() == SpiFrames.DecodeAll(SpiFrames.W5100, start, frames[..i])
      {
        SpiFrames.DecodeSnoc(SpiFrames.W5100, start, frames[..i], frames[i]);
        assert frames[..i] + [frames[i]] == frames[..i + 1];
        Store(frames[i]);
      }
      assert frames[..|frames|] == frames;
    }

    /** One frame: an opcode, an address and a byte. */
    method Store(f: SpiFrames.Frame)
      requires space.Length == WORD
      modifies space
      ensures All() == SpiFrames.Decode(SpiFrames.W5100, old(All()), f)
    {
      if |f| == 4 && f[0] == SpiFrames.WRITE_OP {
        ghost var before := All();
        var addr := Pair(f[1], f[2]);
        space[addr] := f[3];
        assert All() == before[addr := f[3]];
        assert f[3..] == [f[3]];
        SpiFrames.StoreOne(before, addr, f[3]);
      }
    }

    /** `WIZCHIP_WRITE_BUF`: a byte a frame, at consecutive addresses, and the chip stores it. */
    method WriteBuf(addr: word, buf: seq<byte>)
      requires Valid() && addr + |buf| <= WORD && |buf| < WORD
      modifies space, bus
      ensures Valid() && All() == Patch(old(All()), addr, buf)
    {
      FramesStorePatch(All(), addr, buf);
      hide Patch, SpiFrames.Singles, SpiFrames.DecodeAll;
      ghost var sent := bus.frames;
      var count := |bus.frames|;
      bus.WriteBufW5100(addr, buf);
      assert bus.frames[count..] == SpiFrames.Singles(SpiFrames.W5100, addr, buf);
      Execute(bus.frames[count..]);
    }

    /** `WIZCHIP_READ_BUF` */
    method ReadBuf(addr: nat, len: nat) returns (buf: seq<byte>)
      requires addr + len <= space.Length
      ensures buf == All()[addr..addr + len]
    {
      buf := [];
      for i := 0 to len
        invariant buf == All()[addr..addr + i]
      {
        buf := buf + [space[addr + i]];
      }
    }

    /** `ptr & getSn_TxMASK` */
    method Masked(ptr: word, reg: byte, sn: nat) returns (m: nat)
      ensures m == ptr % MaxSize(reg, sn)
    {
      MaxSizeIsPower(reg, sn);
      MaskIsRemainder(ptr, SizeField(reg, sn) + 10);
      m := And(ptr, MaxSize(reg, sn) - 1);
    }

    /** The copies of `wiz_send_data`: straight on from offset `m` of the region of the socket,
        and from its start on for what does not fit there. */
    method CopyIn(sn: nat, m: nat, wizdata: seq<byte>)
      requires Valid() && sn < SOCKS && m < MaxSize(tmsr, sn) && |wizdata| <= MaxSize(tmsr, sn) <= MEMORY
      requires TXBUF + Base(tmsr, sn) + MaxSize(tmsr, sn) <= WORD
      modifies space, bus
      ensures Valid()
      ensures var base, size := TXBUF + Base(tmsr, sn), MaxSize(tmsr, sn);
              All() == if m + |wizdata| > size
                       then Patch(Patch(old(All()), base + m, wizdata[..size - m]), base, wizdata[size - m..])
                       else Patch(old(All()), base + m, wizdata)
    {
      hide MaxSize, Base, Patch, All;
      var base := TxBase(sn);
      var dstPtr := base + m;
      if m + |wizdata| > MaxSize(tmsr, sn) {
        var size := MaxSize(tmsr, sn) - m;
        WriteBuf(dstPtr, wizdata[..size]);
        dstPtr := TxBase(sn);
        WriteBuf(dstPtr, wizdata[size..]);
      } else {
        WriteBuf(dstPtr, wizdata);
      }
    }

    /** The part of `wiz_send_data` that writes the memory, from the write pointer `ptr` on. */
    method WriteRegion(sn: nat, ptr: word, wizdata: seq<byte>)
      requires Valid() && sn < SOCKS && |wizdata| <= MaxSize(tmsr, sn)
      modifies space, bus
      ensures Valid()
      ensures var base, size := TXBUF + Base(tmsr, sn), MaxSize(tmsr, sn);
              && base + size <= WORD
              && View(base, size) == RingWrite(old(View(base, size)), ptr, wizdata)
              && All()[..base] == old(All())[..base] && All()[base + size..] == old(All())[base + size..]
    {
      hide MaxSize, Base, RingWrite, Wrap, Patch, All;
      MaxSizeIsRing(tmsr, sn);
      FitsSpace(tmsr, sn);
      var dstMask := Masked(ptr, tmsr, sn);
      RegionWritten(All(), TXBUF + Base(tmsr, sn), MaxSize(tmsr, sn), ptr, wizdata);
      CopyIn(sn, dstMask, wizdata);
    }

    /** `wiz_send_data`: the region of the socket is written as a ring, nothing outside it
        changes, and the write pointer moves on in sixteen bits.  The receive regions are left
        alone if the region lies inside the transmit memory. */
    method WizSendData(sn: nat, wizdata: seq<byte>)
      requires Valid() && sn < SOCKS && |wizdata| <= MaxSize(tmsr, sn)
      modifies space, bus, this`txWr
      ensures Valid() && txWr == old(txWr)[sn := Wrap(old(txWr)[sn] + |wizdata|)]
      ensures var base, size := TXBUF + Base(tmsr, sn), MaxSize(tmsr, sn);
              && base + size <= WORD
              && View(base, size) == RingWrite(old(View(base, size)), old(txWr)[sn], wizdata)
              && All()[..base] == old(All())[..base] && All()[base + size..] == old(All())[base + size..]
      ensures forall k: nat | k < SOCKS && k != sn ::
                View(TXBUF + Base(tmsr, k), MaxSize(tmsr, k)) == old(View(TXBUF + Base(tmsr, k), MaxSize(tmsr, k)))
      ensures Base(tmsr, sn) + MaxSize(tmsr, sn) <= MEMORY ==>
                forall k: nat | k < SOCKS ::
                  View(RXBUF + Base(rmsr, k), MaxSize(rmsr, k)) == old(View(RXBUF + Base(rmsr, k), MaxSize(rmsr, k)))
    {
      hide MaxSize, Base, RingWrite, Wrap, All;
      ghost var before := All();
      var ptr := txWr[sn];
      WriteRegion(sn, ptr, wizdata);
      OthersUntouched(before, All(), tmsr, TXBUF, sn);
      if Base(tmsr, sn) + MaxSize(tmsr, sn) <= MEMORY {
        ReceiveUntouched(before, All(), tmsr, rmsr, sn);
      }
      txWr := txWr[sn := Wrap(ptr + |wizdata|)];
    }

    /** The copies of `wiz_recv_data`: straight on from offset `m` of the region, and from its
        start on for what is not there. */
    method CopyOut(sn: nat, m: nat, len: nat) returns (wizdata: seq<byte>)
      requires Valid() && sn < SOCKS && m < MaxSize(rmsr, sn) && len <= MaxSize(rmsr, sn)
      requires RXBUF + Base(rmsr, sn) + MaxSize(rmsr, sn) <= WORD
      ensures var base, size := RXBUF + Base(rmsr, sn), MaxSize(rmsr, sn);
              wizdata == if m + len > size then All()[base + m..base + size] + All()[base..base + m + len - size]
                         else All()[base + m..base + m + len]
    {
      hide MaxSize, Base, All;
      var base := RxBase(sn);
      if m + len > MaxSize(rmsr, sn) {
        var n := MaxSize(rmsr, sn) - m;
        wizdata := ReadBuf(base + m, n);
        base := RxBase(sn);
        var rest := ReadBuf(base, len - n);
        wizdata := wizdata + rest;
      } else {
        wizdata := ReadBuf(base + m, len);
      }
    }

    /** `wiz_recv_data` */
    method WizRecvData(sn: nat, len: nat) returns (wizdata: seq<byte>)
      requires Valid() && sn < SOCKS && len <= MaxSize(rmsr, sn)
      modifies this`rxRd
      ensures Valid() && rxRd == old(rxRd)[sn := Wrap(old(rxRd)[sn] + len)]
      ensures var base, size := RXBUF + Base(rmsr, sn), MaxSize(rmsr, sn);
              base + size <= WORD && wizdata == RingRead(View(base, size), old(rxRd)[sn], len)
    {
      hide MaxSize, Base, RingRead, Wrap, All;
      MaxSizeIsRing(rmsr, sn);
      FitsSpace(rmsr, sn);
      var ptr := rxRd[sn];
      var srcMask := Masked(ptr, rmsr, sn);
      RegionRead(All(), RXBUF + Base(rmsr, sn), MaxSize(rmsr, sn), ptr, len);
      wizdata := CopyOut(sn, srcMask, len);
      rxRd := rxRd[sn := Wrap(ptr + len)];
    }
  }
}
