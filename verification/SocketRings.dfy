/** The two rings of a socket: what the chip and the host each do to them, and why neither
    ever overwrites a byte the other one still needs. */
module SocketRings {
  import opened Ring

  // ------------------------------------------------------------------------ transmit side

  /** The transmit buffer of a socket and its pointers, then the history of the stream:
      `committed` was handed over by SEND, `wire` has been transmitted, and the first
      `acked` bytes of it have been acknowledged. */
  datatype TxSide = TxSide(
    mem: seq<byte>, wr: word, stage: word, rd: word, ack: word,
    origin: word, committed: seq<byte>, wire: seq<byte>, acked: nat)

  /** Sn_TX_FSR: free space between the write pointer and the acknowledged pointer. */
  function Fsr(t: TxSide): int { |t.mem| - Ahead(t.wr, t.ack) }

  /** How many bytes the host has stored beyond the write pointer the chip knows. */
  function StagedLen(t: TxSide): nat { Ahead(t.stage, t.wr) }

  function Staged(t: TxSide): seq<byte>
    requires StagedLen(t) <= |t.mem|
  {
    RingRead(t.mem, t.wr, StagedLen(t))
  }

  predicate TxCounts(t: TxSide) {
    && RingSize(|t.mem|)
    && t.acked <= |t.wire| <= |t.committed| <= t.acked + |t.mem|
    && t.wr == Wrap(t.origin + |t.committed|)
    && t.rd == Wrap(t.origin + |t.wire|)
    && t.ack == Wrap(t.origin + t.acked)
  }

  /** What goes out is a prefix of what was handed over, and every byte that is not
      acknowledged yet still stands in the cell its pointer selects. */
  predicate TxInv(t: TxSide) {
    && TxCounts(t)
    && t.wire <= t.committed
    && (forall i | t.acked <= i < |t.committed| ::
          t.mem[Cell(t.origin, i, |t.mem|)] == t.committed[i])
  }

  lemma FsrValue(t: TxSide)
    requires TxCounts(t)
    ensures Fsr(t) == |t.mem| - (|t.committed| - t.acked)
    ensures 0 <= Fsr(t) <= |t.mem|
    ensures Ahead(t.wr, t.rd) == |t.committed| - |t.wire|
    ensures Ahead(t.rd, t.ack) == |t.wire| - t.acked
  {
    AheadOfOrigin(t.origin, |t.committed|, t.acked);
    AheadOfOrigin(t.origin, |t.committed|, |t.wire|);
    AheadOfOrigin(t.origin, |t.wire|, t.acked);
  }

  /** The chip puts the next byte on the wire. */
  function Transmit(t: TxSide): TxSide {
    if t.rd == t.wr || |t.mem| == 0 then t else
      t.(wire := t.wire + [t.mem[Cell(t.rd, 0, |t.mem|)]], rd := Wrap(t.rd + 1))
  }

  /** The read pointer selects the next byte of the stream. */
  lemma NextOnWire(t: TxSide)
    requires TxInv(t) && t.rd != t.wr
    ensures |t.wire| < |t.committed| && |t.mem| > 0
    ensures t.mem[Cell(t.rd, 0, |t.mem|)] == t.committed[|t.wire|]
  {
    FsrValue(t);
    var i := |t.wire|;
    assert i < |t.committed| by {
      assert i == |t.committed| ==> t.rd == t.wr;
    }
    hide Wrap, Ahead, Cell;
    CellWrap(t.origin + i, 0, |t.mem|);
    SameCell(t.origin, i, 0, i, |t.mem|);
  }

  lemma TransmitKeepsInv(t: TxSide)
    requires TxInv(t)
    ensures TxInv(Transmit(t))
  {
    FsrValue(t);
    var t', i := Transmit(t), |t.wire|;
    if t' != t {
      NextOnWire(t);
      WrapAdd(t.origin + i, 1);
      hide Wrap, Ahead, Cell;
      assert t'.wire == t.committed[..i + 1];
    }
  }

  /** The peer acknowledges `count` more bytes, which frees their cells. */
  function Acknowledge(t: TxSide, count: nat): TxSide {
    if count > Ahead(t.rd, t.ack) then t else
      t.(ack := Wrap(t.ack + count), acked := t.acked + count)
  }

  lemma AcknowledgeKeepsInv(t: TxSide, count: nat)
    requires TxInv(t)
    ensures TxInv(Acknowledge(t, count))
  {
    FsrValue(t);
    WrapAdd(t.origin + t.acked, count);
  }

  /** The host stores `data` at pointer `at` and moves its copy of the write pointer. */
  function Store(t: TxSide, at: word, data: seq<byte>): TxSide
    requires |data| <= |t.mem|
  {
    t.(mem := RingWrite(t.mem, at, data), stage := Wrap(at + |data|))
  }

  /** The host's copy of the write pointer is not part of the invariant. */
  lemma StageIsFree(t: TxSide, stage: word)
    requires TxInv(t)
    ensures TxInv(t.(stage := stage))
  {
    hide Wrap, Ahead, Cell;
    var t' := t.(stage := stage);
    assert forall i | t.acked <= i < |t.committed| :: t'.mem[Cell(t.origin, i, |t.mem|)] == t.committed[i];
  }

  /** What has been stored at the write pointer is exactly what is staged. */
  lemma StoreStages(t: TxSide, data: seq<byte>)
    requires RingSize(|t.mem|) && |data| <= |t.mem|
    ensures StagedLen(Store(t, t.wr, data)) == |data|
    ensures Staged(Store(t, t.wr, data)) == data
  {
    AheadOfOrigin(t.wr, |data|, 0);
    ReadBack(t.mem, t.wr, data);
  }

  /** Storing no more than the free size at the write pointer overwrites nothing the chip
      still needs. */
  lemma StoreKeepsInv(t: TxSide, data: seq<byte>)
    requires TxInv(t) && |data| <= Fsr(t)
    ensures |data| <= |t.mem| && TxInv(Store(t, t.wr, data))
  {
    FsrValue(t);
    var mem', size, n := RingWrite(t.mem, t.wr, data), |t.mem|, |t.committed|;
    RingWriteCells(t.mem, t.wr, data);
    hide Wrap, Ahead, Cell, RingWrite;
    forall i | t.acked <= i < n
      ensures mem'[Cell(t.origin, i, size)] == t.committed[i]
    {
      var k := i + size - n;
      CellWrap(t.origin + n, k, size);
      SameCell(t.origin, n, k, i, size);
      assert mem'[Cell(t.wr, k, size)] == t.mem[Cell(t.wr, k, size)];
    }
  }

  /** SEND: the write pointer catches up with the host's and the staged bytes are due. */
  function Commit(t: TxSide): TxSide
    requires StagedLen(t) <= |t.mem|
  {
    t.(wr := t.stage, committed := t.committed + Staged(t))
  }

  lemma CommitKeepsInv(t: TxSide)
    requires TxInv(t) && StagedLen(t) <= Fsr(t)
    ensures StagedLen(t) <= |t.mem| && TxInv(Commit(t))
  {
    CommitKeepsCounts(t);
    hide Wrap, Ahead, Cell, StagedLen, Staged;
    var t', n := Commit(t), |t.committed|;
    forall i | n <= i < |t'.committed|
      ensures t'.mem[Cell(t.origin, i, |t.mem|)] == t'.committed[i]
    {
      StagedCell(t, i);
    }
  }

  lemma StagedCell(t: TxSide, i: nat)
    requires TxCounts(t) && StagedLen(t) <= |t.mem|
    requires |t.committed| <= i < |t.committed| + StagedLen(t)
    ensures t.mem[Cell(t.origin, i, |t.mem|)] == Staged(t)[i - |t.committed|]
  {
    hide Wrap, Ahead, Cell;
    var n := |t.committed|;
    CellWrap(t.origin + n, i - n, |t.mem|);
    SameCell(t.origin, n, i - n, i, |t.mem|);
  }

  lemma CommitKeepsCounts(t: TxSide)
    requires TxCounts(t) && StagedLen(t) <= Fsr(t)
    ensures StagedLen(t) <= |t.mem| && TxCounts(Commit(t))
  {
    FsrValue(t);
    WrapAhead(t.stage, t.origin + |t.committed|);
  }

  /** What the chip does to the transmit side between two commands. */
  predicate TxDrift(t: TxSide, t': TxSide) {
    && t'.mem == t.mem && t'.stage == t.stage && t'.wr == t.wr && t'.origin == t.origin
    && t'.committed == t.committed && t.acked <= t'.acked && t.wire <= t'.wire
  }

  // ------------------------------------------------------------- storing the same bytes again

  /** The bytes of `data` stand behind the write pointer and wait for SEND, as after a `send`
      that has stored them and given up with BUSY. */
  predicate Waiting(t: TxSide, data: seq<byte>) {
    && TxInv(t) && |data| <= |t.mem| && |data| <= Fsr(t)
    && StagedLen(t) == |data| && Staged(t) == data
  }

  /** Stored bytes wait, whatever the chip does meanwhile. */
  lemma StoredIsWaiting(t: TxSide, data: seq<byte>, u: TxSide)
    requires TxInv(t) && |data| <= |t.mem| && |data| <= Fsr(t)
    requires TxDrift(Store(t, t.wr, data), u) && TxInv(u)
    ensures Waiting(u, data) && u.committed == t.committed
  {
    FsrValue(t);
    FsrValue(u);
    StoreStages(t, data);
    hide Wrap, Ahead, RingWrite, RingRead, Cell;
  }

  lemma WaitingFacts(t: TxSide, data: seq<byte>)
    requires Waiting(t, data)
    ensures t.stage == Wrap(t.wr + |data|) && |t.mem| <= 16384 && 0 <= Fsr(t) <= |t.mem|
    ensures Fsr(t) == |t.mem| - (|t.committed| - t.acked)
    ensures |data| <= |t.mem| && |data| <= Fsr(t) && RingRead(t.mem, t.wr, |data|) == data
  {
    FsrValue(t);
    hide Wrap, Ahead, Cell, RingRead, Fsr;
    WrapWord(t.wr);
    WrapAhead(t.stage, t.wr);
  }

  /** A repetition that finds the pointer of the last SEND stores the bytes in the same place. */
  lemma RetryLatched(t: TxSide, data: seq<byte>)
    requires Waiting(t, data)
    ensures |data| <= |t.mem|
    ensures var twice := Store(t, t.wr, data);
            && Waiting(twice, data)
            && StagedLen(twice) <= |twice.mem| && Commit(twice).committed == t.committed + data
  {
    WaitingFacts(t, data);
    StoreStages(t, data);
    StoreKeepsInv(t, data);
    StoreKeepsCounts(t, t.wr, data);
    hide Wrap, Ahead, RingWrite, RingRead, Cell, Fsr;
  }

  /** Bytes stored right behind others leave those in place. */
  lemma StoreBehind(mem: seq<byte>, p: word, first: seq<byte>, data: seq<byte>)
    requires RingSize(|mem|) && |first| + |data| <= |mem| && RingRead(mem, p, |first|) == first
    ensures RingRead(RingWrite(mem, Wrap(p + |first|), data), p, |first| + |data|) == first + data
  {
    var n, size, q := |first|, |mem|, Wrap(p + |first|);
    var both := RingWrite(mem, q, data);
    RingWriteCells(mem, q, data);
    hide RingWrite, Wrap;
    forall i | 0 <= i < n + |data|
      ensures RingRead(both, p, n + |data|)[i] == (first + data)[i]
    {
      var k := if i < n then i + size - n else i - n;
      CellWrap(p + n, k, size);
      SameCell(p, n, k, i, size);
      assert both[Cell(q, k, size)] == if k < |data| then data[k] else mem[Cell(q, k, size)];
      assert i < n ==> RingRead(mem, p, n)[i] == first[i];
    }
  }

  /** Byte `i` of the stream is not acknowledged and a second copy of `n` bytes, behind a first
      one, reaches its cell from the other side. */
  predicate Reached(t: TxSide, n: nat, i: nat) {
    t.acked <= i < |t.committed| && i + |t.mem| < |t.committed| + 2 * n
  }

  /** Every byte that is overwritten happens to equal the one stored on top of it. */
  ghost predicate Harmless(t: TxSide, data: seq<byte>) {
    forall i: nat | Reached(t, |data|, i) ::
      && 0 <= i + |t.mem| - |t.committed| - |data| < |data|
      && t.committed[i] == data[i + |t.mem| - |t.committed| - |data|]
  }

  lemma SecondCopy(t: TxSide, data: seq<byte>, i: nat)
    requires Waiting(t, data) && t.acked <= i < |t.committed| && |data| <= |t.mem|
    ensures var n, size := |data|, |t.mem|;
            && (Reached(t, n, i) ==> 0 <= i + size - |t.committed| - n < n)
            && Store(t, t.stage, data).mem[Cell(t.origin, i, size)]
               == if Reached(t, n, i) then data[i + size - |t.committed| - n] else t.committed[i]
  {
    WaitingFacts(t, data);
    var n, size, c := |data|, |t.mem|, |t.committed|;
    var k := i + size - c - n;
    RingWriteCells(t.mem, t.stage, data);
    WrapAdd(t.origin + c, n);
    CellWrap(t.origin + c + n, k, size);
    SameCell(t.origin, c + n, k, i, size);
    hide Wrap, Ahead, Cell, RingWrite, Fsr, StagedLen, Staged;
  }

  lemma StoreKeepsCounts(t: TxSide, at: word, data: seq<byte>)
    requires TxCounts(t) && |data| <= |t.mem|
    ensures TxCounts(Store(t, at, data)) && Fsr(Store(t, at, data)) == Fsr(t)
    ensures 0 <= Fsr(t) <= |t.mem|
  {
    FsrValue(t);
    hide Wrap, Ahead;
  }

  lemma VisibleStaged(t: TxSide, data: seq<byte>)
    requires Waiting(t, data) && |data| <= |t.mem|
    ensures StagedLen(Store(t, t.stage, data)) == 2 * |data|
  {
    WaitingFacts(t, data);
    StagedTwice(t.wr, data);
    hide Wrap, Ahead, RingWrite, RingRead, Cell, TxInv, Fsr;
  }

  lemma VisibleCells(t: TxSide, data: seq<byte>)
    requires Waiting(t, data) && |data| <= |t.mem|
    ensures TxInv(Store(t, t.stage, data)) <==> Harmless(t, data)
  {
    StoreKeepsCounts(t, t.stage, data);
    var twice := Store(t, t.stage, data);
    hide Wrap, Ahead, RingWrite, Cell, Fsr, Reached, TxCounts, StagedLen, Staged;
    forall i: nat | t.acked <= i < |t.committed|
      ensures Reached(t, |data|, i) ==> 0 <= i + |t.mem| - |t.committed| - |data| < |data|
      ensures twice.mem[Cell(t.origin, i, |t.mem|)]
              == if Reached(t, |data|, i) then data[i + |t.mem| - |t.committed| - |data|] else t.committed[i]
    {
      SecondCopy(t, data, i);
    }
    if Harmless(t, data) {
      assert TxInv(twice);
    }
    if TxInv(twice) {
      forall i: nat | Reached(t, |data|, i)
        ensures 0 <= i + |t.mem| - |t.committed| - |data| < |data|
        ensures t.committed[i] == data[i + |t.mem| - |t.committed| - |data|]
      {
        ReachedBounds(t, |data|, i);
        assert twice.mem[Cell(t.origin, i, |t.mem|)] == twice.committed[i];
      }
    }
  }

  lemma ReachedBounds(t: TxSide, n: nat, i: nat)
    requires Reached(t, n, i)
    ensures t.acked <= i < |t.committed|
  {
  }

  lemma VisibleFits(t: TxSide, data: seq<byte>)
    requires Waiting(t, data) && 2 * |data| <= Fsr(t) <= |t.mem|
    requires StagedLen(Store(t, t.stage, data)) == 2 * |data|
    ensures Harmless(t, data) && Staged(Store(t, t.stage, data)) == data + data
  {
    WaitingFacts(t, data);
    StoreBehind(t.mem, t.wr, data, data);
    hide Wrap, Ahead, RingWrite, RingRead, Cell, Fsr;
  }

  /** A repetition that finds the pointer written last stores the bytes a second time, behind
      the first copy.  If there is room for both, both are handed over.  If there is not, more
      is staged than is free, and the oldest byte that is not acknowledged is overwritten, if
      there is one.  The ring is still sound exactly when every overwritten byte happens to
      equal the one stored on top of it. */
  lemma RetryVisible(t: TxSide, data: seq<byte>)
    requires Waiting(t, data)
    ensures |data| <= |t.mem| && 0 <= Fsr(t)
    ensures var twice := Store(t, t.stage, data);
            && StagedLen(twice) == 2 * |data| && Fsr(twice) == Fsr(t)
            && (TxInv(twice) <==> Harmless(t, data))
            && (2 * |data| <= Fsr(t) ==>
                  && Harmless(t, data) && StagedLen(twice) <= |twice.mem|
                  && Commit(twice).committed == t.committed + data + data)
            && (Fsr(t) < 2 * |data| && t.acked < |t.committed| ==>
                  && |data| <= Fsr(t) && |t.mem| > 0
                  && twice.mem[Cell(t.origin, t.acked, |t.mem|)] == data[Fsr(t) - |data|])
  {
    WaitingFacts(t, data);
    VisibleStaged(t, data);
    VisibleCells(t, data);
    StoreKeepsCounts(t, t.stage, data);
    if 2 * |data| <= Fsr(t) {
      VisibleFits(t, data);
    } else if t.acked < |t.committed| {
      SecondCopy(t, data, t.acked);
    }
    hide Wrap, Ahead, RingWrite, RingRead, Cell, Fsr, TxInv, StagedLen, Staged, Harmless;
  }

  /** A `send` that has given up with BUSY behind the store is repeated: whatever room there is
      and whatever the chip has done meanwhile, the stream gets the bytes exactly once if and
      only if the register shows the pointer of the last SEND or there are none. */
  lemma RetryAfterBusy(t: TxSide, data: seq<byte>, latched: bool)
    requires Waiting(t, data)
    ensures |data| <= |t.mem|
    ensures var twice := Store(t, if latched then t.wr else t.stage, data);
            && TxInv(twice) && StagedLen(twice) <= Fsr(twice) && StagedLen(twice) <= |twice.mem|
            && Commit(twice).committed == t.committed + data
            <==> latched || data == []
  {
    RetryLatched(t, data);
    RetryVisible(t, data);
    WaitingFacts(t, data);
    hide Wrap, Ahead, RingWrite, RingRead, Cell, TxInv, Fsr, StagedLen, Staged;
  }

  lemma StagedTwice(wr: word, data: seq<byte>)
    requires 2 * |data| < WORD
    ensures Ahead(Wrap(Wrap(wr + |data|) + |data|), wr) == 2 * |data|
  {
    hide Wrap, Ahead;
    WrapWord(wr);
    WrapAdd(wr + |data|, |data|);
    AheadOfOrigin(wr, 2 * |data|, 0);
  }

  function EmptyTx(mem: seq<byte>, at: word): TxSide {
    TxSide(mem, at, at, at, at, at, [], [], 0)
  }

  lemma EmptyTxInv(mem: seq<byte>, at: word)
    requires RingSize(|mem|)
    ensures TxInv(EmptyTx(mem, at))
  {
  }

  // ------------------------------------------------------------------------- receive side

  /** The receive buffer of a socket and its pointers, then the history: `arrived` came
      from the peer and the host has given back the room of its first `released` bytes. */
  datatype RxSide = RxSide(
    mem: seq<byte>, wr: word, rd: word, done: word,
    origin: word, arrived: seq<byte>, released: nat)

  /** Sn_RX_RSR: received bytes the host has not released yet. */
  function Rsr(r: RxSide): int { Ahead(r.wr, r.done) }

  /** How far the host has moved its read pointer since the last RECV. */
  function TakenLen(r: RxSide): nat { Ahead(r.rd, r.done) }

  predicate RxCounts(r: RxSide) {
    && RingSize(|r.mem|)
    && r.released <= |r.arrived| <= r.released + |r.mem|
    && r.wr == Wrap(r.origin + |r.arrived|)
    && r.done == Wrap(r.origin + r.released)
  }

  /** Every byte that has arrived and is not released stands in its cell. */
  predicate RxInv(r: RxSide) {
    && RxCounts(r)
    && (forall i | r.released <= i < |r.arrived| ::
          r.mem[Cell(r.origin, i, |r.mem|)] == r.arrived[i])
  }

  lemma RsrValue(r: RxSide)
    requires RxCounts(r)
    ensures Rsr(r) == |r.arrived| - r.released
    ensures 0 <= Rsr(r) <= |r.mem|
  {
    AheadOfOrigin(r.origin, |r.arrived|, r.released);
  }

  /** The chip stores received bytes behind the pending ones. */
  function Receive(r: RxSide, data: seq<byte>): RxSide
    requires |data| <= |r.mem|
  {
    r.(mem := RingWrite(r.mem, r.wr, data), wr := Wrap(r.wr + |data|), arrived := r.arrived + data)
  }

  lemma ReceiveKeepsInv(r: RxSide, data: seq<byte>)
    requires RxInv(r) && |data| <= |r.mem| - Rsr(r)
    ensures |data| <= |r.mem| && RxInv(Receive(r, data))
  {
    RsrValue(r);
    var r', size, n := Receive(r, data), |r.mem|, |r.arrived|;
    RingWriteCells(r.mem, r.wr, data);
    WrapAdd(r.origin + n, |data|);
    hide Wrap, Ahead, Cell, RingWrite;
    forall i | r.released <= i < |r'.arrived|
      ensures r'.mem[Cell(r.origin, i, size)] == r'.arrived[i]
    {
      var k := if i < n then i + size - n else i - n;
      CellWrap(r.origin + n, k, size);
      SameCell(r.origin, n, k, i, size);
      assert r'.mem[Cell(r.wr, k, size)] == if k < |data| then data[k] else r.mem[Cell(r.wr, k, size)];
    }
  }

  /** What the chip does to the receive side between two commands. */
  predicate RxDrift(r: RxSide, r': RxSide) {
    && |r'.mem| == |r.mem| && r'.rd == r.rd && r'.done == r.done && r'.origin == r.origin
    && r'.released == r.released && r.arrived <= r'.arrived
  }

  /** The pending bytes, read by the host through its read pointer, are the stream. */
  lemma PendingBytes(r: RxSide, n: nat)
    requires RxInv(r) && n <= Rsr(r)
    ensures n <= |r.mem| && r.released + n <= |r.arrived|
    ensures RingRead(r.mem, r.done, n) == r.arrived[r.released..r.released + n]
  {
    RsrValue(r);
    hide Wrap, Ahead, Cell, Rsr;
    forall i | 0 <= i < n
      ensures RingRead(r.mem, r.done, n)[i] == r.arrived[r.released + i]
    {
      CellWrap(r.origin + r.released, i, |r.mem|);
      SameCell(r.origin, r.released, i, r.released + i, |r.mem|);
    }
  }

  /** RECV: the room of everything before the host's read pointer is free again. */
  function Release(r: RxSide): RxSide {
    r.(done := r.rd, released := r.released + TakenLen(r))
  }

  lemma ReleaseKeepsInv(r: RxSide)
    requires RxInv(r) && TakenLen(r) <= Rsr(r)
    ensures RxInv(Release(r))
  {
    RsrValue(r);
    WrapAhead(r.rd, r.origin + r.released);
  }

  function EmptyRx(mem: seq<byte>, at: word): RxSide {
    RxSide(mem, at, at, at, at, [], 0)
  }

  lemma EmptyRxInv(mem: seq<byte>, at: word)
    requires RingSize(|mem|)
    ensures RxInv(EmptyRx(mem, at))
  {
  }
}
