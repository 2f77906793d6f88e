/** What the driver knows about a socket: the streams it has exchanged with its callers and
    how they tie in with the registers of the chip. */
module Session {
  import opened Ring
  import opened SocketRings
  import opened Chip

  /** History of the calls on one socket since it was opened.

      - `accepted`: the concatenation of all bytes `send` and `sendto` reported as sent
      - `delivered`: the bytes taken out of the receive buffer
      - `used`: the SENDOK interrupts the driver has cleared
      - `done`: the datagrams `recvfrom` has returned completely
      - `current`: the datagram it has returned the first part of */
  datatype Log = Log(accepted: seq<byte>, delivered: seq<byte>, used: nat,
                     done: seq<Datagram>, current: Datagram)

  const NEW_LOG := Log([], [], 0, [], Datagram([], 0, []))

  function AsSent(mode: byte, p: Packet): Datagram {
    Datagram(p.addr, if HasPort(mode) then p.port else 0, p.payload)
  }

  /** SEND commands and SENDOK interrupts balance: one SEND is unconfirmed exactly when the
      socket's `sock_is_sending` bit is set. */
  predicate Accounted(s: Sock, sending: bool, used: nat) {
    && s.sends == used + (if sending then 1 else 0)
    && used <= s.oks
    && (s.irq.sendOk <==> s.oks == used + 1)
  }

  /** The read position is `offset` bytes into the frame of packet `k`. */
  predicate AtFrame(s: Sock, k: nat, offset: nat) {
    && IsDatagram(s.kind) && FrameInv(s)
    && k < |s.packets| && offset <= |Frame(s.kind, s.packets[k])|
    && s.rx.released == |Flat(s.kind, s.packets[..k])| + offset
  }

  /** `done` are the first packets that arrived, and the read position is on a packet
      header exactly when `remained` is 0; otherwise `remained` payload bytes of the next
      packet are still to come. */
  predicate Reading(s: Sock, remained: nat, done: seq<Datagram>, current: Datagram)
    requires IsDatagram(s.kind) && FrameInv(s)
  {
    var k := |done|;
    && k <= |s.packets|
    && (forall i | 0 <= i < k :: done[i] == AsSent(s.kind, s.packets[i]))
    && if remained == 0 then
         s.rx.released == |Flat(s.kind, s.packets[..k])|
       else
         && k < |s.packets|
         && var p := s.packets[k];
         && remained <= |p.payload|
         && current == AsSent(s.kind, p).(payload := p.payload[..|p.payload| - remained])
         && s.rx.released == |Flat(s.kind, s.packets[..k])| + |Frame(s.kind, p)| - remained
  }

  /** No command is pending, and the histories are those of the two streams. */
  predicate Coherent(s: Sock, log: Log) {
    && s.cr == Idle && s.mr == s.kind && s.rx.rd == s.rx.done
    && s.rx.released <= |s.rx.arrived|
    && log.accepted == s.tx.committed
    && log.delivered == s.rx.arrived[..s.rx.released]
    && FrameInv(s)
    && (DatagramStatus(s.sr) ==> s.tx.stage == s.tx.wr)
  }

  /** The state of a socket between two calls. */
  predicate Linked(s: Sock, sending: bool, remained: nat, log: Log) {
    && Coherent(s, log)
    && (IsStream(s.kind) ==> Accounted(s, sending, log.used))
    && (IsDatagram(s.kind) ==>
          if s.sr == Closed then remained == 0 else Reading(s, remained, log.done, log.current))
  }

  /** No bytes are stored beyond the write pointer that a later SEND would pick up. */
  predicate Clean(latched: bool, s: Sock) {
    latched || s.tx.stage == s.tx.wr || !(PreConnection(s.sr) || Sendable(s.sr) || DatagramStatus(s.sr))
  }

  /** In a pre-connection status nothing has been exchanged yet. */
  predicate Untouched(s: Sock) {
    && (PreConnection(s.sr) ==>
          s.tx.committed == [] && s.rx.arrived == [] && !IsDatagram(s.kind))
    && (IsDatagram(s.kind) ==> s.sr == Closed || DatagramStatus(s.sr))
  }

  lemma FlatPrefix(mode: byte, packets: seq<Packet>, k: nat)
    requires k <= |packets| && forall p | p in packets :: WellFormed(mode, p)
    ensures Flat(mode, packets[..k]) <= Flat(mode, packets)
  {
    if k < |packets| {
      var last := |packets| - 1;
      FlatPrefix(mode, packets[..last], k);
      assert packets[..last][..k] == packets[..k];
    } else {
      assert packets[..k] == packets;
    }
  }

  /** The frame of packet `k` follows the frames of the packets before it. */
  lemma FrameInPlace(mode: byte, packets: seq<Packet>, k: nat)
    requires k < |packets| && forall p | p in packets :: WellFormed(mode, p)
    ensures Flat(mode, packets[..k + 1]) == Flat(mode, packets[..k]) + Frame(mode, packets[k])
    ensures Flat(mode, packets[..k + 1]) <= Flat(mode, packets)
  {
    assert packets[..k + 1][..k] == packets[..k];
    FlatPrefix(mode, packets, k + 1);
  }

  /** Whatever part of the current frame is asked for is waiting in the receive buffer. */
  lemma FrameBytes(s: Sock, k: nat, offset: nat, n: nat)
    requires Inv(s) && AtFrame(s, k, offset) && offset + n <= |Frame(s.kind, s.packets[k])|
    ensures n <= Rsr(s.rx) && s.rx.released + n <= |s.rx.arrived|
    ensures s.rx.arrived[s.rx.released..s.rx.released + n]
            == Frame(s.kind, s.packets[k])[offset..offset + n]
  {
    hide Wrap, Ahead, Cell, Frame, Flat, WellFormed, TxInv;
    RsrValue(s.rx);
    FrameInPlace(s.kind, s.packets, k);
    SliceBehind(Flat(s.kind, s.packets[..k]), Frame(s.kind, s.packets[k]), s.rx.arrived, offset, n);
  }

  lemma SliceBehind(a: seq<byte>, b: seq<byte>, whole: seq<byte>, offset: nat, n: nat)
    requires a + b <= whole && offset + n <= |b|
    ensures whole[|a| + offset..|a| + offset + n] == b[offset..offset + n]
  {
    assert b == whole[|a|..|a| + |b|];
  }

  /** On a header with bytes pending there is a next packet. */
  lemma NextPacket(s: Sock, done: seq<Datagram>, current: Datagram)
    requires Inv(s) && IsDatagram(s.kind) && Reading(s, 0, done, current) && Rsr(s.rx) > 0
    ensures AtFrame(s, |done|, 0)
  {
    hide Wrap, Ahead, Cell;
    RsrValue(s.rx);
    assert s.packets[..|s.packets|] == s.packets;
  }

  lemma AtFrameMoves(s: Sock, k: nat, offset: nat, n: nat, s': Sock)
    requires AtFrame(s, k, offset) && offset + n <= |Frame(s.kind, s.packets[k])|
    requires !PreConnection(s.sr) && Drift(Released(s, n), s') && FrameInv(s')
    ensures AtFrame(s', k, offset + n) && s'.packets[k] == s.packets[k]
  {
    hide Frame;
    assert s'.packets[..k] == s.packets[..k];
  }

  lemma ReadingDrift(s: Sock, s': Sock, remained: nat, done: seq<Datagram>, current: Datagram)
    requires IsDatagram(s.kind) && FrameInv(s) && Reading(s, remained, done, current)
    requires !PreConnection(s.sr) && Drift(s, s') && FrameInv(s')
    ensures Reading(s', remained, done, current)
  {
    hide Frame;
    assert s'.packets[..|done|] == s.packets[..|done|];
  }

  lemma CoherentDrift(s: Sock, log: Log, s': Sock)
    requires Coherent(s, log) && Untouched(s) && Drift(s, s') && Inv(s')
    ensures Coherent(s', log)
  {
    hide FrameInv, Cell, Wrap, Ahead;
    assert s'.rx.arrived[..s'.rx.released] == log.delivered;
  }

  /** The chip alone never breaks the tie between a socket and its history. */
  lemma LinkedDrift(s: Sock, sending: bool, remained: nat, log: Log, s': Sock)
    requires Linked(s, sending, remained, log) && Untouched(s)
    requires Drift(s, s') && Inv(s')
    ensures Linked(s', sending, remained, log)
  {
    hide Reading, Cell, Wrap, Ahead;
    CoherentDrift(s, log, s');
    if IsDatagram(s.kind) && s.sr != Closed {
      ReadingDrift(s, s', remained, log.done, log.current);
    }
  }

  lemma CleanDrift(latched: bool, s: Sock, s': Sock)
    requires Clean(latched, s) && Drift(s, s')
    ensures Clean(latched, s')
  {
  }

  /** Bytes stored at the write pointer wait there while the chip goes on. */
  lemma StoredWaits(s: Sock, data: seq<byte>, b: Sock)
    requires Inv(s) && s.cr == Idle && !PreConnection(s.sr) && |data| <= Fsr(s.tx)
    requires |data| <= |s.tx.mem| && Inv(b) && Drift(Stored(s, data), b)
    ensures Waiting(b.tx, data) && b.tx.committed == s.tx.committed && !PreConnection(b.sr)
    ensures StagedLen(b.tx) == |data| <= Fsr(b.tx) && StagedLen(b.tx) <= |b.tx.mem| && Staged(b.tx) == data
  {
    hide FrameInv, RxInv, TxInv, RxDrift, TxDrift, Store, StagedLen, Staged, Fsr;
    StoredIsWaiting(s.tx, data, b.tx);
  }

  /** The bytes of `data` in place behind the write pointer, which still stands where it was. */
  function Copied(s: Sock, data: seq<byte>): Sock
    requires |data| <= |s.tx.mem|
  {
    s.(tx := s.tx.(mem := RingWrite(s.tx.mem, s.tx.wr, data)))
  }

  /** The bytes of `data` in place and the host's write pointer behind them. */
  function Stored(s: Sock, data: seq<byte>): Sock
    requires |data| <= |s.tx.mem|
  {
    s.(tx := Store(s.tx, s.tx.wr, data))
  }

  /** What the chip does before and between the copy and the write of the pointer comes to the
      same as if both had been done at once before. */
  lemma StoredInParts(s: Sock, data: seq<byte>, a: Sock, b: Sock)
    requires |data| <= |s.tx.mem| && !PreConnection(s.sr) && Drift(s, a)
    requires |data| <= |a.tx.mem| && Drift(Copied(a, data), b) && Inv(b) && b.cr == Idle
    ensures var c := b.(tx := b.tx.(stage := Wrap(a.tx.wr + |data|)));
            Drift(Stored(s, data), c) && Inv(c)
  {
    hide Wrap, Drift, Inv, Copied, Stored;
    CopiedDrifts(s, data, a);
    DriftTransitive(Copied(s, data), Copied(a, data), b);
    StageBehind(s, data, b);
    StageFree(b, Wrap(a.tx.wr + |data|));
  }

  /** With no command pending the host may move its write pointer anywhere. */
  lemma StageFree(s: Sock, stage: word)
    requires Inv(s) && s.cr == Idle
    ensures Inv(s.(tx := s.tx.(stage := stage)))
  {
    StageIsFree(s.tx, stage);
    hide TxInv, RxInv, Flat, WellFormed, StagedLen, TakenLen, Fsr, Rsr;
  }

  lemma CopiedDrifts(s: Sock, data: seq<byte>, a: Sock)
    requires |data| <= |s.tx.mem| && !PreConnection(s.sr) && Drift(s, a)
    ensures |a.tx.mem| == |s.tx.mem| && a.tx.wr == s.tx.wr && Drift(Copied(s, data), Copied(a, data))
  {
    hide Wrap, RingWrite, RxDrift;
  }

  lemma StageBehind(s: Sock, data: seq<byte>, b: Sock)
    requires |data| <= |s.tx.mem| && !PreConnection(s.sr) && Drift(Copied(s, data), b)
    ensures Drift(Stored(s, data), b.(tx := b.tx.(stage := Wrap(s.tx.wr + |data|))))
  {
    hide Wrap, RingWrite, RxDrift;
  }

  /** The read pointer moved on by `n`, or released bytes, stay as they are while the chip
      goes on. */
  lemma ReleasedDrifts(s: Sock, n: nat, a: Sock)
    requires !PreConnection(s.sr) && Drift(s, a)
    ensures Drift(Released(s, n), Released(a, n))
  {
    hide Wrap, TxDrift;
  }

  lemma StoreKeepsSock(s: Sock, data: seq<byte>)
    requires Inv(s) && s.cr == Idle && |data| <= Fsr(s.tx)
    ensures |data| <= |s.tx.mem| && Inv(Stored(s, data))
  {
    StoreKeepsInv(s.tx, data);
    hide Wrap, Ahead, Cell, TxInv;
  }

  lemma CopyKeepsSock(s: Sock, data: seq<byte>)
    requires Inv(s) && s.cr == Idle && |data| <= Fsr(s.tx)
    ensures |data| <= |s.tx.mem| && Inv(Copied(s, data))
  {
    hide Inv, RingWrite, Wrap, Fsr;
    StoreKeepsSock(s, data);
    StageFree(Stored(s, data), s.tx.stage);
    assert Copied(s, data) == Stored(s, data).(tx := Stored(s, data).tx.(stage := s.tx.stage));
  }

  /** The socket is ready for SEND: the staged bytes fit. */
  lemma ReadyToSend(s: Sock, c: Command)
    requires Inv(s) && s.cr == Idle && !PreConnection(s.sr) && IsSend(c) && StagedLen(s.tx) <= Fsr(s.tx)
    ensures Inv(s.(cr := c))
  {
    hide Wrap, Ahead, Cell, TxInv, RxInv, StagedLen, Fsr;
  }

  /** SEND carried out adds the staged bytes to what has been accepted. */
  lemma CarriedLinked(s: Sock, c: Command, remained: nat, log: Log, data: seq<byte>, s': Sock)
    requires Linked(s, false, remained, log) && IsStream(s.kind) && !PreConnection(s.sr)
    requires StagedLen(s.tx) <= |s.tx.mem| && Staged(s.tx) == data
    requires Drift(Carried(s, c), s') && Inv(s')
    ensures Linked(s', true, remained, log.(accepted := log.accepted + data))
    ensures forall latched :: Clean(latched, s')
  {
    hide Wrap, Ahead, Cell, TxInv, RxInv, StagedLen, Staged;
    var b, log' := Carried(s, c), log.(accepted := log.accepted + data);
    assert Linked(b, true, remained, log') && Untouched(b);
    LinkedDrift(b, true, remained, log', s');
    forall latched
      ensures Clean(latched, s')
    {
      assert Clean(latched, b);
      CleanDrift(latched, b, s');
    }
  }

  /** RECV carried out adds the bytes read to what has been delivered. */
  lemma ReleasedCoherent(s: Sock, log: Log, n: nat, s': Sock)
    requires Coherent(s, log) && !PreConnection(s.sr) && Untouched(s)
    requires s.rx.released + n <= |s.rx.arrived| && Drift(Released(s, n), s') && Inv(s')
    ensures var data := s.rx.arrived[s.rx.released..s.rx.released + n];
            Coherent(s', log.(delivered := log.delivered + data))
    ensures s'.sends == s.sends
  {
    hide Wrap, Ahead, Cell, TxInv, RxInv;
    var data := s.rx.arrived[s.rx.released..s.rx.released + n];
    assert s.rx.arrived[..s.rx.released] + data == s.rx.arrived[..s.rx.released + n];
    CoherentDrift(Released(s, n), log.(delivered := log.delivered + data), s');
  }

  lemma ReleasedLinked(s: Sock, sending: bool, remained: nat, log: Log, n: nat, s': Sock)
    requires Linked(s, sending, remained, log) && IsStream(s.kind) && !PreConnection(s.sr)
    requires s.rx.released + n <= |s.rx.arrived| && Drift(Released(s, n), s') && Inv(s')
    ensures var data := s.rx.arrived[s.rx.released..s.rx.released + n];
            Linked(s', sending, remained, log.(delivered := log.delivered + data))
  {
    hide Wrap, Ahead, Cell, TxInv, RxInv, FrameInv, Coherent;
    ReleasedCoherent(s, log, n, s');
  }

  lemma ReleasedClean(latched: bool, s: Sock, n: nat, s': Sock)
    requires Clean(latched, s) && Drift(Released(s, n), s')
    ensures Clean(latched, s')
  {
    hide Wrap;
    CleanDrift(latched, Released(s, n), s');
  }

  lemma ReadyToClose(s: Sock, log: Log)
    requires Inv(s) && Coherent(s, log)
    ensures s.cr == Idle && Inv(s.(cr := Close))
  {
    hide TxInv, RxInv, StagedLen, TakenLen;
  }

  /** With the interrupts cleared a closed socket starts a new account. */
  lemma ClosedGood(latched: bool, s: Sock, log: Log, sending: bool)
    requires Coherent(s, log) && Inv(s) && s.sr == Closed && s.sends == 0 && s.oks == 0 && !sending
    ensures var s' := s.(irq := Irq(false, false, false));
            Inv(s') && Linked(s', sending, 0, log.(used := 0)) && Clean(latched, s')
  {
    hide TxInv, RxInv, Cell, Wrap, Ahead;
  }

  /** Even inside `close` the chip has been handed what was accepted. */
  lemma PendingClose(s: Sock, log: Log, s': Sock)
    requires Coherent(s, log) && Untouched(s) && Grew(s.(cr := Close), s') && Inv(s')
    ensures s'.tx.committed == log.accepted
  {
    if s'.cr == Idle {
      CloseOutcome(s, log, s');
      hide FrameInv, Grew, Drift, Inv;
    } else {
      hide FrameInv, Finish, TxInv, RxInv, Cell, Wrap, Ahead;
      StillPending(s.(cr := Close), s');
    }
  }

  /** While a command is pending nothing else can have happened than a drift. */
  lemma StillPending(s: Sock, s': Sock)
    requires Grew(s, s') && s'.cr != Idle
    ensures Drift(s, s')
  {
    hide Drift, Finish, Inv;
    if !Drift(s, s') {
      var a, txAt, rxAt :| Inv(a) && Drift(s, a) && Drift(Finish(a, txAt, rxAt), s');
      FinishClearsCommand(a, txAt, rxAt);
      DriftKeepsCommand(Finish(a, txAt, rxAt), s');
    }
  }

  /** Inside SEND the chip has been handed the bytes accepted before, or the staged ones too. */
  lemma PendingSend(s: Sock, c: Command, data: seq<byte>, s': Sock)
    requires StagedLen(s.tx) <= |s.tx.mem| && Staged(s.tx) == data
    requires !PreConnection(s.sr) && IsSend(c) && Grew(s.(cr := c), s')
    ensures s'.tx.committed == s.tx.committed || s'.tx.committed == s.tx.committed + data
  {
    hide Finish, Grew, Inv, Wrap, Ahead, StagedLen, Staged;
    if s'.cr == Idle {
      SendOutcome(s, c, s');
    } else {
      StillPending(s.(cr := c), s');
    }
  }

  /** After SENDOK is cleared the account is even again. */
  lemma ConfirmedLinked(s: Sock, remained: nat, log: Log)
    requires Linked(s, true, remained, log) && IsStream(s.kind) && s.irq.sendOk && Inv(s)
    ensures var s' := s.(irq := s.irq.(sendOk := false));
            Inv(s') && Linked(s', false, remained, log.(used := log.used + 1))
  {
    hide TxInv, RxInv, Cell, Wrap, Ahead, StagedLen, TakenLen;
  }

  lemma StoredLinked(s: Sock, sending: bool, remained: nat, log: Log, at: word, data: seq<byte>)
    requires Linked(s, sending, remained, log) && |data| <= |s.tx.mem| && !DatagramStatus(s.sr)
    ensures Linked(s.(tx := Store(s.tx, at, data)), sending, remained, log)
  {
    hide Cell, Wrap, Ahead, RingWrite, Flat, Frame;
  }

  /** Once a connection is over its status is never a sendable one again. */
  lemma NeverAgain(s: Sock, s': Sock)
    requires Drift(s, s') && !Sendable(s.sr)
    ensures Sendable(s'.sr) ==> PreConnection(s.sr)
  {
  }

  lemma InvRings(s: Sock)
    requires Inv(s)
    ensures TxInv(s.tx) && RxInv(s.rx)
  {
  }

  lemma TakingInvIdle(s: Sock, n: nat)
    requires Inv(s) && s.cr == Idle
    ensures Inv(s.(rx := RxTaking(s.rx, n)))
  {
    hide TxInv, Cell, Wrap, Ahead, Flat;
  }

  lemma PendingRecv(s: Sock, n: nat, s': Sock)
    requires !PreConnection(s.sr) && Grew(Taking(s, n), s') && s'.cr != Idle
    ensures s'.tx.committed == s.tx.committed
  {
    hide Grew, Finish, Wrap;
    StillPending(Taking(s, n), s');
  }

  lemma FreshLinked(latched: bool, s: Sock, s': Sock)
    requires Fresh(s, s') && Inv(s')
    ensures Linked(s', false, 0, NEW_LOG) && Clean(latched, s') && s'.cr == Idle
  {
    hide TxInv, RxInv, Cell, Wrap, Ahead, StatusDrift, WellFormed, Frame;
  }

  lemma ReadyToOpen(s: Sock, mr: byte, ends: Endpoint)
    requires Inv(s) && s.cr == Idle
    ensures Inv(s.(mr := mr, ends := ends)) && Inv(s.(mr := mr, ends := ends, cr := Open))
  {
    hide TxInv, RxInv, Flat, WellFormed, StagedLen, TakenLen, Fsr, Rsr;
  }

  /** While OPEN is pending the history of the closed socket is still there. */
  lemma PendingOpen(s: Sock, s': Sock)
    requires s.sr == Closed && Grew(s.(cr := Open), s') && s'.cr != Idle
    ensures s'.tx.committed == s.tx.committed
  {
    hide Grew, RxDrift, FrameInv, Finish;
    StillPending(s.(cr := Open), s');
  }

  lemma FreshFacts(s: Sock, s': Sock)
    requires Fresh(s, s')
    ensures s'.kind == s.mr && s'.ends == s.ends && s'.tx.committed == [] && Settled(s')
  {
  }

  lemma LatchedClean(s: Sock)
    ensures Clean(true, s)
  {
  }

  lemma NotLive(latched: bool, s: Sock)
    requires !Sendable(s.sr) && !PreConnection(s.sr) && !DatagramStatus(s.sr)
    ensures Clean(latched, s)
  {
  }

  lemma StreamStatus(s: Sock)
    requires Inv(s) && IsStream(s.kind)
    ensures !DatagramStatus(s.sr)
  {
  }

  lemma LinkedFacts(s: Sock, sending: bool, remained: nat, log: Log)
    requires Linked(s, sending, remained, log)
    ensures s.cr == Idle && s.mr == s.kind && s.rx.rd == s.rx.done && Coherent(s, log)
    ensures log.accepted == s.tx.committed && s.rx.released <= |s.rx.arrived|
  {
    hide FrameInv;
  }

  lemma WritePointer(latched: bool, s: Sock)
    requires Clean(latched, s) && Sendable(s.sr)
    ensures (if latched then s.tx.wr else s.tx.stage) == s.tx.wr
  {
  }

  lemma DriftFacts(s: Sock, s': Sock)
    requires Drift(s, s')
    ensures s'.kind == s.kind && s'.mr == s.mr && s'.cr == s.cr && s'.ends == s.ends
    ensures |s'.tx.mem| == |s.tx.mem| && |s'.rx.mem| == |s.rx.mem|
    ensures PreConnection(s'.sr) ==> PreConnection(s.sr)
    ensures DatagramStatus(s.sr) ==> s'.sr == s.sr
    ensures s.irq.sendOk ==> s'.irq.sendOk
  {
  }

  lemma InvUntouched(s: Sock)
    requires Inv(s)
    ensures Untouched(s)
  {
  }

  /** CLOSE leaves the histories alone and ends all SEND accounting. */
  lemma CloseOutcome(s: Sock, log: Log, s': Sock)
    requires Coherent(s, log) && Untouched(s)
    requires Grew(s.(cr := Close), s') && s'.cr == Idle && Inv(s')
    ensures Coherent(s', log) && s'.sr == Closed && s'.sends == 0 && s'.oks == 0
  {
    hide Coherent, Finish, Drift, Grew, Inv;
    var a, txAt, rxAt := Finished(s.(cr := Close), s');
    DriftKeepsCommand(s.(cr := Close), a);
    FinishCloseIs(a, txAt, rxAt);
    ClosedCoherent(s, log, a);
    StaysClosed(Finish(a, txAt, rxAt), log, s');
  }

  lemma ClosedCoherent(s: Sock, log: Log, a: Sock)
    requires Coherent(s, log) && Untouched(s) && Drift(s.(cr := Close), a) && Inv(a)
    ensures Coherent(a.(cr := Idle, sr := Closed, sends := 0, oks := 0), log)
  {
    hide TxInv, RxInv, Cell, Wrap, Ahead;
    var b := a.(cr := Idle, sr := Closed, sends := 0, oks := 0);
    assert b.rx.arrived[..b.rx.released] == log.delivered;
  }

  lemma StaysClosed(s: Sock, log: Log, s': Sock)
    requires Coherent(s, log) && s.sr == Closed && s.sends == 0 && Drift(s, s') && Inv(s')
    ensures Coherent(s', log) && s'.sr == Closed && s'.sends == 0 && s'.oks == 0
  {
    hide FrameInv, TxInv, RxInv, Cell, Wrap, Ahead;
    CoherentDrift(s, log, s');
  }

  /** LISTEN, CONNECT, DISCON and SEND_KEEP leave everything between calls as it is. */
  lemma StatusOutcome(s: Sock, c: Command, sending: bool, remained: nat, log: Log, s': Sock)
    requires Linked(s, sending, remained, log) && Inv(s) && OnlyStatus(c)
    requires Grew(s.(cr := c), s') && s'.cr == Idle && Inv(s')
    ensures Linked(s', sending, remained, log) && s'.ends == s.ends
    ensures forall latched :: Clean(latched, s) ==> Clean(latched, s')
  {
    hide Linked, Finish, Drift, Grew, Inv, Clean;
    var a, txAt, rxAt := Finished(s.(cr := c), s');
    DriftFacts(s.(cr := c), a);
    FinishStatusIs(a, txAt, rxAt);
    DriftFacts(Finish(a, txAt, rxAt), s');
    FinishKeepsInv(a, txAt, rxAt);
    FinishedStatus(s, c, sending, remained, log, a, txAt, rxAt);
    var f := Finish(a, txAt, rxAt);
    InvUntouched(f);
    LinkedDrift(f, sending, remained, log, s');
    forall latched | Clean(latched, s)
      ensures Clean(latched, s')
    {
      CleanDrift(latched, f, s');
    }
  }

  /** What the command has done when it is done: a CONNECT goes to the destination registers,
      a DISCON ends the connection, a SEND_KEEP asks for one packet. */
  lemma StatusEffect(s: Sock, c: Command, s': Sock)
    requires Inv(s) && s.cr == Idle && OnlyStatus(c) && Grew(s.(cr := c), s') && s'.cr == Idle
    ensures s'.keeps == s.keeps + if c == SendKeep then 1 else 0
    ensures c == Discon ==> !Sendable(s'.sr) && !PreConnection(s'.sr)
    ensures s.sr == Closed ==> s'.sr == Closed
    ensures s.sr == Init && c != Discon && c != SendKeep ==>
              && s'.sr != Init
              && (c != Listen && s'.sr != Closed ==> s'.target == Destination(s.ends, c))
              && StatusDrift(if c == Listen then Listening else SynSent, s'.sr)
  {
    hide Finish, Inv, TxDrift, RxDrift, Reconnected;
    var a, txAt, rxAt := Finished(s.(cr := c), s');
    FinishStatusIs(a, txAt, rxAt);
    FinishedWith(a, txAt, rxAt);
  }

  /** The same while the command is still pending, but for Sn_CR itself. */
  lemma StatusPending(s: Sock, c: Command, sending: bool, remained: nat, log: Log, s': Sock)
    requires Linked(s, sending, remained, log) && Inv(s) && OnlyStatus(c)
    requires Grew(s.(cr := c), s') && s'.cr != Idle && Inv(s')
    ensures Linked(s'.(cr := Idle), sending, remained, log) && Inv(s'.(cr := Idle))
    ensures forall latched :: Clean(latched, s) ==> Clean(latched, s'.(cr := Idle))
    ensures s'.cr == c && s'.tx.committed == log.accepted
  {
    hide Linked, Finish, Grew, Inv, Clean;
    StillPending(s.(cr := c), s');
    WhilePending(s, c, sending, remained, log, s');
    LinkedFacts(s'.(cr := Idle), sending, remained, log);
  }

  lemma WhilePending(s: Sock, c: Command, sending: bool, remained: nat, log: Log, a: Sock)
    requires Linked(s, sending, remained, log) && Inv(s) && OnlyStatus(c)
    requires Drift(s.(cr := c), a) && Inv(a)
    ensures Linked(a.(cr := Idle), sending, remained, log) && Inv(a.(cr := Idle))
    ensures forall latched :: Clean(latched, s) ==> Clean(latched, a.(cr := Idle))
  {
    var b := a.(cr := Idle);
    CalmInv(a);
    LinkedFacts(s, sending, remained, log);
    InvUntouched(s);
    hide Linked, Finish, Inv, Clean;
    assert Drift(s, b);
    LinkedDrift(s, sending, remained, log, b);
    forall latched | Clean(latched, s)
      ensures Clean(latched, b)
    {
      CleanDrift(latched, s, b);
    }
  }

  /** With SEND_KEEP pending the TIMEOUT bit can rise before the command is done, and that is
      what makes the keep-alive option return with the command still in Sn_CR. */
  lemma KeepAliveCanStay(s: Sock)
    requires Inv(s) && s.cr == Idle
    ensures Inv(s.(cr := SendKeep))
    ensures var a := Step(s.(cr := SendKeep), TimesOut); a.cr == SendKeep && a.irq.timeout && Inv(a)
  {
    StatusReady(s, SendKeep);
    StepKeepsInv(s.(cr := SendKeep), TimesOut);
    hide Inv;
  }

  lemma CalmInv(s: Sock)
    requires Inv(s)
    ensures Inv(s.(cr := Idle))
  {
    hide TxInv, RxInv, Flat, WellFormed, StagedLen, TakenLen, Fsr, Rsr;
  }

  lemma StatusReady(s: Sock, c: Command)
    requires Inv(s) && s.cr == Idle && OnlyStatus(c)
    ensures Inv(s.(cr := c))
  {
    hide TxInv, RxInv, Flat, WellFormed, StagedLen, TakenLen, Fsr, Rsr;
  }

  /** A status that is no more alive than before breaks nothing either. */
  lemma StatusMoved(b: Sock, f: Sock, sending: bool, remained: nat, log: Log)
    requires Linked(b, sending, remained, log) && f == b.(sr := f.sr, target := f.target, keeps := f.keeps)
    requires DatagramStatus(f.sr) <==> DatagramStatus(b.sr)
    requires PreConnection(f.sr) ==> PreConnection(b.sr)
    requires Sendable(f.sr) ==> Sendable(b.sr)
    requires IsDatagram(b.kind) ==> f.sr == b.sr
    ensures Linked(f, sending, remained, log)
    ensures forall latched :: Clean(latched, b) ==> Clean(latched, f)
  {
    hide Flat, Frame, WellFormed, TxInv, RxInv;
  }

  lemma FinishedStatus(s: Sock, c: Command, sending: bool, remained: nat, log: Log,
                       a: Sock, txAt: word, rxAt: word)
    requires Linked(s, sending, remained, log) && Inv(s) && OnlyStatus(c)
    requires Drift(s.(cr := c), a) && Inv(a)
    ensures Linked(Finish(a, txAt, rxAt), sending, remained, log)
    ensures forall latched :: Clean(latched, s) ==> Clean(latched, Finish(a, txAt, rxAt))
  {
    InvUntouched(a);
    hide Finish, Inv, Drift, Linked, Clean;
    WhilePending(s, c, sending, remained, log, a);
    DriftKeepsCommand(s.(cr := c), a);
    FinishStatusIs(a, txAt, rxAt);
    StatusMoved(a.(cr := Idle), Finish(a, txAt, rxAt), sending, remained, log);
  }

  /** Clearing the TIMEOUT or CON bit changes nothing that matters here. */
  lemma IrqCleared(latched: bool, s: Sock, irq: Irq, sending: bool, remained: nat, log: Log)
    requires Inv(s) && irq.sendOk == s.irq.sendOk
    ensures Inv(s.(irq := irq))
    ensures Linked(s, sending, remained, log) ==> Linked(s.(irq := irq), sending, remained, log)
    ensures Clean(latched, s) ==> Clean(latched, s.(irq := irq))
  {
    hide TxInv, RxInv, Flat, WellFormed, Frame, StagedLen, TakenLen, Fsr, Rsr;
  }

  /** So does writing the registers the host owns. */
  lemma EndsWritten(latched: bool, s: Sock, ends: Endpoint, sending: bool, remained: nat, log: Log)
    requires Inv(s)
    ensures Inv(s.(ends := ends))
    ensures Linked(s, sending, remained, log) ==> Linked(s.(ends := ends), sending, remained, log)
    ensures Clean(latched, s) ==> Clean(latched, s.(ends := ends))
  {
    hide TxInv, RxInv, Flat, WellFormed, Frame, StagedLen, TakenLen, Fsr, Rsr;
  }

  // -------------------------------------------------------------------- reading a datagram

  /** What the two bytes of packet information say. */
  lemma HeaderBytes(mode: byte, p: Packet)
    requires WellFormed(mode, p)
    ensures var f := Frame(mode, p);
            && |f| >= 2
            && Pair(f[0] % 8, f[1]) == LengthField(mode, p)
            && f[0] - f[0] % 8 == p.info * 8
  {
  }

  lemma AddressLength(mode: byte, p: Packet)
    requires WellFormed(mode, p)
    ensures mode % 16 == MACRAW ==> p.addr == [] && !HasPort(mode)
    ensures mode % 16 != MACRAW ==> |p.addr| == if p.info * 8 / 128 % 2 == 1 then 16 else 4
    ensures p.info < 32 && |p.payload| < 2048 && (p.info * 8 - p.info * 8 % 8 == p.info * 8)
  {
  }

  /** The payload length in the packet information; for MACRAW it counts itself. */
  lemma PayloadLength(mode: byte, p: Packet)
    requires WellFormed(mode, p)
    ensures mode % 16 == MACRAW ==> Wrap(LengthField(mode, p) - 2) == |p.payload|
    ensures mode % 16 != MACRAW ==> LengthField(mode, p) == |p.payload|
  {
  }

  /** The address, the port and the payload follow in that order. */
  lemma FrameParts(mode: byte, p: Packet)
    requires WellFormed(mode, p)
    ensures var f, a := Frame(mode, p), 2 + |p.addr|;
            && |f| == a + (if HasPort(mode) then 2 else 0) + |p.payload|
            && f[2..a] == p.addr
            && (HasPort(mode) ==> Pair(f[a], f[a + 1]) == p.port)
            && f[|f| - |p.payload|..] == p.payload
  {
    var f, length := Frame(mode, p), LengthField(mode, p);
    var info: seq<byte> := [p.info * 8 + length / 256, length % 256];
    var port: seq<byte> := if HasPort(mode) then [p.port / 256, p.port % 256] else [];
    assert f == info + p.addr + port + p.payload;
    assert (info + p.addr)[2..] == p.addr;
  }

  lemma PayloadBytes(mode: byte, p: Packet, remained: nat, n: nat)
    requires WellFormed(mode, p) && n <= remained <= |p.payload|
    ensures var f, from := Frame(mode, p), |p.payload| - remained;
            remained <= |f| &&
            f[|f| - remained..|f| - remained + n] == p.payload[from..from + n]
  {
    FrameParts(mode, p);
    hide WellFormed, Frame;
    var f := Frame(mode, p);
    SliceOfDrop(f, |f| - |p.payload|, |p.payload| - remained, n);
  }

  lemma SliceOfDrop(s: seq<byte>, start: nat, from: nat, n: nat)
    requires start + from + n <= |s|
    ensures s[start..][from..from + n] == s[start + from..start + from + n]
  {
  }

  /** In the middle of a packet the read position is inside its frame. */
  lemma MiddleOfFrame(s: Sock, remained: nat, done: seq<Datagram>, current: Datagram)
    requires IsDatagram(s.kind) && FrameInv(s) && Reading(s, remained, done, current) && remained > 0
    ensures |done| < |s.packets| && remained <= |s.packets[|done|].payload|
    ensures remained <= |Frame(s.kind, s.packets[|done|])|
    ensures AtFrame(s, |done|, |Frame(s.kind, s.packets[|done|])| - remained)
  {
    FrameParts(s.kind, s.packets[|done|]);
    hide Flat;
  }

  lemma DoneOneMore(s: Sock, done: seq<Datagram>, current: Datagram)
    requires |done| < |s.packets| && current == AsSent(s.kind, s.packets[|done|])
    requires forall i | 0 <= i < |done| :: done[i] == AsSent(s.kind, s.packets[i])
    ensures forall i | 0 <= i < |done| + 1 :: (done + [current])[i] == AsSent(s.kind, s.packets[i])
  {
    hide AsSent;
  }

  /** Part of the payload has been returned: the reader is aligned again. */
  lemma ReadingOn(s: Sock, k: nat, remained: nat, done: seq<Datagram>, current: Datagram)
    requires IsDatagram(s.kind) && FrameInv(s) && k == |done| < |s.packets|
    requires forall i | 0 <= i < k :: done[i] == AsSent(s.kind, s.packets[i])
    requires remained <= |s.packets[k].payload|
    requires current == AsSent(s.kind, s.packets[k]).(payload :=
                          s.packets[k].payload[..|s.packets[k].payload| - remained])
    requires |s.packets[k].payload| <= |Frame(s.kind, s.packets[k])|
    requires AtFrame(s, k, |Frame(s.kind, s.packets[k])| - remained)
    ensures Reading(s, remained, if remained == 0 then done + [current] else done, current)
  {
    FrameInPlace(s.kind, s.packets, k);
    hide Frame, Flat, WellFormed, IsDatagram, FrameInv, HasPort;
    if remained == 0 {
      assert s.packets[k].payload[..|s.packets[k].payload|] == s.packets[k].payload;
      DoneOneMore(s, done, current);
    }
  }

  /** With the header read only in part the reader is not aligned: a later call would take
      the rest of the header for the header of a packet. */
  lemma NotAligned(s: Sock, k: nat, offset: nat, remained: nat, done: seq<Datagram>, current: Datagram)
    requires IsDatagram(s.kind) && FrameInv(s) && AtFrame(s, k, offset) && k == |done|
    requires 0 < offset
    requires remained > 0 ==> offset != |Frame(s.kind, s.packets[k])| - remained
    ensures !Reading(s, remained, done, current)
  {
    hide Frame, WellFormed, Flat;
  }

  lemma NotLinked(s: Sock, sending: bool, k: nat, offset: nat, remained: nat, log: Log)
    requires IsDatagram(s.kind) && FrameInv(s) && AtFrame(s, k, offset) && k == |log.done|
    requires s.sr != Closed && 0 < offset
    requires remained > 0 ==> offset != |Frame(s.kind, s.packets[k])| - remained
    ensures !Linked(s, sending, remained, log)
  {
    NotAligned(s, k, offset, remained, log.done, log.current);
    hide Reading, Frame, WellFormed, Flat;
  }

  lemma DatagramIdle(s: Sock, sending: bool, remained: nat, log: Log)
    requires Linked(s, sending, remained, log) && IsDatagram(s.kind) && s.sr != Closed
    ensures FrameInv(s) && Reading(s, remained, log.done, log.current)
  {
    hide Flat, Frame, WellFormed;
  }

  lemma DatagramLinked(latched: bool, s: Sock, sending: bool, remained: nat, log: Log)
    requires Coherent(s, log) && IsDatagram(s.kind) && s.sr != Closed
    requires Reading(s, remained, log.done, log.current)
    ensures Linked(s, sending, remained, log)
  {
    hide Flat, Frame, WellFormed;
    assert !IsStream(s.kind);
  }

  lemma CoherentFrames(s: Sock, log: Log)
    requires Coherent(s, log)
    ensures FrameInv(s) && s.cr == Idle && s.rx.rd == s.rx.done && log.accepted == s.tx.committed
    ensures s.mr == s.kind
  {
    hide Flat, Frame, WellFormed;
  }

  lemma AtFrameFacts(s: Sock, k: nat, offset: nat)
    requires AtFrame(s, k, offset) && Inv(s)
    ensures IsDatagram(s.kind) && FrameInv(s) && k < |s.packets| && !PreConnection(s.sr)
    ensures WellFormed(s.kind, s.packets[k])
    ensures offset <= |Frame(s.kind, s.packets[k])|
    ensures s.packets[k] in s.packets
  {
    hide Frame, TxInv, RxInv, Flat, StagedLen, TakenLen, Fsr, Rsr;
  }

  lemma ReleasedStatus(s: Sock, n: nat, s': Sock)
    requires Drift(Released(s, n), s') && !PreConnection(s.sr)
    ensures s'.kind == s.kind && s'.mr == s.mr && s.tx.committed == s'.tx.committed
    ensures DatagramStatus(s.sr) || s.sr == Closed ==> s'.sr == s.sr
    ensures s'.sends == s.sends && s.packets <= s'.packets
  {
    hide RxDrift;
  }

  /** The completely returned datagrams are the first packets that arrived. */
  predicate DonePackets(s: Sock, done: seq<Datagram>) {
    |done| <= |s.packets| && forall i | 0 <= i < |done| :: done[i] == AsSent(s.kind, s.packets[i])
  }

  /** `remained` payload bytes of packet `k` come next; `so` is what was returned of it. */
  predicate AtPayload(s: Sock, k: nat, remained: nat, so: Datagram) {
    && IsDatagram(s.kind) && FrameInv(s) && k < |s.packets|
    && var p := s.packets[k];
    && remained <= |p.payload| <= |Frame(s.kind, p)|
    && AtFrame(s, k, |Frame(s.kind, p)| - remained)
    && so == AsSent(s.kind, p).(payload := p.payload[..|p.payload| - remained])
  }

  lemma PayloadFacts(s: Sock, k: nat, remained: nat, so: Datagram)
    requires AtPayload(s, k, remained, so)
    ensures IsDatagram(s.kind) && FrameInv(s) && k < |s.packets| && s.packets[k] in s.packets
    ensures WellFormed(s.kind, s.packets[k])
    ensures remained <= |s.packets[k].payload| <= |Frame(s.kind, s.packets[k])|
    ensures AtFrame(s, k, |Frame(s.kind, s.packets[k])| - remained)
    ensures so.addr == s.packets[k].addr
    ensures so.port == if HasPort(s.kind) then s.packets[k].port else 0
  {
    hide Frame, Flat, AtFrame;
  }

  lemma PayloadRead(s: Sock, done: seq<Datagram>, remained: nat, so: Datagram, n: nat, s': Sock)
    requires AtPayload(s, |done|, remained, so) && DonePackets(s, done) && n <= remained
    requires AtFrame(s', |done|, |Frame(s.kind, s.packets[|done|])| - remained + n)
    requires s'.kind == s.kind && s.packets <= s'.packets && FrameInv(s')
    ensures var p, from := s.packets[|done|], |s.packets[|done|].payload| - remained;
            var so' := so.(payload := so.payload + p.payload[from..from + n]);
            AtPayload(s', |done|, remained - n, so') && DonePackets(s', done)
  {
    hide Flat, AtFrame, Frame, WellFormed;
    var p, from := s.packets[|done|], |s.packets[|done|].payload| - remained;
    assert p.payload[..from] + p.payload[from..from + n] == p.payload[..from + n];
  }

  lemma PayloadEnds(s: Sock, done: seq<Datagram>, remained: nat, so: Datagram)
    requires AtPayload(s, |done|, remained, so) && DonePackets(s, done)
    ensures IsDatagram(s.kind) && FrameInv(s)
    ensures Reading(s, remained, if remained == 0 then done + [so] else done, so)
  {
    ReadingOn(s, |done|, remained, done, so);
    hide Flat, AtFrame, Frame, WellFormed, Reading;
  }

  /** The record of returned datagrams is not part of what ties the streams together. */
  lemma CoherentDone(s: Sock, log: Log, log': Log)
    requires Coherent(s, log) && log'.accepted == log.accepted && log'.delivered == log.delivered
    ensures Coherent(s, log')
  {
    hide FrameInv;
  }

  lemma ReadingDone(s: Sock, remained: nat, done: seq<Datagram>, current: Datagram)
    requires IsDatagram(s.kind) && FrameInv(s) && Reading(s, remained, done, current)
    ensures DonePackets(s, done)
    ensures remained > 0 ==> AtPayload(s, |done|, remained, current)
  {
    hide Flat, WellFormed;
    if remained > 0 {
      MiddleOfFrame(s, remained, done, current);
      FrameParts(s.kind, s.packets[|done|]);
    }
  }

  /** With the header read, the whole payload comes next. */
  lemma HeaderToPayload(s: Sock, done: seq<Datagram>, s': Sock, addr: seq<byte>, port: word)
    requires DonePackets(s, done) && s.packets <= s'.packets && s'.kind == s.kind
    requires IsDatagram(s.kind) && FrameInv(s') && |done| < |s.packets|
    requires AtFrame(s', |done|, |Frame(s.kind, s.packets[|done|])| - |s.packets[|done|].payload|)
    requires WellFormed(s.kind, s.packets[|done|])
    requires addr == s.packets[|done|].addr
    requires port == if HasPort(s.kind) then s.packets[|done|].port else 0
    ensures DonePackets(s', done)
    ensures AtPayload(s', |done|, |s.packets[|done|].payload|, Datagram(addr, port, []))
  {
    FrameParts(s.kind, s.packets[|done|]);
    hide Flat, AtFrame, Frame;
  }

  /** A datagram socket in the middle of a packet is open. */
  lemma MiddleIsOpen(s: Sock, sending: bool, remained: nat, log: Log)
    requires Linked(s, sending, remained, log) && IsDatagram(s.kind) && remained > 0
    ensures s.sr != Closed && DonePackets(s, log.done) && AtPayload(s, |log.done|, remained, log.current)
  {
    hide Flat, WellFormed, Reading, AtPayload, DonePackets;
    ReadingDone(s, remained, log.done, log.current);
  }

  lemma DatagramClean(latched: bool, s: Sock, log: Log)
    requires Coherent(s, log) && Inv(s) && IsDatagram(s.kind)
    ensures Clean(latched, s)
  {
    hide FrameInv, TxInv, RxInv, StagedLen, TakenLen, Fsr, Rsr;
  }

  /** With bytes pending between two packets, the read position is on the next header. */
  lemma AtNextHeader(s: Sock, sending: bool, log: Log)
    requires Linked(s, sending, 0, log) && Inv(s) && IsDatagram(s.kind)
    requires s.sr != Closed && Rsr(s.rx) > 0
    ensures AtFrame(s, |log.done|, 0) && Coherent(s, log) && DonePackets(s, log.done)
    ensures |log.done| < |s.packets|
  {
    DatagramIdle(s, sending, 0, log);
    NextPacket(s, log.done, log.current);
    ReadingDone(s, 0, log.done, log.current);
    LinkedFacts(s, sending, 0, log);
    AtFrameFacts(s, |log.done|, 0);
  }

  lemma Aligned(s: Sock, sending: bool, left: nat, log: Log)
    requires Linked(s, sending, left, log) && IsDatagram(s.kind) && s.sr != Closed
    ensures FrameInv(s) && DonePackets(s, log.done)
    ensures left == 0 <==> s.rx.released == |Flat(s.kind, s.packets[..|log.done|])|
    ensures left > 0 ==> AtPayload(s, |log.done|, left, log.current)
  {
    DatagramIdle(s, sending, left, log);
    ReadingDone(s, left, log.done, log.current);
    if left > 0 {
      FrameParts(s.kind, s.packets[|log.done|]);
    }
    hide Flat, WellFormed, Frame, AtPayload;
  }

  /** SENDOK is up exactly when the SEND under way has been confirmed. */
  lemma SendsBalance(s: Sock, sending: bool, remained: nat, log: Log)
    requires Linked(s, sending, remained, log) && Inv(s)
    ensures IsStream(s.kind) ==>
              && s.sends - log.used == (if sending then 1 else 0)
              && (s.irq.sendOk <==> sending && s.oks == s.sends)
  {
    hide FrameInv, TxInv, RxInv, StagedLen, TakenLen, Fsr, Rsr;
  }

  // -------------------------------------------------------------------- sending a datagram

  /** A datagram SEND carried out: one datagram more, and nothing else has changed. */
  lemma CarriedDatagram(s: Sock, sending: bool, remained: nat, log: Log, c: Command,
                        data: seq<byte>, s': Sock)
    requires Linked(s, sending, remained, log) && IsDatagram(s.kind) && Inv(s) && IsSend(c)
    requires |data| <= Fsr(s.tx) && |data| <= |s.tx.mem|
    requires Grew(Stored(s, data).(cr := c), s') && s'.cr == Idle && Inv(s')
    ensures Linked(s', sending, remained, log.(accepted := log.accepted + data))
    ensures s'.sentTo == s.sentTo + [Datagram(Destination(s.ends, c).addr, s.ends.dport, data)]
    ensures s'.kind == s.kind && s'.ends == s.ends && s'.sends == s.sends + 1 && s'.sr == s.sr
    ensures Settled(s) ==> OneOut(s')
  {
    var b := Stored(s, data);
    StoreStages(s.tx, data);
    SendOutcome(b, c, s');
    DatagramNotPre(s);
    SettledCarried(s, data, c, s');
    DatagramCarriedOn(s, sending, remained, log, c, data, s');
  }

  lemma SettledCarried(s: Sock, data: seq<byte>, c: Command, s': Sock)
    requires |data| <= |s.tx.mem| && StagedLen(Stored(s, data).tx) <= |Stored(s, data).tx.mem|
    requires Drift(Carried(Stored(s, data), c), s') && Inv(s') && (DatagramStatus(s.sr) || s.sr == Closed)
    ensures s'.sends == s.sends + 1 && (Settled(s) ==> OneOut(s')) && s'.sr == s.sr
  {
    hide Drift, Inv, Commit, Staged, StagedLen, Store, Outgoing;
    SettledDrift(Carried(Stored(s, data), c), s');
    DatagramStays(Carried(Stored(s, data), c), s');
  }

  /** A SENDOK that comes up behind a SEND confirmed that SEND. */
  ghost predicate SeesItsOwn(sent: Sock)
    requires Inv(sent)
  {
    forall actions :: Run(sent, actions).irq.sendOk ==> Run(sent, actions).oks == sent.sends
  }

  /** The SENDOK a `sendto` sees is sure to be its own exactly when no earlier SEND is unsettled,
      that is when none waits for its confirmation and no late SENDOK is up already. */
  lemma OwnSendOk(s: Sock, data: seq<byte>, c: Command, txAt: word, rxAt: word)
    requires Inv(s) && IsDatagram(s.kind) && s.cr == Idle
    requires IsSend(c) && |data| <= Fsr(s.tx)
    ensures |data| <= |s.tx.mem| && Inv(Stored(s, data).(cr := c))
    ensures var sent := Step(Stored(s, data).(cr := c), Completes(txAt, rxAt));
            Inv(sent) && sent.cr == Idle && sent.sends == s.sends + 1 && (Settled(s) <==> SeesItsOwn(sent))
  {
    DatagramReady(s, data, c);
    var ready := Stored(s, data).(cr := c);
    StepKeepsInv(ready, Completes(txAt, rxAt));
    ConfirmedAtMost(s);
    hide Inv, Stored, Staged, StagedLen, Commit, Outgoing, Fsr, Run, Drift;
    FinishSendIs(ready, txAt, rxAt);
    StoredKeeps(s, data);
    var sent := Step(ready, Completes(txAt, rxAt));
    forall actions | Settled(s) && Run(sent, actions).irq.sendOk
      ensures Run(sent, actions).oks == sent.sends
    {
      RunGrew(sent, actions);
      SettledDrift(sent, Run(sent, actions));
    }
    if SeesItsOwn(sent) {
      RunOfOne(sent, RaisesSendOk);
    }
  }

  lemma ConfirmedAtMost(s: Sock)
    requires Inv(s)
    ensures s.oks <= s.sends
  {
    hide TxInv, RxInv, FrameInv;
  }

  lemma RunOfOne(s: Sock, a: Action)
    requires Inv(s)
    ensures Run(s, []) == s && Inv(Step(s, a)) && Run(s, [a]) == Step(s, a)
  {
    StepKeepsInv(s, a);
    hide Inv, Step;
    assert Run(s, [a]) == Run(Step(s, a), []);
  }

  lemma StoredKeeps(s: Sock, data: seq<byte>)
    requires |data| <= |s.tx.mem|
    ensures Stored(s, data).sends == s.sends && Stored(s, data).oks == s.oks && Stored(s, data).irq == s.irq
    ensures Stored(s, data).kind == s.kind && Stored(s, data).sr == s.sr && Stored(s, data).cr == s.cr
  {
    hide Store;
  }

  lemma DatagramCarriedOn(s: Sock, sending: bool, remained: nat, log: Log, c: Command, data: seq<byte>,
                          s': Sock)
    requires Linked(s, sending, remained, log) && IsDatagram(s.kind) && Inv(s) && Inv(s')
    requires |data| <= |s.tx.mem| && StagedLen(Store(s.tx, s.tx.wr, data)) == |data|
    requires Staged(Store(s.tx, s.tx.wr, data)) == data
    requires Drift(Carried(Stored(s, data), c), s')
    ensures Linked(s', sending, remained, log.(accepted := log.accepted + data))
    ensures s'.sentTo == s.sentTo + [Datagram(Destination(s.ends, c).addr, s.ends.dport, data)]
    ensures s'.kind == s.kind && s'.ends == s.ends
  {
    hide Wrap, Ahead, Cell, TxInv, RxInv, StagedLen, Staged, RingWrite, Flat, WellFormed, Frame, TakenLen,
      Fsr, Rsr;
    var b, log' := Carried(Stored(s, data), c), log.(accepted := log.accepted + data);
    assert Untouched(b);
    assert Linked(b, sending, remained, log');
    LinkedDrift(b, sending, remained, log', s');
  }

  lemma IrqOfDatagram(latched: bool, s: Sock, irq: Irq, sending: bool, remained: nat, log: Log)
    requires Inv(s) && IsDatagram(s.kind) && Linked(s, sending, remained, log)
    ensures Inv(s.(irq := irq)) && Linked(s.(irq := irq), sending, remained, log)
    ensures Clean(latched, s) ==> Clean(latched, s.(irq := irq))
  {
    hide TxInv, RxInv, Flat, WellFormed, Frame, StagedLen, TakenLen, Fsr, Rsr;
  }

  lemma DatagramReady(s: Sock, data: seq<byte>, c: Command)
    requires Inv(s) && IsDatagram(s.kind) && s.cr == Idle && |data| <= Fsr(s.tx) && IsSend(c)
    ensures |data| <= |s.tx.mem| && Inv(Stored(s, data))
    ensures Inv(Stored(s, data).(cr := c)) && Stored(s, data).cr == Idle && Stored(s, data).kind == s.kind
    ensures c != Idle && c != Open
  {
    StoreKeepsSock(s, data);
    FsrValue(s.tx);
    StoreStages(s.tx, data);
    DatagramNotPre(s);
    var b := Stored(s, data);
    StoreKeepsFsr(s.tx, data);
    ReadyToSend(b, c);
  }

  lemma StoreKeepsFsr(t: TxSide, data: seq<byte>)
    requires |data| <= |t.mem|
    ensures Fsr(Store(t, t.wr, data)) == Fsr(t)
  {
    hide Wrap, Ahead;
  }

  lemma DatagramNotPre(s: Sock)
    requires Inv(s) && IsDatagram(s.kind)
    ensures !PreConnection(s.sr) && (DatagramStatus(s.sr) || s.sr == Closed)
  {
    hide TxInv, RxInv, FrameInv, StagedLen, TakenLen, Fsr, Rsr;
  }

  /** Inside a datagram SEND the datagram is with the chip or is not. */
  lemma PendingDatagram(s: Sock, data: seq<byte>, c: Command, s': Sock)
    requires Inv(s) && IsDatagram(s.kind) && IsSend(c) && |data| <= |s.tx.mem|
    requires Grew(Stored(s, data).(cr := c), s')
    ensures s'.tx.committed == s.tx.committed || s'.tx.committed == s.tx.committed + data
    ensures s.packets <= s'.packets
  {
    StoreStages(s.tx, data);
    DatagramNotPre(s);
    PendingSend(Stored(s, data), c, data, s');
    GrewKeepsPackets(Stored(s, data).(cr := c), s');
  }

  lemma DatagramPointer(s: Sock, log: Log)
    requires Coherent(s, log) && Inv(s) && IsDatagram(s.kind)
    ensures s.sr != Closed ==> s.tx.stage == s.tx.wr
  {
    hide FrameInv, TxInv, RxInv, StagedLen, TakenLen, Fsr, Rsr;
  }

  /** An open datagram socket stays open, and a closed one closed. */
  lemma DatagramStays(s: Sock, s': Sock)
    requires (DatagramStatus(s.sr) || s.sr == Closed) && Drift(s, s')
    ensures s'.sr == s.sr
  {
    hide TxDrift, RxDrift, Reconnected;
  }

  lemma DatagramDrift(s: Sock, s': Sock)
    requires Drift(s, s') && !PreConnection(s.sr)
    ensures s'.sentTo == s.sentTo && s'.ends == s.ends && s'.kind == s.kind && s'.mr == s.mr
    ensures |s'.tx.mem| == |s.tx.mem| && s'.tx.committed == s.tx.committed && s.packets <= s'.packets
  {
    hide RxDrift;
  }
}
