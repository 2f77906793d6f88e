/** One socket of the chip: its registers and buffers, and everything it does on its own.

    The chip runs beside the host.  Between any two register accesses it may transmit
    bytes, take acknowledgements, receive data, raise interrupts, change the status or
    finish the command in `Sn_CR`.  Each of these is an `Action`; a run of the chip is any
    list of them, and an action that is not possible in the current state does nothing. */
module Chip {
  import opened Ring
  import opened SocketRings

  datatype Command =
    | Idle | Open | Listen | Connect | Connect6 | Discon | Close | Send | Send6 | SendKeep | Recv

  datatype Status =
    | Closed | Init | Listening | SynSent | SynRecv
    | Established | FinWait | TimeWait | CloseWait | LastAck
    | Udp | IpRaw | MacRaw

  // The protocol in the low four bits of Sn_MR.
  const TCP4: byte := 0x01
  const UDP4: byte := 0x02
  const IPRAW4: byte := 0x03
  const MACRAW: byte := 0x07
  const TCP6: byte := 0x09
  const UDP6: byte := 0x0A
  const IPRAW6: byte := 0x0B
  const TCPD: byte := 0x0D
  const UDPD: byte := 0x0E

  predicate IsStream(mode: byte) { mode % 4 == 1 }

  predicate HasPort(mode: byte) { mode % 4 == 2 }

  predicate IsDatagram(mode: byte) {
    var protocol := mode % 16;
    protocol == UDP4 || protocol == UDP6 || protocol == UDPD ||
    protocol == IPRAW4 || protocol == IPRAW6 || protocol == MACRAW
  }

  function OpenStatus(mode: byte): Status {
    var protocol := mode % 16;
    if IsStream(mode) then Init
    else if HasPort(mode) && IsDatagram(mode) then Udp
    else if protocol == IPRAW4 || protocol == IPRAW6 then IpRaw
    else if protocol == MACRAW then MacRaw
    else Closed
  }

  /** A received datagram.  `info` is the five-bit packet information; its top bit says
      that the address is an IPv6 one. */
  datatype Packet = Packet(info: nat, addr: seq<byte>, port: word, payload: seq<byte>)

  function AddrLen(info: nat): nat {
    if info / 16 % 2 == 1 then 16 else 4
  }

  predicate WellFormed(mode: byte, p: Packet) {
    && p.info < 32
    && if mode % 16 == MACRAW then
         p.addr == [] && |p.payload| <= 2045
       else
         |p.addr| == AddrLen(p.info) && |p.payload| < 2048
  }

  /** The length written in the packet information: for MACRAW it counts itself. */
  function LengthField(mode: byte, p: Packet): nat {
    if mode % 16 == MACRAW then |p.payload| + 2 else |p.payload|
  }

  /** PACKET INFO as it stands in the receive buffer ahead of the payload. */
  function Header(mode: byte, p: Packet): (h: seq<byte>)
    requires WellFormed(mode, p)
  {
    var length := LengthField(mode, p);
    [p.info * 8 + length / 256, length % 256] + p.addr
    + if HasPort(mode) then [p.port / 256, p.port % 256] else []
  }

  function Frame(mode: byte, p: Packet): seq<byte>
    requires WellFormed(mode, p)
  {
    Header(mode, p) + p.payload
  }

  function Flat(mode: byte, packets: seq<Packet>): seq<byte>
    requires forall p | p in packets :: WellFormed(mode, p)
  {
    if packets == [] then [] else
      var last := |packets| - 1;
      Flat(mode, packets[..last]) + Frame(mode, packets[last])
  }

  /** A packet appended to the queue appends its frame to the bytes. */
  lemma FlatSnoc(mode: byte, packets: seq<Packet>, p: Packet)
    requires WellFormed(mode, p) && forall q | q in packets :: WellFormed(mode, q)
    ensures forall q | q in packets + [p] :: WellFormed(mode, q)
    ensures Flat(mode, packets + [p]) == Flat(mode, packets) + Frame(mode, p)
  {
    assert (packets + [p])[..|packets|] == packets;
  }

  /** What the host exchanges with `sendto` and `recvfrom`; the port is 0 where the
      protocol has none. */
  datatype Datagram = Datagram(addr: seq<byte>, port: word, payload: seq<byte>)

  /** The interrupt bits of Sn_IR the driver looks at. */
  datatype Irq = Irq(sendOk: bool, timeout: bool, con: bool)

  /** Registers only the host writes: Sn_PORTR, Sn_DIPR, Sn_DIP6R and Sn_DPORTR. */
  datatype Endpoint = Endpoint(port: word, dip4: seq<byte>, dip6: seq<byte>, dport: word)

  datatype Peer = Peer(addr: seq<byte>, port: word)

  /** One socket of the chip.  `kind` is the mode its last OPEN latched; `packets` are the
      datagrams received since, `sentTo` the ones sent; `sends` and `oks` count the SEND
      commands it has carried out and the SENDOK interrupts it has raised.  `target` is the
      peer the last CONNECT went to, `keeps` counts the keep-alive packets asked for. */
  datatype Sock = Sock(
    mr: byte, kind: byte, cr: Command, sr: Status,
    irq: Irq, ends: Endpoint, tx: TxSide, rx: RxSide,
    packets: seq<Packet>, sentTo: seq<Datagram>, sends: nat, oks: nat, target: Peer, keeps: nat)

  predicate PreConnection(sr: Status) {
    sr == Init || sr == Listening || sr == SynSent || sr == SynRecv
  }

  predicate Sendable(sr: Status) { sr == Established || sr == CloseWait }

  predicate DatagramStatus(sr: Status) { sr == Udp || sr == IpRaw || sr == MacRaw }

  predicate IsSend(c: Command) { c == Send || c == Send6 }

  /** Every SEND the chip has carried out has been confirmed, and the driver has seen that. */
  predicate Settled(s: Sock) { s.oks == s.sends && !s.irq.sendOk }

  /** One SEND is not settled: SENDOK is up exactly when it has been confirmed. */
  predicate OneOut(s: Sock) {
    if s.irq.sendOk then s.oks == s.sends else s.oks + 1 == s.sends
  }

  // ---------------------------------------------------------------- what the chip keeps

  predicate FrameInv(s: Sock) {
    IsDatagram(s.kind) ==>
      && (forall p | p in s.packets :: WellFormed(s.kind, p))
      && s.rx.arrived == Flat(s.kind, s.packets)
  }

  predicate PhaseInv(s: Sock) {
    && (PreConnection(s.sr) ==>
          && s.tx.committed == [] && s.rx.arrived == []
          && !IsSend(s.cr) && s.cr != Recv && !IsDatagram(s.kind))
    && (DatagramStatus(s.sr) ==> IsDatagram(s.kind))
    && (IsDatagram(s.kind) ==> s.sr == Closed || DatagramStatus(s.sr))
    && s.oks <= s.sends
    && (IsSend(s.cr) ==> StagedLen(s.tx) <= Fsr(s.tx))
    && (s.cr == Recv ==> TakenLen(s.rx) <= Rsr(s.rx))
  }

  /** What holds of a socket of the chip at every instant. */
  predicate Inv(s: Sock) {
    TxInv(s.tx) && RxInv(s.rx) && FrameInv(s) && PhaseInv(s)
  }

  // ------------------------------------------------------------------------ chip actions

  datatype Action =
    | Transmits
    | Acked(count: nat)
    | RaisesSendOk
    | Arrives(data: seq<byte>)
    | PacketArrives(packet: Packet)
    | TimesOut
    | Moves(to: Status)
    | Connects(txAt: word, rxAt: word)
    | Completes(txAt: word, rxAt: word)

  /** Status changes the peer or a failure can cause. */
  predicate Next(a: Status, b: Status) {
    || (b == Closed && !DatagramStatus(a))
    || (a == Listening && b == SynRecv)
    || (a == Established && (b == CloseWait || b == FinWait || b == TimeWait || b == LastAck))
    || (a == CloseWait && (b == LastAck || b == TimeWait))
    || (a == FinWait && b == TimeWait)
  }

  /** Both rings start again at the given pointers. */
  function Restart(s: Sock, txAt: word, rxAt: word): Sock {
    s.(tx := EmptyTx(s.tx.mem, txAt), rx := EmptyRx(s.rx.mem, rxAt), packets := [], sentTo := [])
  }

  /** The effect of the command in Sn_CR, at the moment the register clears. */
  function Finish(s: Sock, txAt: word, rxAt: word): Sock
    requires Inv(s)
  {
    match s.cr
    case Idle => s
    case Open =>
      Restart(s, txAt, rxAt).(cr := Idle, kind := s.mr, sr := OpenStatus(s.mr), sends := 0, oks := 0)
    case Close => s.(cr := Idle, sr := Closed, sends := 0, oks := 0)
    case Listen => s.(cr := Idle, sr := if s.sr == Init then Listening else s.sr)
    case Connect => s.(cr := Idle, sr := if s.sr == Init then SynSent else s.sr, target := TargetAfter(s))
    case Connect6 => s.(cr := Idle, sr := if s.sr == Init then SynSent else s.sr, target := TargetAfter(s))
    case Discon =>
      s.(cr := Idle,
         sr := if s.sr == Established then FinWait
               else if s.sr == CloseWait then LastAck
               else if PreConnection(s.sr) then Closed else s.sr)
    case SendKeep => s.(cr := Idle, keeps := s.keeps + 1)
    case Recv => s.(cr := Idle, rx := Release(s.rx))
    case _ =>
      FsrValue(s.tx);
      s.(cr := Idle, tx := Commit(s.tx), sends := s.sends + 1, sentTo := s.sentTo + Outgoing(s, s.cr, Staged(s.tx)))
  }

  /** The destination of a SEND or CONNECT command: those for IPv6 look at Sn_DIP6R. */
  function Destination(ends: Endpoint, c: Command): Peer {
    Peer(if c == Send6 || c == Connect6 then ends.dip6 else ends.dip4, ends.dport)
  }

  function TargetAfter(s: Sock): Peer {
    if s.sr == Init && (s.cr == Connect || s.cr == Connect6) then Destination(s.ends, s.cr) else s.target
  }

  /** In a datagram mode every SEND emits one datagram to its destination. */
  function Outgoing(s: Sock, c: Command, data: seq<byte>): seq<Datagram> {
    if IsDatagram(s.kind) then
      [Datagram(Destination(s.ends, c).addr, s.ends.dport, data)]
    else []
  }

  predicate CanReceive(s: Sock, n: nat) {
    !PreConnection(s.sr) && s.sr != Closed && n <= |s.rx.mem| - Rsr(s.rx)
  }

  function Step(s: Sock, a: Action): Sock
    requires Inv(s)
  {
    match a
    case Transmits => s.(tx := Transmit(s.tx))
    case Acked(count) => s.(tx := Acknowledge(s.tx, count))
    case RaisesSendOk =>
      if s.oks == s.sends then s else s.(oks := s.oks + 1, irq := s.irq.(sendOk := true))
    case Arrives(data) =>
      if IsStream(s.kind) && CanReceive(s, |data|) then s.(rx := Receive(s.rx, data)) else s
    case PacketArrives(p) =>
      if IsDatagram(s.kind) && WellFormed(s.kind, p) && CanReceive(s, |Frame(s.kind, p)|)
      then s.(rx := Receive(s.rx, Frame(s.kind, p)), packets := s.packets + [p]) else s
    case TimesOut =>
      s.(irq := s.irq.(timeout := true), sr := if IsStream(s.kind) then Closed else s.sr)
    case Moves(to) =>
      if Next(s.sr, to) then s.(sr := to) else s
    case Connects(txAt, rxAt) =>
      if s.sr == Listening || s.sr == SynRecv || s.sr == SynSent
      then Restart(s, txAt, rxAt).(sr := Established, irq := s.irq.(con := true)) else s
    case Completes(txAt, rxAt) => Finish(s, txAt, rxAt)
  }

  lemma FinishSendKeepsInv(s: Sock, txAt: word, rxAt: word)
    requires Inv(s) && IsSend(s.cr)
    ensures Inv(Finish(s, txAt, rxAt))
  {
    CommitKeepsInv(s.tx);
    var s' := Finish(s, txAt, rxAt);
    assert s'.tx == Commit(s.tx) && s'.rx == s.rx && s'.sends == s.sends + 1;
  }

  lemma FinishRecvKeepsInv(s: Sock, txAt: word, rxAt: word)
    requires Inv(s) && s.cr == Recv
    ensures Inv(Finish(s, txAt, rxAt))
  {
    ReleaseKeepsInv(s.rx);
    var s' := Finish(s, txAt, rxAt);
    assert s' == s.(cr := Idle, rx := Release(s.rx));
  }

  lemma FinishOpenKeepsInv(s: Sock, txAt: word, rxAt: word)
    requires Inv(s) && s.cr == Open
    ensures Inv(Finish(s, txAt, rxAt))
  {
    hide Wrap, Ahead;
    EmptyTxInv(s.tx.mem, txAt);
    EmptyRxInv(s.rx.mem, rxAt);
  }

  lemma FinishKeepsInv(s: Sock, txAt: word, rxAt: word)
    requires Inv(s)
    ensures Inv(Finish(s, txAt, rxAt))
  {
    hide Wrap, Ahead;
    match s.cr
    case Send => FinishSendKeepsInv(s, txAt, rxAt);
    case Send6 => FinishSendKeepsInv(s, txAt, rxAt);
    case Recv => FinishRecvKeepsInv(s, txAt, rxAt);
    case Open => FinishOpenKeepsInv(s, txAt, rxAt);
    case _ =>
      var s' := Finish(s, txAt, rxAt);
      assert s'.tx == s.tx && s'.rx == s.rx;
  }

  lemma TxStepKeepsInv(s: Sock, a: Action)
    requires Inv(s) && (a.Transmits? || a.Acked?)
    ensures Inv(Step(s, a))
  {
    FsrValue(s.tx);
    if a.Transmits? {
      TransmitKeepsInv(s.tx);
      FsrValue(Transmit(s.tx));
    } else {
      AcknowledgeKeepsInv(s.tx, a.count);
      FsrValue(Acknowledge(s.tx, a.count));
    }
  }

  lemma RxStepKeepsInv(s: Sock, a: Action)
    requires Inv(s) && (a.Arrives? || a.PacketArrives?)
    ensures Inv(Step(s, a))
  {
    RsrValue(s.rx);
    if Step(s, a) != s {
      var data := if a.Arrives? then a.data else Frame(s.kind, a.packet);
      ReceiveKeepsInv(s.rx, data);
      RsrValue(Receive(s.rx, data));
      if a.PacketArrives? {
        FlatSnoc(s.kind, s.packets, a.packet);
      }
    }
  }

  /** Nothing the chip does on its own breaks the invariant. */
  lemma StepKeepsInv(s: Sock, a: Action)
    requires Inv(s)
    ensures Inv(Step(s, a))
  {
    hide Wrap, Ahead;
    match a
    case Transmits => TxStepKeepsInv(s, a);
    case Acked(_) => TxStepKeepsInv(s, a);
    case Arrives(_) => RxStepKeepsInv(s, a);
    case PacketArrives(_) => RxStepKeepsInv(s, a);
    case Completes(txAt, rxAt) => FinishKeepsInv(s, txAt, rxAt);
    case Connects(txAt, rxAt) =>
      EmptyTxInv(s.tx.mem, txAt);
      EmptyRxInv(s.rx.mem, rxAt);
    case _ =>
  }

  // ---------------------------------------------------------------- how a socket evolves

  /** A connection has been established meanwhile and both rings are new. */
  predicate Reconnected(s: Sock, s': Sock) {
    && PreConnection(s.sr)
    && |s'.tx.mem| == |s.tx.mem| && |s'.rx.mem| == |s.rx.mem|
    && s'.tx.committed == [] && s'.tx.stage == s'.tx.wr && s'.sentTo == []
    && s'.rx.released == 0 && s'.rx.rd == s'.rx.done
  }

  predicate StatusDrift(a: Status, b: Status) {
    && (PreConnection(b) ==> PreConnection(a))
    && (Sendable(b) ==> Sendable(a) || PreConnection(a))
    && (b == Established ==> a == Established || PreConnection(a))
    && (b == Init ==> a == Init) && (b == SynSent ==> a == SynSent) && (b == Listening ==> a == Listening)
    && (a == Init ==> b == Init || b == Closed)
    && (a == Closed ==> b == Closed)
    && (DatagramStatus(a) || DatagramStatus(b) ==> a == b)
  }

  /** Changes the chip can make while the same value stands in Sn_CR: free space and
      received bytes grow, nothing handed over or released changes. */
  predicate Drift(s: Sock, s': Sock) {
    && s'.mr == s.mr && s'.kind == s.kind && s'.cr == s.cr
    && s'.ends == s.ends && s'.target == s.target && s'.keeps == s.keeps
    && StatusDrift(s.sr, s'.sr)
    && ((TxDrift(s.tx, s'.tx) && RxDrift(s.rx, s'.rx)
         && s.packets <= s'.packets && s'.sentTo == s.sentTo)
        || Reconnected(s, s'))
    && s'.sends == s.sends
    && ((s'.oks == s.oks && s'.irq.sendOk == s.irq.sendOk) || (s'.oks > s.oks && s'.irq.sendOk))
    && (s.irq.timeout ==> s'.irq.timeout) && (s.irq.con ==> s'.irq.con)
    && (s'.irq.con ==> s.irq.con || PreConnection(s.sr))
  }

  lemma DriftTransitive(s: Sock, s1: Sock, s2: Sock)
    requires Drift(s, s1) && Drift(s1, s2)
    ensures Drift(s, s2)
  {
  }

  /** The chip alone changes neither: it confirms only what has been sent. */
  lemma SettledDrift(s: Sock, s': Sock)
    requires Drift(s, s') && Inv(s')
    ensures Settled(s) ==> Settled(s')
    ensures OneOut(s) ==> OneOut(s')
    ensures s'.sends == s.sends
  {
    hide TxInv, RxInv, FrameInv, TxDrift, RxDrift, StagedLen, TakenLen, Fsr, Rsr;
  }

  /** Any change of a socket the chip can cause by itself: it may also finish the pending
      command, once. */
  ghost predicate Grew(s: Sock, s': Sock) {
    || Drift(s, s')
    || (s.cr != Idle && exists a, txAt, rxAt ::
          Inv(a) && Drift(s, a) && Drift(Finish(a, txAt, rxAt), s'))
  }

  /** A command that was pending and is done was finished at some instant in between. */
  lemma Finished(s: Sock, s': Sock) returns (a: Sock, txAt: word, rxAt: word)
    requires Grew(s, s') && s.cr != Idle && s'.cr == Idle
    ensures Inv(a) && Drift(s, a) && Drift(Finish(a, txAt, rxAt), s')
  {
    hide Finish, Inv, StatusDrift, TxDrift, RxDrift;
    a, txAt, rxAt :| Inv(a) && Drift(s, a) && Drift(Finish(a, txAt, rxAt), s');
  }

  lemma DriftKeepsCommand(s: Sock, s': Sock)
    requires Drift(s, s')
    ensures s'.cr == s.cr
  {
  }

  lemma FinishClearsCommand(s: Sock, txAt: word, rxAt: word)
    requires Inv(s)
    ensures Finish(s, txAt, rxAt).cr == Idle
  {
    hide Inv, IsSend, Wrap, Ahead;
  }

  lemma FinishKeepsKind(s: Sock, txAt: word, rxAt: word)
    requires Inv(s) && s.cr != Open
    ensures Finish(s, txAt, rxAt).kind == s.kind
  {
    hide Inv, IsSend, Wrap, Ahead;
  }

  /** Only OPEN makes a socket one of another protocol. */
  lemma GrewKeepsKind(s: Sock, s': Sock)
    requires Grew(s, s') && s.cr != Open
    ensures s'.kind == s.kind
  {
    hide Finish, Inv, StatusDrift, TxDrift, RxDrift;
    if !Drift(s, s') {
      var a, txAt, rxAt :| Inv(a) && Drift(s, a) && Drift(Finish(a, txAt, rxAt), s');
      FinishKeepsKind(a, txAt, rxAt);
    }
  }

  /** Nor does anything else make a socket forget packets, once it is past the connection phase. */
  lemma GrewKeepsPackets(s: Sock, s': Sock)
    requires Grew(s, s') && s.cr != Open && !PreConnection(s.sr)
    ensures s.packets <= s'.packets
  {
    hide Finish, Inv, TxDrift, RxDrift;
    if !Drift(s, s') {
      var a, txAt, rxAt :| Inv(a) && Drift(s, a) && Drift(Finish(a, txAt, rxAt), s');
      FinishKeepsPackets(a, txAt, rxAt);
    }
  }

  lemma FinishKeepsPackets(s: Sock, txAt: word, rxAt: word)
    requires Inv(s) && s.cr != Open && !PreConnection(s.sr)
    ensures Finish(s, txAt, rxAt).packets == s.packets && !PreConnection(Finish(s, txAt, rxAt).sr)
  {
    hide Inv, IsSend, Wrap, Ahead;
  }

  lemma GrewTransitive(s: Sock, s1: Sock, s2: Sock)
    requires Grew(s, s1) && Grew(s1, s2)
    ensures Grew(s, s2)
  {
    hide Drift, Finish, Inv;
    if Drift(s, s1) {
      DriftKeepsCommand(s, s1);
      if Drift(s1, s2) {
        DriftTransitive(s, s1, s2);
      } else {
        var a, txAt, rxAt :|
          Inv(a) && Drift(s1, a) && Drift(Finish(a, txAt, rxAt), s2);
        DriftTransitive(s, s1, a);
      }
    } else {
      var a, txAt, rxAt :|
        Inv(a) && Drift(s, a) && Drift(Finish(a, txAt, rxAt), s1);
      DriftKeepsCommand(Finish(a, txAt, rxAt), s1);
      FinishClearsCommand(a, txAt, rxAt);
      DriftTransitive(Finish(a, txAt, rxAt), s1, s2);
    }
  }

  lemma RxStepDrift(s: Sock, a: Action)
    requires Inv(s) && (a.Arrives? || a.PacketArrives?)
    ensures Drift(s, Step(s, a))
  {
    hide Wrap, Ahead, Cell, TxInv, RxInv, FrameInv, RingWrite, Frame;
  }

  lemma TxStepDrift(s: Sock, a: Action)
    requires Inv(s) && (a.Transmits? || a.Acked?)
    ensures Drift(s, Step(s, a))
  {
    hide Wrap, Ahead, Cell, TxInv, RxInv, FrameInv, Inv, Receive, Frame, Finish;
    assert s.tx.wire <= Transmit(s.tx).wire;
  }

  lemma StatusStepDrift(s: Sock, a: Action)
    requires Inv(s) && (a.TimesOut? || a.Moves? || a.RaisesSendOk?)
    ensures Drift(s, Step(s, a))
  {
    hide Wrap, Ahead, Cell, TxInv, RxInv, FrameInv, StagedLen, TakenLen, Fsr, Rsr, Receive, Frame, Finish,
      Transmit, Acknowledge, Restart, Reconnected;
  }

  lemma ConnectDrift(s: Sock, a: Action)
    requires Inv(s) && a.Connects?
    ensures Drift(s, Step(s, a))
  {
    hide Wrap, Ahead, Cell, TxInv, RxInv, FrameInv, StagedLen, TakenLen, Fsr, Rsr, Receive, Frame, Finish,
      Transmit, Acknowledge, TxDrift, RxDrift;
    DriftReflexive(s);
  }

  lemma StepDrift(s: Sock, a: Action)
    requires Inv(s) && !a.Completes?
    ensures Drift(s, Step(s, a))
  {
    hide Inv, Drift, Step;
    match a
    case Arrives(_) => RxStepDrift(s, a);
    case PacketArrives(_) => RxStepDrift(s, a);
    case Transmits => TxStepDrift(s, a);
    case Acked(_) => TxStepDrift(s, a);
    case Connects(_, _) => ConnectDrift(s, a);
    case _ => StatusStepDrift(s, a);
  }

  lemma StepGrew(s: Sock, a: Action)
    requires Inv(s)
    ensures Grew(s, Step(s, a))
  {
    hide Drift, Finish, Inv;
    DriftReflexive(s);
    if !a.Completes? {
      StepDrift(s, a);
    } else if s.cr == Idle {
      FinishIdle(s, a.txAt, a.rxAt);
    } else {
      DriftReflexive(Step(s, a));
      assert Drift(Finish(s, a.txAt, a.rxAt), Step(s, a));
    }
  }

  lemma DriftReflexive(s: Sock)
    ensures Drift(s, s)
  {
  }

  lemma FinishIdle(s: Sock, txAt: word, rxAt: word)
    requires Inv(s) && s.cr == Idle
    ensures Finish(s, txAt, rxAt) == s
  {
    hide Inv;
  }

  /** Any number of chip actions, in order. */
  function Run(s: Sock, actions: seq<Action>): (r: Sock)
    requires Inv(s)
    ensures Inv(r)
    decreases |actions|
  {
    if actions == [] then s else
      StepKeepsInv(s, actions[0]);
      Run(Step(s, actions[0]), actions[1..])
  }

  /** Whatever the chip does in any number of steps is a `Grew` change. */
  lemma {:induction false} RunGrew(s: Sock, actions: seq<Action>)
    requires Inv(s)
    ensures Grew(s, Run(s, actions))
    decreases |actions|
  {
    hide Drift, Inv, Step;
    DriftReflexive(s);
    if actions != [] {
      StepKeepsInv(s, actions[0]);
      StepGrew(s, actions[0]);
      RunGrew(Step(s, actions[0]), actions[1..]);
      GrewTransitive(s, Step(s, actions[0]), Run(s, actions));
    }
  }

  /** A command that could be written could still be written after the chip has gone on. */
  lemma CommandStays(s: Sock, c: Command, a: Sock)
    requires Inv(s.(cr := c)) && s.cr == Idle && Drift(s, a) && Inv(a)
    ensures Inv(a.(cr := c)) && Drift(s.(cr := c), a.(cr := c))
  {
    if TxDrift(s.tx, a.tx) && RxDrift(s.rx, a.rx) {
      TxAfterDrift(s, a);
      RxAfterDrift(s, a);
    }
    hide TxInv, RxInv, FrameInv, StagedLen, TakenLen, Fsr, Rsr, TxDrift, RxDrift;
  }

  lemma TxAfterDrift(s: Sock, a: Sock)
    requires TxInv(s.tx) && TxInv(a.tx) && TxDrift(s.tx, a.tx)
    ensures StagedLen(a.tx) == StagedLen(s.tx) && Fsr(s.tx) <= Fsr(a.tx)
  {
    FsrValue(s.tx);
    FsrValue(a.tx);
    hide Wrap, Ahead, Cell;
  }

  lemma RxAfterDrift(s: Sock, a: Sock)
    requires RxInv(s.rx) && RxInv(a.rx) && RxDrift(s.rx, a.rx)
    ensures TakenLen(a.rx) == TakenLen(s.rx) && Rsr(s.rx) <= Rsr(a.rx)
  {
    RsrValue(s.rx);
    RsrValue(a.rx);
    hide Wrap, Ahead, Cell;
  }

  // ------------------------------------------------- what a command has done when it is done

  /** SEND has taken over the staged bytes. */
  function Carried(s: Sock, c: Command): Sock
    requires StagedLen(s.tx) <= |s.tx.mem|
  {
    s.(cr := Idle, tx := Commit(s.tx), sends := s.sends + 1, sentTo := s.sentTo + Outgoing(s, c, Staged(s.tx)))
  }

  /** The host has read `n` bytes and RECV has released them. */
  function Released(s: Sock, n: nat): Sock {
    s.(rx := RxReleased(s.rx, n))
  }

  function RxReleased(r: RxSide, n: nat): RxSide {
    var end := Wrap(r.done + n);
    r.(rd := end, done := end, released := r.released + n)
  }

  function RxTaking(r: RxSide, n: nat): RxSide { r.(rd := Wrap(r.rd + n)) }

  lemma StagedDrift(t: TxSide, t': TxSide)
    requires TxDrift(t, t') && StagedLen(t) <= |t.mem|
    ensures StagedLen(t') == StagedLen(t) && Staged(t') == Staged(t)
    ensures TxDrift(Commit(t), Commit(t'))
  {
    hide Wrap, Ahead;
  }

  lemma FinishSendIs(s: Sock, txAt: word, rxAt: word)
    requires Inv(s) && IsSend(s.cr)
    ensures StagedLen(s.tx) <= |s.tx.mem| && Finish(s, txAt, rxAt) == Carried(s, s.cr)
  {
    FsrValue(s.tx);
    hide Inv, Commit, Wrap, Ahead, Staged, Outgoing;
  }

  lemma FinishedSend(s: Sock, c: Command, a: Sock, txAt: word, rxAt: word)
    requires StagedLen(s.tx) <= |s.tx.mem| && !PreConnection(s.sr) && IsSend(c)
    requires Inv(a) && Drift(s.(cr := c), a)
    ensures Drift(Carried(s, c), Finish(a, txAt, rxAt))
  {
    hide Wrap, Ahead, Finish, Inv, TxDrift, RxDrift, Commit, Staged, StagedLen;
    FinishSendIs(a, txAt, rxAt);
    StagedDrift(s.tx, a.tx);
  }

  /** When SEND is done the chip has taken over exactly the staged bytes, whatever else it
      did meanwhile. */
  lemma SendOutcome(s: Sock, c: Command, s': Sock)
    requires StagedLen(s.tx) <= |s.tx.mem| && !PreConnection(s.sr) && IsSend(c)
    requires Grew(s.(cr := c), s') && s'.cr == Idle
    ensures Drift(Carried(s, c), s')
  {
    hide Finish, Drift, Grew, Inv, Carried, StagedLen;
    var a, txAt, rxAt := Finished(s.(cr := c), s');
    FinishedSend(s, c, a, txAt, rxAt);
    DriftTransitive(Carried(s, c), Finish(a, txAt, rxAt), s');
  }

  /** The socket with the read pointer moved by `n` and RECV just written to Sn_CR. */
  function Taking(s: Sock, n: nat): Sock {
    s.(rx := RxTaking(s.rx, n), cr := Recv)
  }

  lemma TakenAfter(r: RxSide, n: nat)
    requires r.rd == r.done && n < WORD
    ensures TakenLen(RxTaking(r, n)) == n
  {
    AheadOfOrigin(r.done, n, 0);
  }

  lemma TakingInv(s: Sock, n: nat)
    requires Inv(s) && s.cr == Idle && !PreConnection(s.sr)
    requires s.rx.rd == s.rx.done && n <= Rsr(s.rx)
    ensures Inv(Taking(s, n)) && TakenLen(RxTaking(s.rx, n)) == n
  {
    RsrValue(s.rx);
    TakenAfter(s.rx, n);
    hide Wrap, Ahead, Cell;
    assert RxInv(RxTaking(s.rx, n));
  }

  lemma RecvOutcome(s: Sock, n: nat, s': Sock)
    requires Inv(s) && s.cr == Idle && !PreConnection(s.sr)
    requires s.rx.rd == s.rx.done && n <= Rsr(s.rx)
    requires Grew(Taking(s, n), s') && s'.cr == Idle
    ensures Drift(Released(s, n), s')
  {
    hide Finish, Drift, Grew, Inv, Released;
    TakingInv(s, n);
    var a, txAt, rxAt := Finished(Taking(s, n), s');
    FinishedRecv(s, n, a, txAt, rxAt);
    DriftTransitive(Released(s, n), Finish(a, txAt, rxAt), s');
  }

  lemma ReleaseAfterTaking(r: RxSide, n: nat, r': RxSide)
    requires r.rd == r.done && TakenLen(RxTaking(r, n)) == n && RxDrift(RxTaking(r, n), r')
    ensures RxDrift(RxReleased(r, n), Release(r'))
  {
    hide Wrap, Ahead;
    assert TakenLen(r') == TakenLen(RxTaking(r, n));
  }

  lemma FinishedRecv(s: Sock, n: nat, a: Sock, txAt: word, rxAt: word)
    requires s.cr == Idle && !PreConnection(s.sr) && s.rx.rd == s.rx.done
    requires TakenLen(RxTaking(s.rx, n)) == n && Inv(a) && Drift(Taking(s, n), a)
    ensures Drift(Released(s, n), Finish(a, txAt, rxAt))
  {
    hide Wrap, Ahead, Finish, Inv, RxDrift, TxDrift, RxReleased, RxTaking, TakenLen, Release;
    ReleaseAfterTaking(s.rx, n, a.rx);
    FinishRecvIs(a, txAt, rxAt);
  }

  lemma FinishRecvIs(s: Sock, txAt: word, rxAt: word)
    requires Inv(s) && s.cr == Recv
    ensures Finish(s, txAt, rxAt) == s.(cr := Idle, rx := Release(s.rx))
  {
    hide Inv, Release;
  }

  /** After OPEN both rings are empty and the mode register's protocol is in force. */
  lemma OpenOutcome(s: Sock, s': Sock)
    requires s.cr == Idle && s.sr == Closed && s.sends == 0 && !s.irq.sendOk
    requires Grew(s.(cr := Open), s') && s'.cr == Idle && Inv(s')
    ensures Fresh(s, s')
  {
    hide Finish, Drift, Grew, Inv, Fresh;
    var a, txAt, rxAt := Finished(s.(cr := Open), s');
    FinishedOpen(s, a, txAt, rxAt);
    FreshDrift(s, Finish(a, txAt, rxAt), s');
  }

  lemma FinishedOpen(s: Sock, a: Sock, txAt: word, rxAt: word)
    requires s.sr == Closed && s.sends == 0 && !s.irq.sendOk && Inv(a) && Drift(s.(cr := Open), a)
    ensures Fresh(s, Finish(a, txAt, rxAt))
  {
    hide Wrap, Ahead, Cell, TxInv, RxInv, FrameInv;
  }

  lemma FreshDrift(s: Sock, f: Sock, s': Sock)
    requires Fresh(s, f) && Drift(f, s') && Inv(s')
    ensures Fresh(s, s')
  {
    hide Wrap, Ahead, Cell, TxInv, RxInv, FrameInv;
  }

  predicate Fresh(s: Sock, s': Sock) {
    && s'.cr == Idle && s'.mr == s'.kind == s.mr && s'.ends == s.ends
    && s'.tx.committed == [] && s'.tx.stage == s'.tx.wr
    && s'.rx.released == 0 && s'.rx.rd == s'.rx.done
    && s'.sentTo == [] && s'.sends == 0 && s'.oks == 0 && !s'.irq.sendOk
    && StatusDrift(OpenStatus(s.mr), s'.sr)
  }

  predicate OnlyStatus(c: Command) {
    c == Listen || c == Connect || c == Connect6 || c == Discon || c == SendKeep
  }

  /** LISTEN, CONNECT, DISCON and SEND_KEEP leave the buffers and streams alone. */
  lemma FinishStatusIs(s: Sock, txAt: word, rxAt: word)
    requires Inv(s) && OnlyStatus(s.cr)
    ensures Finish(s, txAt, rxAt) ==
              s.(cr := Idle, sr := Finish(s, txAt, rxAt).sr, target := TargetAfter(s),
                 keeps := s.keeps + if s.cr == SendKeep then 1 else 0)
    ensures PreConnection(Finish(s, txAt, rxAt).sr) ==> PreConnection(s.sr)
    ensures Sendable(Finish(s, txAt, rxAt).sr) ==> Sendable(s.sr)
    ensures DatagramStatus(Finish(s, txAt, rxAt).sr) <==> DatagramStatus(s.sr)
    ensures Finish(s, txAt, rxAt).sr == Closed ==> s.sr == Closed || PreConnection(s.sr)
    ensures s.sr == Closed || DatagramStatus(s.sr) ==> Finish(s, txAt, rxAt).sr == s.sr
  {
    hide Inv;
  }

  /** What the four commands do to the status. */
  lemma FinishedWith(s: Sock, txAt: word, rxAt: word)
    requires Inv(s)
    ensures s.cr == Discon ==>
              !Sendable(Finish(s, txAt, rxAt).sr) && !PreConnection(Finish(s, txAt, rxAt).sr)
    ensures s.cr == Listen || s.cr == Connect || s.cr == Connect6 ==> Finish(s, txAt, rxAt).sr != Init
    ensures s.cr == Listen && s.sr == Init ==> Finish(s, txAt, rxAt).sr == Listening
    ensures (s.cr == Connect || s.cr == Connect6) && s.sr == Init ==> Finish(s, txAt, rxAt).sr == SynSent
  {
    hide Inv;
  }

  lemma FinishCloseIs(s: Sock, txAt: word, rxAt: word)
    requires Inv(s) && s.cr == Close
    ensures Finish(s, txAt, rxAt) == s.(cr := Idle, sr := Closed, sends := 0, oks := 0)
  {
    hide Inv;
  }
}
