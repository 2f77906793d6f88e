/** The TCP echo server as a client of the socket API. */
module Echo {
  import opened Ring
  import opened Chip
  import opened SocketApi
  import opened Bits

  const DATA_BUF_SIZE: word := 2048
  const SOCK_IO_NONBLOCK: byte := 1

  datatype LoopbackMode = AsIpv4 | AsIpv6 | AsIpDual | ModeUnset

  function ProtocolOf(mode: LoopbackMode): byte
    requires !mode.ModeUnset?
  {
    match mode
    case AsIpv4 => TCP4
    case AsIpv6 => TCP6
    case AsIpDual => TCPD
  }

  /** Between two polls: what was sent back is what was received since the connection, or
      the socket is closed and what was sent back is the beginning of it. */
  ghost predicate Echoing(d: Driver, sn: nat)
    reads d
  {
    && d.Valid() && sn < SOCKETS == |d.chip| == |d.log|
    && (d.chip[sn].sr != Closed ==> IsStream(d.chip[sn].kind))
    && d.log[sn].accepted <= d.log[sn].delivered
    && (d.chip[sn].sr != Closed ==> d.log[sn].accepted == d.log[sn].delivered)
  }

  /** `send` cannot be left with bytes the chip would take twice. */
  ghost predicate Reliable(d: Driver, sn: nat)
    reads d
  {
    d.latched || !IsSet(d.sockIoMode, sn)
  }

  /** Inside a poll the chip never holds more than the beginning of what was received. */
  ghost predicate Behind(d: Driver, sn: nat)
    reads d
  {
    sn < |d.chip| && sn < |d.log| && d.chip[sn].tx.committed <= d.log[sn].delivered
  }

  lemma Lengths(d: Driver, sn: nat)
    requires d.Valid() && sn < SOCKETS
    ensures |d.chip| == |d.log| == SOCKETS
    ensures d.chip[sn].tx.committed == d.log[sn].accepted
  {
    CommittedIsAccepted(d.latched, d.chip, d.H(), sn);
  }

  /** Sends what is left of `buf` behind its first `sentsize` bytes. */
  method SendRest(d: Driver, sn: nat, buf: seq<byte>, sentsize: nat, ghost before: seq<byte>)
    returns (ret: Ret, ghost when: Sock)
    requires sn < SOCKETS && sentsize <= |buf| < WORD && d.Valid() && |d.chip| == |d.log| == SOCKETS
    requires IsStream(d.chip[sn].kind) && Reliable(d, sn)
    requires d.log[sn].accepted == before + buf[..sentsize] && d.log[sn].delivered == before + buf
    modifies d
    ensures Apart(old(d.chip), d.chip, sn)
    ensures Isolated(old(d.H()), d.H(), sn) && |d.chip| == |d.log| == SOCKETS
    ensures Reliable(d, sn) && d.chip[sn].kind == old(d.chip[sn].kind)
    ensures IsSet(d.sockIoMode, sn) ==> old(IsSet(d.sockIoMode, sn))
    ensures d.log[sn].delivered == old(d.log[sn].delivered)
    ensures ret.Done? ==> d.Valid()
    ensures ret.Done? && ret.code >= 0 ==>
              && sentsize + ret.code <= |buf|
              && d.log[sn].accepted == before + buf[..sentsize + ret.code]
              && |d.script| <= old(|d.script|) && (old(|d.script|) > 0 ==> |d.script| < old(|d.script|))
    ensures ret.Done? && ret.code >= 0 ==> old(d.chip[sn].rx.arrived) <= d.chip[sn].rx.arrived
    ensures ret.Done? && ret.code < 0 ==>
              && d.log[sn].accepted == before + buf[..sentsize]
              && !Sendable(when.sr) && Later(old(d.chip[sn]), when)
    ensures ret.Done? && ret.code >= 0 ==> Later(old(d.chip[sn]), d.chip[sn])
    ensures ret.Running? ==> d.script == []
    ensures ret.Running? ==> Behind(d, sn) && d.log[sn].accepted == before + buf[..sentsize]
  {
    hide Inv, PortOk, Isolated, OthersGood, IsSet, LinkedAt, Apart;
    ApartChain(d.chip, sn);
    var rest := buf[sentsize..];
    ret, when := d.Send(sn, rest);
    ChipLength(d.latched, d.chip, d.H(), sn);
    if ret.Running? {
      SentSoFar(before, buf, sentsize, d.chip[sn].tx.committed);
    } else if ret.code >= 0 {
      assert buf[..sentsize] + rest[..ret.code] == buf[..sentsize + ret.code];
      assert before + buf[..sentsize] + rest[..ret.code] == before + (buf[..sentsize] + rest[..ret.code]);
    }
  }

  /** The inner loop: sends `buf` back, in as many pieces as `send` makes of it. */
  method SendBack(d: Driver, sn: nat, buf: seq<byte>) returns (r: Ret, ghost when: Sock)
    requires sn < SOCKETS && |buf| < WORD && d.Valid() && |d.chip| == |d.log| == SOCKETS
    requires IsStream(d.chip[sn].kind) && Reliable(d, sn)
    requires d.log[sn].delivered == d.log[sn].accepted + buf
    modifies d
    ensures Apart(old(d.chip), d.chip, sn)
    ensures Isolated(old(d.H()), d.H(), sn) && |d.chip| == |d.log| == SOCKETS
    ensures Reliable(d, sn) && d.chip[sn].kind == old(d.chip[sn].kind)
    ensures IsSet(d.sockIoMode, sn) ==> old(IsSet(d.sockIoMode, sn))
    ensures d.log[sn].delivered == old(d.log[sn].delivered)
    ensures r.Done? ==> d.Valid()
    ensures r.Done? && r.code >= 0 ==> d.log[sn].accepted == d.log[sn].delivered
    ensures r.Done? && r.code >= 0 ==> old(d.chip[sn].rx.arrived) <= d.chip[sn].rx.arrived
    ensures r.Done? && r.code < 0 ==>
              && d.chip[sn].sr == Closed && d.log[sn].accepted <= d.log[sn].delivered
              && !Sendable(when.sr) && Later(old(d.chip[sn]), when)
    ensures r.Done? && r.code >= 0 ==> r.code == 1 && Later(old(d.chip[sn]), d.chip[sn])
    ensures r.Running? ==> d.script == []
    ensures r.Running? ==> Behind(d, sn) && d.log[sn].accepted != d.log[sn].delivered
  {
    hide Inv, PortOk, Isolated, OthersGood, IsSet, Apart;
    ApartChain(d.chip, sn);
    var sentsize := 0;
    ghost var h, before := d.H(), d.log[sn].accepted;
    NothingChanged(h, sn);
    when := d.chip[sn];
    while sentsize != |buf|
      invariant Apart(old(d.chip), d.chip, sn)
      invariant 0 <= sentsize <= |buf| && d.Valid() && |d.chip| == |d.log| == SOCKETS
      invariant Reliable(d, sn) && d.chip[sn].kind == old(d.chip[sn].kind)
      invariant IsSet(d.sockIoMode, sn) ==> old(IsSet(d.sockIoMode, sn))
      invariant Isolated(h, d.H(), sn) && old(d.chip[sn].rx.arrived) <= d.chip[sn].rx.arrived
      invariant d.log[sn].accepted == before + buf[..sentsize]
      invariant d.log[sn].delivered == before + buf
      invariant Later(old(d.chip[sn]), d.chip[sn])
      decreases |d.script|, |buf| - sentsize
    {
      ghost var h1 := d.H();
      var ret;
      ret, when := SendRest(d, sn, buf, sentsize, before);
      IsolatedTransitive(h, h1, d.H(), sn);
      if ret.Running? {
        return ret, when;
      }
      if ret.code < 0 {
        ghost var h2 := d.H();
        var closed := d.CloseNow(sn);
        ChipLength(d.latched, d.chip, d.H(), sn);
        IsolatedTransitive(h, h2, d.H(), sn);
        return if closed then ret else Running, when;
      }
      sentsize := sentsize + ret.code;
      if ret.code == 0 && d.script == [] {
        Lengths(d, sn);
        return Running, when;
      }
    }
    r := Done(1);
  }

  lemma SentSoFar(before: seq<byte>, buf: seq<byte>, sentsize: nat, committed: seq<byte>)
    requires sentsize <= |buf|
    requires committed == before + buf[..sentsize]
             || exists n | 0 <= n <= |buf| - sentsize ::
                  committed == before + buf[..sentsize] + buf[sentsize..][..n]
    ensures committed <= before + buf
  {
    if committed != before + buf[..sentsize] {
      var n :| 0 <= n <= |buf| - sentsize && committed == before + buf[..sentsize] + buf[sentsize..][..n];
      assert committed == before + buf[..sentsize + n];
    }
  }

  function Min(a: int, b: int): int { if a < b then a else b }

  /** What one chunk moves: as many of the pending bytes as the buffer holds, exactly as many if
      nothing new has arrived, and no fewer unless the received size has passed 256. */
  predicate Moved(s: Sock, delivered: seq<byte>, s': Sock, delivered': seq<byte>) {
    var pending := |Pending(s)|;
    && s.rx.arrived <= s'.rx.arrived && delivered <= delivered'
    && (|| |delivered'| >= |delivered| + Min(pending, 2048)
        || Crossed(pending, |s'.rx.arrived| - |delivered|))
    && (s'.rx.arrived == s.rx.arrived ==> |delivered'| == |delivered| + Min(pending, 2048))
  }

  /** What is true of a chunk from some instant on is true of it from an earlier one. */
  lemma MovedSince(s0: Sock, s: Sock, delivered: seq<byte>, s': Sock, delivered': seq<byte>)
    requires delivered + Pending(s0) == s0.rx.arrived && delivered + Pending(s) == s.rx.arrived
    requires s0.rx.arrived <= s.rx.arrived && Moved(s, delivered, s', delivered')
    ensures Moved(s0, delivered, s', delivered')
  {
    hide Pending;
  }

  /** More may arrive behind a chunk. */
  lemma MovedOn(s: Sock, delivered: seq<byte>, s1: Sock, delivered': seq<byte>, s': Sock)
    requires Moved(s, delivered, s1, delivered') && s1.rx.arrived <= s'.rx.arrived
    ensures Moved(s, delivered, s', delivered')
  {
    hide Pending;
  }

  /** One chunk: at most DATA_BUF_SIZE pending bytes are received and sent back, exactly as many
      as that if nothing new arrives meanwhile, and no fewer in any case unless the received size
      passes 256 while it is read.  `go` says that the poll goes on behind the chunk. */
  method EchoChunk(d: Driver, sn: nat) returns (r: Ret, go: bool, ghost when: Sock)
    requires sn < SOCKETS && d.Valid() && |d.chip| == |d.log| == SOCKETS
    requires IsStream(d.chip[sn].kind) && Reliable(d, sn)
    requires d.log[sn].accepted == d.log[sn].delivered
    modifies d
    ensures Apart(old(d.chip), d.chip, sn)
    ensures Isolated(old(d.H()), d.H(), sn) && |d.chip| == |d.log| == SOCKETS
    ensures Reliable(d, sn) && d.chip[sn].kind == old(d.chip[sn].kind)
    ensures IsSet(d.sockIoMode, sn) ==> old(IsSet(d.sockIoMode, sn))
    ensures old(d.log[sn].delivered) <= d.log[sn].delivered
    ensures |d.log[sn].delivered| <= |old(d.log[sn].delivered)| + 2048
    ensures r.Done? && r.code >= 0 ==>
              Moved(old(d.chip[sn]), old(d.log[sn].delivered), d.chip[sn], d.log[sn].delivered)
    ensures r.Done? && r.code >= 0 && d.chip[sn].rx.arrived == old(d.chip[sn].rx.arrived) ==> go
    ensures r.Done? ==> d.Valid()
    ensures go ==> r == Done(1)
    ensures r.Done? && r.code >= 0 && !go ==>
              Crossed(|old(Pending(d.chip[sn]))|, |d.chip[sn].rx.arrived| - |old(d.log[sn].delivered)|)
    ensures go || (r.Done? && r.code == 0) ==> d.log[sn].accepted == d.log[sn].delivered
    ensures r.Done? && !go ==> r.code <= 0 && d.log[sn].accepted <= d.log[sn].delivered
    ensures r.Done? && d.log[sn].accepted != d.log[sn].delivered ==> d.chip[sn].sr == Closed
    ensures r.Running? ==> Behind(d, sn) && d.script == []
    ensures r.Done? && r.code >= 0 ==> Later(old(d.chip[sn]), d.chip[sn])
    ensures r.Done? && r.code < 0 ==>
              && !Sendable(when.sr) && Later(old(d.chip[sn]), when)
              && !Sendable(d.chip[sn].sr) && (d.chip[sn].sr == Closed || Later(old(d.chip[sn]), d.chip[sn]))
  {
    hide Pending, Inv, PortOk, Isolated, OthersGood, IsSet, Apart;
    ApartChain(d.chip, sn);
    ghost var h, s := d.H(), d.chip[sn];
    NothingChanged(h, sn);
    when := s;
    CommittedIsAccepted(d.latched, d.chip, h, sn);
    var receivedSize := d.PendingSize(sn);
    CommittedIsAccepted(d.latched, d.chip, h, sn);
    ghost var s1 := d.chip[sn];
    PendingIsRead(s, s1, d.log[sn].delivered);
    if receivedSize > 0 {
      if receivedSize > DATA_BUF_SIZE {
        receivedSize := DATA_BUF_SIZE;
      }
      var ret, buf;
      ret, buf, when := RecvAll(d, sn, receivedSize);
      if ret.Running? || ret.code <= 0 {
        return ret, false, when;
      }
      ghost var h1 := d.H();
      ret, when := SendBack(d, sn, buf);
      IsolatedTransitive(h, h1, d.H(), sn);
      if ret.Running? || ret.code < 0 {
        return ret, false, when;
      }
    }
    r, go := Done(1), true;
  }

  lemma PendingIsRead(s: Sock, s': Sock, delivered: seq<byte>)
    requires delivered + Pending(s) == s.rx.arrived && delivered + Pending(s') == s'.rx.arrived
    ensures s'.rx.arrived == s.rx.arrived ==> |Pending(s')| == |Pending(s)|
  {
  }

  /** Receives `limit` bytes that are known to be pending. */
  method RecvAll(d: Driver, sn: nat, limit: nat) returns (r: Ret, data: seq<byte>, ghost when: Sock)
    requires sn < SOCKETS && d.Valid() && |d.chip| == |d.log| == SOCKETS && 0 < limit < WORD
    requires IsStream(d.chip[sn].kind) && Reliable(d, sn)
    requires limit <= |Pending(d.chip[sn])| <= |d.chip[sn].rx.mem|
    requires d.log[sn].accepted == d.log[sn].delivered
    modifies d
    ensures Apart(old(d.chip), d.chip, sn)
    ensures Isolated(old(d.H()), d.H(), sn) && |d.chip| == |d.log| == SOCKETS
    ensures Reliable(d, sn) && d.chip[sn].kind == old(d.chip[sn].kind)
    ensures IsSet(d.sockIoMode, sn) ==> old(IsSet(d.sockIoMode, sn))
    ensures d.log[sn].accepted == old(d.log[sn].accepted)
    ensures r.Done? ==> d.Valid() && d.log[sn].delivered == old(d.log[sn].delivered) + data
    ensures r.Done? && r.code > 0 ==> r.code == |data| == limit
    ensures r.Done? && r.code <= 0 ==> data == []
    ensures r == Done(0) ==>
              Crossed(|old(Pending(d.chip[sn]))|, |d.chip[sn].rx.arrived| - |old(d.log[sn].delivered)|)
    ensures r.Done? && r.code >= 0 ==> Later(old(d.chip[sn]), d.chip[sn])
    ensures r.Done? && r.code < 0 ==>
              && !Sendable(when.sr) && Later(old(d.chip[sn]), when)
              && !Sendable(d.chip[sn].sr) && (d.chip[sn].sr == Closed || Later(old(d.chip[sn]), d.chip[sn]))
    ensures r.Running? ==> d.script == []
    ensures r.Done? && r.code >= 0 ==> old(d.chip[sn].rx.arrived) <= d.chip[sn].rx.arrived
    ensures r.Running? ==> Behind(d, sn) && d.log[sn].delivered == old(d.log[sn].delivered)
  {
    hide Inv, PortOk, Isolated, OthersGood, IsSet, Pending, Apart;
    ApartChain(d.chip, sn);
    ChipLength(d.latched, d.chip, d.H(), SOCKETS);
    ThisGood(d.latched, d.chip, d.H(), sn);
    PendingIsRsr(d.chip[sn]);
    CommittedIsAccepted(d.latched, d.chip, d.H(), sn);
    r, data, when := d.Recv(sn, limit);
    ChipLength(d.latched, d.chip, d.H(), sn);
    if r == Done(0) {
      CommittedIsAccepted(d.latched, d.chip, d.H(), sn);
      PendingIsRsr(d.chip[sn]);
    }
  }

  /** The CLOSE_WAIT branch: one chunk, then the connection is ended.  `ended` says that it came
      to that; nothing can be received any more then.  If nothing new arrives meanwhile, every
      byte that arrived has been sent back exactly when no more than DATA_BUF_SIZE were pending;
      the others are lost. */
  method EchoLast(d: Driver, sn: nat) returns (r: Ret, ended: bool, ghost when: Sock, ghost seen: Irq)
    requires sn < SOCKETS && d.Valid() && |d.chip| == |d.log| == SOCKETS
    requires IsStream(d.chip[sn].kind) && Reliable(d, sn)
    requires d.log[sn].accepted == d.log[sn].delivered
    modifies d
    ensures Apart(old(d.chip), d.chip, sn)
    ensures Isolated(old(d.H()), d.H(), sn) && |d.chip| == |d.log| == SOCKETS
    ensures Reliable(d, sn) && d.chip[sn].kind == old(d.chip[sn].kind)
    ensures IsSet(d.sockIoMode, sn) ==> old(IsSet(d.sockIoMode, sn))
    ensures r.Done? ==> d.Valid()
    ensures ended ==> r.Done? && d.log[sn].accepted == d.log[sn].delivered
    ensures ended && r.code >= 0 ==>
              && !Sendable(d.chip[sn].sr) && (r.code == SOCK_OK ==> d.chip[sn].sr == Closed)
              && d.log[sn].delivered <= d.chip[sn].rx.arrived
              && |d.log[sn].delivered| <= |old(d.log[sn].delivered)| + DATA_BUF_SIZE
    ensures r.Done? && r.code >= 0 ==>
              && Moved(old(d.chip[sn]), old(d.log[sn].delivered), d.chip[sn], d.log[sn].delivered)
              && (ended || Crossed(|old(Pending(d.chip[sn]))|, |d.chip[sn].rx.arrived| - |old(d.log[sn].delivered)|))
    ensures ended && r.code >= 0 && d.chip[sn].rx.arrived == old(d.chip[sn].rx.arrived) ==>
              (d.log[sn].accepted == d.chip[sn].rx.arrived <==> |old(Pending(d.chip[sn]))| <= DATA_BUF_SIZE)
    ensures ended && r.code < 0 ==> r.code == SOCKERR_TIMEOUT && seen.timeout
    ensures r.Done? && !ended && r.code < 0 ==> !Sendable(when.sr) && Later(old(d.chip[sn]), when)
    ensures r.Done? && r.code < 0 ==> !Sendable(d.chip[sn].sr)
    ensures r.Done? && !ended ==> r.code <= 0 && d.log[sn].accepted <= d.log[sn].delivered
    ensures r.Done? && !ended && r.code == 0 ==> d.log[sn].accepted == d.log[sn].delivered
    ensures r.Done? && d.log[sn].accepted != d.log[sn].delivered ==> d.chip[sn].sr == Closed
    ensures r.Running? ==> Behind(d, sn) && d.script == []
  {
    hide Pending, Inv, PortOk, Isolated, OthersGood, IsSet, Apart;
    ApartChain(d.chip, sn);
    ghost var h, s := d.H(), d.chip[sn];
    CommittedIsAccepted(d.latched, d.chip, h, sn);
    var go;
    r, go, when := EchoChunk(d, sn);
    ended, seen := false, when.irq;
    if !go {
      return;
    }
    ghost var h1 := d.H();
    ghost var s1 := d.chip[sn];
    CommittedIsAccepted(d.latched, d.chip, h1, sn);
    ghost var status1;
    r, status1, seen := d.Disconnect(sn);
    ended := r.Done?;
    IsolatedTransitive(h, h1, d.H(), sn);
    ChipLength(d.latched, d.chip, d.H(), sn);
    if ended {
      CommittedIsAccepted(d.latched, d.chip, d.H(), sn);
      if r.code >= 0 {
        MovedOn(s, h.log[sn].delivered, s1, d.log[sn].delivered, d.chip[sn]);
      }
    }
  }

  /** Reads Sn_SR. */
  method ReadStatus(d: Driver, sn: nat) returns (status: Status)
    requires Echoing(d, sn)
    modifies d
    ensures Apart(old(d.chip), d.chip, sn)
    ensures Echoing(d, sn) && d.H() == old(d.H()) && status == d.chip[sn].sr
    ensures Drift(old(d.chip[sn]), d.chip[sn]) && (old(d.chip[sn].sr) == Closed ==> status == Closed)
    ensures old(d.chip[sn].rx.arrived) <= d.chip[sn].rx.arrived
  {
    hide Inv, PortOk, OthersGood, Reconnected, Apart;
    ApartChain(d.chip, sn);
    d.Poll(sn);
    ChipLength(d.latched, d.chip, d.H(), SOCKETS);
    status := d.chip[sn].sr;
  }

  /** Reads the interrupt register and clears CON. */
  method ClearCon(d: Driver, sn: nat)
    requires Echoing(d, sn)
    modifies d
    ensures Apart(old(d.chip), d.chip, sn)
    ensures d.Valid() && d.H() == old(d.H()) && |d.chip| == |d.log| == SOCKETS
    ensures d.chip[sn].kind == old(d.chip[sn].kind)
    ensures StatusDrift(old(d.chip[sn].sr), d.chip[sn].sr)
    ensures old(d.chip[sn].rx.arrived) <= d.chip[sn].rx.arrived
    ensures !PreConnection(old(d.chip[sn].sr)) ==> !d.chip[sn].irq.con
  {
    hide Inv, PortOk, OthersGood, Drift, Apart;
    ApartChain(d.chip, sn);
    ghost var s := d.chip[sn];
    d.Poll(sn);
    ChipLength(d.latched, d.chip, d.H(), SOCKETS);
    ghost var s1 := d.chip[sn];
    DriftLater(s, s1);
    if d.chip[sn].irq.con {
      d.Poll(sn);
      ChipLength(d.latched, d.chip, d.H(), SOCKETS);
      DriftLater(s1, d.chip[sn]);
      LaterTransitive(s, s1, d.chip[sn]);
      d.ClearIrq(sn, d.chip[sn].irq.(con := false));
    }
  }

  /** Opens the server socket. */
  method OpenServer(d: Driver, sn: nat, protocol: byte, port: word, flag: byte, sipr: seq<byte>, llar: seq<byte>)
    returns (r: Ret)
    requires |sipr| == 4 && |llar| == 16 && Echoing(d, sn) && d.chip[sn].sr == Closed
    requires protocol == TCP4 || protocol == TCP6 || protocol == TCPD
    modifies d
    ensures Apart(old(d.chip), d.chip, sn)
    ensures Isolated(old(d.H()), d.H(), sn)
    ensures r.Done? ==> Echoing(d, sn) && (r.code < 0 || r.code == sn)
    ensures r == Done(sn) ==>
              d.log[sn].accepted == d.log[sn].delivered == [] && IsSet(d.sockIoMode, sn) == NonBlockBit(flag)
    ensures r == Done(sn) ==>
              && d.chip[sn].kind == ModeRegister(protocol, flag) && d.chip[sn].sr != Closed
              && (port != 0 ==> d.chip[sn].ends.port == port)
    ensures r.Done? ==>
              (r.code == sn <==> !AddressMissing(protocol, sipr, llar) && !FlagRefused(protocol, flag))
    ensures r.Done? && r.code < 0 ==> d.H() == old(d.H()) && d.chip == old(d.chip)
    ensures r.Running? ==> Behind(d, sn) && d.script == []
  {
    hide Inv, PortOk, Isolated, OthersGood, IsSet, AddressMissing, FlagRefused, NonBlockBit, ModeRegister,
      Apart;
    ApartChain(d.chip, sn);
    ghost var h := d.H();
    r := d.Socket(sn, protocol, port, flag, sipr, llar);
    ChipLength(d.latched, d.chip, d.H(), sn);
  }

  /** What the ESTABLISHED branch has done when it returns `code`: a chunk has been moved, CON is
      clear and no connection is awaited; an error means that at an instant `when` of the branch
      the socket was no longer connected. */
  ghost predicate Chunk(s: Sock, delivered: seq<byte>, s': Sock, delivered': seq<byte>, code: int, when: Sock) {
    if code >= 0 then
      Moved(s, delivered, s', delivered') && StatusDrift(s.sr, s'.sr) && !s'.irq.con
    else
      !Sendable(when.sr) && StatusDrift(s.sr, when.sr) && !Sendable(s'.sr) && !PreConnection(s'.sr)
  }

  /** The ESTABLISHED branch: CON is cleared and one chunk is echoed. */
  method EchoEstablished(d: Driver, sn: nat) returns (r: Ret, go: bool, ghost when: Sock)
    requires Echoing(d, sn) && d.chip[sn].sr == Established && Reliable(d, sn)
    modifies d
    ensures Apart(old(d.chip), d.chip, sn)
    ensures Isolated(old(d.H()), d.H(), sn) && |d.chip| == |d.log| == SOCKETS
    ensures r.Done? ==> Echoing(d, sn) && Reliable(d, sn)
    ensures IsSet(d.sockIoMode, sn) ==> old(IsSet(d.sockIoMode, sn))
    ensures go ==> r == Done(1)
    ensures r.Done? && !go ==> r.code <= 0
    ensures r.Running? ==> Behind(d, sn) && d.script == []
    ensures r.Done? ==>
              Chunk(old(d.chip[sn]), old(d.log[sn].delivered), d.chip[sn], d.log[sn].delivered, r.code, when)
    ensures r.Done? && r.code >= 0 ==> d.log[sn].accepted == d.log[sn].delivered
  {
    hide Pending, Inv, PortOk, Isolated, OthersGood, IsSet, Apart, Moved, Crossed, Drift;
    ApartChain(d.chip, sn);
    ghost var h, s := d.H(), d.chip[sn];
    CommittedIsAccepted(d.latched, d.chip, h, sn);
    ClearCon(d, sn);
    ghost var s1 := d.chip[sn];
    CommittedIsAccepted(d.latched, d.chip, h, sn);
    r, go, when := EchoChunk(d, sn);
    if r.Done? && r.code >= 0 {
      MovedSince(s, s1, h.log[sn].delivered, d.chip[sn], d.log[sn].delivered);
    }
  }

  /** One poll of the echo server for chips with IPv6, which opens its socket non-blocking.
      `sipr` and `llar` are the configured addresses, `start` the socket when its status is read.
      Without a loopback mode the poll opens nothing, which it takes for a success on socket 0. */
  method LoopbackTcps(d: Driver, sn: nat, port: word, mode: LoopbackMode, sipr: seq<byte>, llar: seq<byte>)
    returns (r: Ret, ghost start: Sock, ghost when: Sock)
    requires |sipr| == 4 && |llar| == 16 && Echoing(d, sn) && Reliable(d, sn)
    modifies d
    ensures Apart(old(d.chip), d.chip, sn)
    ensures Isolated(old(d.H()), d.H(), sn)
    ensures r.Done? ==> Echoing(d, sn)
    ensures r.Done? && r.code >= 0 ==>
              || d.log[sn].accepted == d.log[sn].delivered
              || (mode.ModeUnset? && sn == 0 && d.chip[sn].sr == Closed)
    ensures mode.ModeUnset? && old(d.chip[sn].sr) == Closed && r.Done? ==>
              && r.code == (if sn == 0 then 1 else SOCKERR_SOCKNUM)
              && d.H() == old(d.H()) && d.chip[sn].sr == Closed
    ensures old(d.log[sn].delivered) + Pending(start) == start.rx.arrived
    ensures old(d.chip[sn].rx.arrived) <= start.rx.arrived
    ensures Drift(old(d.chip[sn]), start) && (r.Done? ==> Branch(start, r.code, d.chip[sn], old(d.H()), d.H()))
    ensures r.Done? && start.sr == Established ==>
              Chunk(start, old(d.log[sn].delivered), d.chip[sn], d.log[sn].delivered, r.code, when)
    ensures r.Done? && start.sr == CloseWait && r.code >= 0 ==>
              && Moved(start, old(d.log[sn].delivered), d.chip[sn], d.log[sn].delivered)
              && (|| !Sendable(d.chip[sn].sr)
                  || Crossed(|Pending(start)|, |d.chip[sn].rx.arrived| - |old(d.log[sn].delivered)|))
    ensures r.Done? && start.sr == Closed && !mode.ModeUnset? ==>
              var protocol := ProtocolOf(mode);
              && protocol == (if mode.AsIpv4? then 0x01 else if mode.AsIpv6? then 0x09 else 0x0D)
              && (r.code == 1 <==> !AddressMissing(protocol, sipr, llar))
              && (r.code == 1 ==>
                    && d.chip[sn].sr != Closed && d.chip[sn].kind == protocol && IsSet(d.sockIoMode, sn)
                    && (port != 0 ==> d.chip[sn].ends.port == port) && d.log[sn].delivered == [])
    ensures r.Running? ==> Behind(d, sn) && d.script == []
  {
    hide Inv, PortOk, Isolated, OthersGood, IsSet, Apart, Drift, Chunk, Moved, Crossed, Pending,
      AddressMissing;
    ApartChain(d.chip, sn);
    ghost var h := d.H();
    NothingChanged(h, sn);
    var status := ReadStatus(d, sn);
    CommittedIsAccepted(d.latched, d.chip, h, sn);
    start := d.chip[sn];
    when := start;
    match status {
    case Established =>
      var go;
      r, go, when := EchoEstablished(d, sn);
      if !go {
        return;
      }
    case CloseWait =>
      var ended;
      ghost var seen;
      r, ended, when, seen := EchoLast(d, sn);
      if r != Done(SOCK_OK) {
        return;
      }
    case Init =>
      ghost var status1;
      r, status1 := d.Listen(sn);
      ChipLength(d.latched, d.chip, d.H(), sn);
      if r != Done(SOCK_OK) {
        return;
      }
    case Closed =>
      var tmp := 0;
      if !mode.ModeUnset? {
        ServerFlag(ProtocolOf(mode));
        r := OpenServer(d, sn, ProtocolOf(mode), port, SOCK_IO_NONBLOCK, sipr, llar);
        if r.Running? {
          return;
        }
        tmp := r.code;
      }
      if tmp != sn {
        return Done(SOCKERR_SOCKNUM), start, when;
      }
    case _ =>
    }
    r := Done(1);
  }

  /** The branches of a poll by the status it reads: behind INIT the socket listens if the poll
      succeeds, behind CLOSE_WAIT it is closed, and any other status is left alone. */
  ghost predicate Branch(start: Sock, code: int, s': Sock, h: Host, h': Host) {
    && (start.sr == Init ==> s'.sr != Init && (code == 1 ==> s'.sr == Listening))
    && (start.sr == CloseWait ==> (code < 0 ==> !Sendable(s'.sr)) && (code == 1 ==> s'.sr == Closed))
    && (start.sr !in {Established, CloseWait, Init, Closed} ==> code == 1 && s' == start && h' == h)
  }

  lemma ServerFlag(protocol: byte)
    requires protocol == TCP4 || protocol == TCP6 || protocol == TCPD
    ensures ModeRegister(protocol, SOCK_IO_NONBLOCK) == protocol == ModeRegister(protocol, 0)
    ensures NonBlockBit(SOCK_IO_NONBLOCK) && !NonBlockBit(0)
    ensures !FlagRefused(protocol, SOCK_IO_NONBLOCK) && !FlagRefused(protocol, 0)
  {
  }

  /** One poll of the echo server for the other chips, which opens its socket blocking and
      does not receive any more once the peer has closed. */
  method LoopbackTcpsBlocking(d: Driver, sn: nat, port: word, sipr: seq<byte>, llar: seq<byte>)
    returns (r: Ret, ghost start: Sock, ghost when: Sock)
    requires |sipr| == 4 && |llar| == 16 && Echoing(d, sn) && Reliable(d, sn)
    modifies d
    ensures Apart(old(d.chip), d.chip, sn)
    ensures Isolated(old(d.H()), d.H(), sn)
    ensures r.Done? ==> Echoing(d, sn) && Reliable(d, sn)
    ensures r.Done? && IsSet(d.sockIoMode, sn) ==> old(IsSet(d.sockIoMode, sn))
    ensures r == Done(1) ==> d.log[sn].accepted == d.log[sn].delivered
    ensures old(d.log[sn].delivered) + Pending(start) == start.rx.arrived
    ensures old(d.chip[sn].rx.arrived) <= start.rx.arrived
    ensures Drift(old(d.chip[sn]), start) && (r.Done? ==> Branch(start, r.code, d.chip[sn], old(d.H()), d.H()))
    ensures r.Done? && start.sr == Established ==>
              Chunk(start, old(d.log[sn].delivered), d.chip[sn], d.log[sn].delivered, r.code, when)
    ensures r.Done? && start.sr == CloseWait ==>
              !Sendable(d.chip[sn].sr) && d.log[sn].delivered == old(d.log[sn].delivered)
    ensures r.Done? && start.sr == Closed ==>
              && (r.code == 1 <==> !AddressMissing(TCP4, sipr, llar))
              && (r.code == 1 ==>
                    && d.chip[sn].sr != Closed && d.chip[sn].kind == TCP4 && !IsSet(d.sockIoMode, sn)
                    && (port != 0 ==> d.chip[sn].ends.port == port) && d.log[sn].delivered == [])
    ensures r.Running? ==> Behind(d, sn) && d.script == []
  {
    hide Inv, PortOk, Isolated, OthersGood, IsSet, Apart, Drift, Chunk, Moved, Crossed, Pending,
      AddressMissing;
    ApartChain(d.chip, sn);
    ghost var h := d.H();
    NothingChanged(h, sn);
    var status := ReadStatus(d, sn);
    CommittedIsAccepted(d.latched, d.chip, h, sn);
    start := d.chip[sn];
    when := start;
    match status {
    case Established =>
      var go;
      r, go, when := EchoEstablished(d, sn);
      if !go {
        return;
      }
    case CloseWait =>
      ghost var status1, seen;
      CommittedIsAccepted(d.latched, d.chip, h, sn);
      r, status1, seen := d.Disconnect(sn);
      ChipLength(d.latched, d.chip, d.H(), sn);
      if r != Done(SOCK_OK) {
        return;
      }
    case Init =>
      ghost var status1;
      r, status1 := d.Listen(sn);
      ChipLength(d.latched, d.chip, d.H(), sn);
      if r != Done(SOCK_OK) {
        return;
      }
    case Closed =>
      ServerFlag(TCP4);
      r := OpenServer(d, sn, TCP4, port, 0, sipr, llar);
      if r != Done(sn) {
        return;
      }
    case _ =>
    }
    r := Done(1);
  }

  /** While the socket is connected, `n` polls have echoed `n` buffers of what was pending at the
      start, or all of it but fewer than 256 bytes; exactly that much if nothing new has arrived,
      and then nothing is left over. */
  predicate Served(s: Sock, delivered: seq<byte>, n: nat, s': Sock, delivered': seq<byte>) {
    var pending := |Pending(s)|;
    && s.rx.arrived <= s'.rx.arrived && delivered <= delivered'
    && |delivered'| >= |delivered| + Min(pending - 255, n * 2048)
    && (s'.rx.arrived == s.rx.arrived ==>
          |delivered'| == |delivered| + Min(pending, n * 2048))
  }

  lemma ServedOnce(s: Sock, delivered: seq<byte>, n: nat, s1: Sock, delivered1: seq<byte>, s': Sock,
                   delivered': seq<byte>)
    requires delivered + Pending(s) == s.rx.arrived && delivered1 + Pending(s1) == s1.rx.arrived
    requires Served(s, delivered, n, s1, delivered1) && Moved(s1, delivered1, s', delivered')
    ensures Served(s, delivered, n + 1, s', delivered')
  {
    hide Pending;
  }

  /** Over polls that have all found the socket connected: it has stayed so, with the above moved,
      or the connection is over for good. */
  ghost predicate Serving(s: Sock, delivered: seq<byte>, n: nat, s': Sock, delivered': seq<byte>) {
    !PreConnection(s'.sr) && (s'.sr == Established ==> Served(s, delivered, n, s', delivered'))
  }

  lemma ServingOn(s: Sock, delivered: seq<byte>, n: nat, s1: Sock, delivered1: seq<byte>, start: Sock,
                  s': Sock, delivered': seq<byte>, code: int, when: Sock)
    requires delivered + Pending(s) == s.rx.arrived && delivered1 + Pending(s1) == s1.rx.arrived
    requires delivered1 + Pending(start) == start.rx.arrived && s1.rx.arrived <= start.rx.arrived
    requires Serving(s, delivered, n, s1, delivered1) && Drift(s1, start) && start.sr == Established
    requires Chunk(start, delivered1, s', delivered', code, when)
    ensures Serving(s, delivered, n + 1, s', delivered')
  {
    hide Pending, Served, Moved;
    DriftLater(s1, start);
    if code >= 0 {
      MovedSince(s1, start, delivered1, s', delivered');
      ServedOnce(s, delivered, n, s1, delivered1, s', delivered');
    }
  }

  lemma ServingStarts(s: Sock, delivered: seq<byte>)
    requires s.sr == Established && delivered + Pending(s) == s.rx.arrived
    ensures Serving(s, delivered, 0, s, delivered)
  {
    hide Pending;
  }

  /** Any number of polls, for every behaviour of the chip: whenever a poll has returned, what
      the chip was handed is the beginning of what was received since the connection, and the
      whole of it unless an error has closed the socket; and polls of a connected socket echo a
      buffer each as long as at least 256 bytes are pending.  The server is non-blocking, so the
      first needs a latched write pointer.  `seen` are the statuses the polls have read. */
  method Serve(d: Driver, sn: nat, port: word, mode: LoopbackMode, sipr: seq<byte>, llar: seq<byte>, polls: nat)
    returns (r: Ret, ghost seen: seq<Status>)
    requires |sipr| == 4 && |llar| == 16 && Echoing(d, sn) && d.latched
    modifies d
    ensures Apart(old(d.chip), d.chip, sn)
    ensures Isolated(old(d.H()), d.H(), sn) && Behind(d, sn)
    ensures r.Done? ==> Echoing(d, sn)
    ensures r.Done? && d.chip[sn].sr != Closed ==>
              d.chip[sn].tx.committed == d.log[sn].delivered && d.chip[sn].tx.wire <= d.chip[sn].rx.arrived
    ensures r.Done? ==> r.code == 1 && |seen| == polls
    ensures r.Done? && old(d.chip[sn].sr) == Established == d.chip[sn].sr &&
            (forall i | 0 <= i < polls :: seen[i] == Established) ==>
              Served(old(d.chip[sn]), old(d.log[sn].delivered), polls, d.chip[sn], d.log[sn].delivered)
    ensures r.Running? ==> d.script == []
  {
    hide Inv, PortOk, Isolated, OthersGood, Apart, Drift, Chunk, Moved, Served, Pending, Crossed,
      AddressMissing, Branch, Serving;
    ApartChain(d.chip, sn);
    ghost var h, s, delivered := d.H(), d.chip[sn], d.log[sn].delivered;
    NothingChanged(h, sn);
    CommittedIsAccepted(d.latched, d.chip, h, sn);
    seen := [];
    ghost var up := s.sr == Established;
    if up {
      ServingStarts(s, delivered);
    }
    for i := 0 to polls
      invariant Apart(old(d.chip), d.chip, sn)
      invariant Echoing(d, sn) && Isolated(h, d.H(), sn) && |seen| == i
      invariant up == (s.sr == Established && forall k | 0 <= k < i :: seen[k] == Established)
      invariant up ==> Serving(s, delivered, i, d.chip[sn], d.log[sn].delivered)
    {
      ghost var h1, s1 := d.H(), d.chip[sn];
      CommittedIsAccepted(d.latched, d.chip, h1, sn);
      ghost var start, when;
      r, start, when := LoopbackTcps(d, sn, port, mode, sipr, llar);
      IsolatedTransitive(h, h1, d.H(), sn);
      if r.Running? {
        return;
      }
      up := up && start.sr == Established;
      if up {
        ServingOn(s, delivered, i, s1, h1.log[sn].delivered, start, d.chip[sn], d.log[sn].delivered, r.code, when);
      }
      ghost var before := seen;
      seen := before + [start.sr];
      assert seen[i] == start.sr && forall k | 0 <= k < i :: before[k] == seen[k];
    }
    CommittedIsAccepted(d.latched, d.chip, d.H(), sn);
    ServingMeans(s, delivered, polls, d.chip[sn], d.log[sn].delivered);
    r := Done(1);
  }

  lemma ServingMeans(s: Sock, delivered: seq<byte>, n: nat, s': Sock, delivered': seq<byte>)
    ensures Serving(s, delivered, n, s', delivered') && s'.sr == Established ==>
              Served(s, delivered, n, s', delivered')
  {
  }

  /** The same for the blocking server, whatever the chip shows as write pointer. */
  method ServeBlocking(d: Driver, sn: nat, port: word, sipr: seq<byte>, llar: seq<byte>, polls: nat)
    returns (r: Ret, ghost seen: seq<Status>)
    requires |sipr| == 4 && |llar| == 16 && Echoing(d, sn) && !IsSet(d.sockIoMode, sn)
    modifies d
    ensures Apart(old(d.chip), d.chip, sn)
    ensures Isolated(old(d.H()), d.H(), sn) && Behind(d, sn)
    ensures r.Done? ==> Echoing(d, sn) && !IsSet(d.sockIoMode, sn)
    ensures r.Done? && d.chip[sn].sr != Closed ==>
              d.chip[sn].tx.committed == d.log[sn].delivered && d.chip[sn].tx.wire <= d.chip[sn].rx.arrived
    ensures r.Done? ==> r.code == 1 && |seen| == polls
    ensures r.Done? && old(d.chip[sn].sr) == Established == d.chip[sn].sr &&
            (forall i | 0 <= i < polls :: seen[i] == Established) ==>
              Served(old(d.chip[sn]), old(d.log[sn].delivered), polls, d.chip[sn], d.log[sn].delivered)
    ensures r.Running? ==> d.script == []
  {
    hide Inv, PortOk, Isolated, OthersGood, Apart, Drift, Chunk, Moved, Served, Pending, Crossed,
      AddressMissing, Branch, Serving, IsSet;
    ApartChain(d.chip, sn);
    ghost var h, s, delivered := d.H(), d.chip[sn], d.log[sn].delivered;
    NothingChanged(h, sn);
    CommittedIsAccepted(d.latched, d.chip, h, sn);
    seen := [];
    ghost var up := s.sr == Established;
    if up {
      ServingStarts(s, delivered);
    }
    for i := 0 to polls
      invariant Apart(old(d.chip), d.chip, sn)
      invariant Echoing(d, sn) && !IsSet(d.sockIoMode, sn) && Isolated(h, d.H(), sn) && |seen| == i
      invariant up == (s.sr == Established && forall k | 0 <= k < i :: seen[k] == Established)
      invariant up ==> Serving(s, delivered, i, d.chip[sn], d.log[sn].delivered)
    {
      ghost var h1, s1 := d.H(), d.chip[sn];
      CommittedIsAccepted(d.latched, d.chip, h1, sn);
      ghost var start, when;
      r, start, when := LoopbackTcpsBlocking(d, sn, port, sipr, llar);
      IsolatedTransitive(h, h1, d.H(), sn);
      if r.Running? {
        return;
      }
      up := up && start.sr == Established;
      if up {
        ServingOn(s, delivered, i, s1, h1.log[sn].delivered, start, d.chip[sn], d.log[sn].delivered, r.code, when);
      }
      ghost var before := seen;
      seen := before + [start.sr];
      assert seen[i] == start.sr && forall k | 0 <= k < i :: before[k] == seen[k];
    }
    CommittedIsAccepted(d.latched, d.chip, d.H(), sn);
    ServingMeans(s, delivered, polls, d.chip[sn], d.log[sn].delivered);
    r := Done(1);
  }
}
