/** The socket API over the chip.

    The chip acts between the driver's register accesses.  What it does is fixed by
    `script`, one batch of actions per access and socket, and nothing is assumed about the
    script; so every claim below holds for every interleaving.  A polling loop whose
    condition has not come true when the script ends returns `Running`: the observed run
    ends inside the call. */
module SocketApi {
  import opened Ring
  import opened SocketRings
  import opened Chip
  import opened Session
  import opened PeekScan
  import opened Bits
  import opened Options
  import DoubleRead

  const SOCKETS: nat := 8

  const SOCK_OK: int := 1
  const SOCK_BUSY: int := 0
  const SOCKERR_SOCKNUM: int := -1
  const SOCKERR_SOCKOPT: int := -2
  const SOCKERR_SOCKINIT: int := -3
  const SOCKERR_SOCKCLOSED: int := -4
  const SOCKERR_SOCKMODE: int := -5
  const SOCKERR_SOCKFLAG: int := -6
  const SOCKERR_SOCKSTATUS: int := -7
  const SOCKERR_ARG: int := -10
  const SOCKERR_PORTZERO: int := -11
  const SOCKERR_IPINVALID: int := -12
  const SOCKERR_TIMEOUT: int := -13
  const SOCKFATAL_PACKLEN: int := -1001

  /** The numbers of the header file: errors are negative, BUSY is 0 and OK is 1. */
  lemma ReturnCodes()
    ensures [SOCK_OK, SOCK_BUSY, SOCKERR_SOCKNUM, SOCKERR_SOCKOPT, SOCKERR_SOCKINIT, SOCKERR_SOCKCLOSED,
             SOCKERR_SOCKMODE, SOCKERR_SOCKFLAG, SOCKERR_SOCKSTATUS]
            == [1, 0, -1, -2, -3, -4, -5, -6, -7]
    ensures [SOCKERR_ARG, SOCKERR_PORTZERO, SOCKERR_IPINVALID, SOCKERR_TIMEOUT, SOCKFATAL_PACKLEN]
            == [-10, -11, -12, -13, -1001]
  {
  }

  const ANY_PORT: word := 0xC000
  const ANY_PORT_END: word := 0xFFF0

  /** What a call returns, or that the run ends inside it. */
  datatype Ret = Done(code: int) | Running

  /** How a wait inside a call ends: the call goes on; it would have to wait on a
      non-blocking socket; the status is not a connected one and `close` is due or not; or
      the run ends. */
  datatype Gate = Pass | WouldBlock | Broken(close: bool) | RunEnds

  /** How reading a packet header ends: read; an output pointer was missing; the length was
      impossible and the socket has been closed; the run ends. */
  datatype HeaderEnd = HeaderRead | ArgumentMissing | LengthFatal | HeaderRunEnds

  // ------------------------------------------------------------------ arguments of `socket`

  /** `CHECK_IPZERO`: the address bytes are summed in a `uint16_t`. */
  method IsZeroAddress(addr: seq<byte>) returns (zero: bool)
    requires |addr| <= 16
    ensures zero <==> forall i | 0 <= i < |addr| :: addr[i] == 0
  {
    var ipzero: word := 0;
    for i := 0 to |addr|
      invariant ipzero <= 255 * i
      invariant ipzero == 0 <==> forall k | 0 <= k < i :: addr[k] == 0
    {
      ipzero := Wrap(ipzero + addr[i]);
    }
    zero := ipzero == 0;
  }

  predicate NonZero(addr: seq<byte>) { exists i | 0 <= i < |addr| :: addr[i] != 0 }

  const SF_IO_NONBLOCK: byte := 0x08

  /** The protocols `socket` opens, given that the addresses they need are set. */
  predicate ProtocolKnown(protocol: byte) {
    IsDatagram(protocol) || protocol % 16 == TCP4 || protocol % 16 == TCP6 || protocol % 16 == TCPD
  }

  predicate AddressMissing(protocol: byte, sipr: seq<byte>, llar: seq<byte>) {
    || ((protocol % 16 == TCP4 || protocol % 16 == TCPD) && !NonZero(sipr))
    || ((protocol % 16 == TCP6 || protocol % 16 == TCPD) && !NonZero(llar))
  }

  /** Flag bits a protocol does not allow; bit 2 is allowed for none. */
  predicate FlagRefused(protocol: byte, flag: byte) {
    || flag / 4 % 2 == 1
    || (protocol == MACRAW && flag % 4 != 0)
    || ((protocol == TCP4 || protocol == TCP6 || protocol == TCPD)
        && (flag / 128 % 2 == 1 || flag / 16 % 2 == 1))
    || ((protocol == IPRAW4 || protocol == IPRAW6) && flag != 0)
  }

  /** `protocol | (flag & 0xF0)`: the protocol keeps its place in the low four bits. */
  function ModeRegister(protocol: byte, flag: byte): (m: byte)
    ensures m % 16 == protocol % 16
  {
    ModeIsByte(protocol, flag);
    Or(protocol, And(flag, 0xF0))
  }

  lemma ModeIsByte(protocol: byte, flag: byte)
    ensures Or(protocol, And(flag, 0xF0)) < 256
    ensures Or(protocol, And(flag, 0xF0)) % 16 == protocol % 16
  {
    AndLess(flag, 0xF0);
    assert Power2(8) == 256;
    OrWidth(protocol, And(flag, 0xF0), 8);
    OrAboveMask(protocol, flag, 0xF0, 4);
    assert Power2(4) == 16;
  }

  /** The mode register: the bits of the protocol, and bits 4 to 7 of the flag joined to them. */
  lemma ModeBits(protocol: byte, flag: byte, n: nat)
    requires n < 8
    ensures IsSet(ModeRegister(protocol, flag), n) <==> IsSet(protocol, n) || (n >= 4 && IsSet(flag, n))
  {
    BitOfOrAnd(protocol, And(flag, 0xF0), n);
    BitOfOrAnd(flag, 0xF0, n);
    UpperBits(n);
    hide IsSet;
  }

  /** The tests of the mode register: its two low bits tell streams and ports, its four low bits
      the protocol. */
  lemma ModeMasks(mode: byte)
    ensures IsStream(mode) <==> And(mode, 0x03) == 0x01
    ensures HasPort(mode) <==> And(mode, 0x03) == 0x02
    ensures IsDatagram(mode) <==> And(mode, 0x0F) in {0x02, 0x03, 0x07, 0x0A, 0x0B, 0x0E}
    ensures IsStream(mode) && ProtocolKnown(mode) <==> And(mode, 0x0F) in {0x01, 0x09, 0x0D}
  {
    assert Power2(2) - 1 == 0x03 && Power2(4) - 1 == 0x0F;
    MaskIsRemainder(mode, 2);
    MaskIsRemainder(mode, 4);
  }

  lemma UpperBits(n: nat)
    requires n < 8
    ensures IsSet(0xF0, n) <==> n >= 4
  {
    assert IsSet(0xF0, 4) && IsSet(0xF0, 5) && IsSet(0xF0, 6) && IsSet(0xF0, 7);
    assert !IsSet(0xF0, 0) && !IsSet(0xF0, 1) && !IsSet(0xF0, 2) && !IsSet(0xF0, 3);
  }

  /** `flag & (SF_IO_NONBLOCK >> 3)`: the bit `socket` copies into `sock_io_mode`. */
  predicate NonBlockBit(flag: byte) { flag / (SF_IO_NONBLOCK / 8) % 2 == 1 }

  /** The shift binds to the constant, not to the masked flag: a socket asked to be
      non-blocking by SF_IO_NONBLOCK is so exactly when bit 0 of the flag agrees with it. */
  lemma NonBlockFlag(flag: byte)
    ensures NonBlockBit(flag) == (flag / SF_IO_NONBLOCK % 2 == 1) <==> flag % 2 == flag / 8 % 2
    ensures !NonBlockBit(SF_IO_NONBLOCK)
  {
  }

  // --------------------------------------------------------------------- growing registers

  lemma FsrGrows(s: Sock, s': Sock)
    requires Inv(s) && Inv(s') && Drift(s, s')
    ensures 0 <= Fsr(s.tx) <= Fsr(s'.tx) <= |s'.tx.mem| == |s.tx.mem| <= 16384
  {
    FsrValue(s.tx);
    FsrValue(s'.tx);
  }

  /** The size passed 256 while it was read byte by byte, which can give the reading 0. */
  predicate Crossed(before: int, now: int) { before < 256 <= now }

  /** What a reading says of a size that was `before` at the start of it and is `now` at the end. */
  predicate Tells(before: int, val: int, now: int) {
    before <= val <= now || (val == 0 && Crossed(before, now) && now % 256 == 0)
  }

  /** A reading below `len` means that the size was below it, or has crossed. */
  lemma BelowMeans(before: nat, start: int, val: int, between: int, now: int, len: int)
    requires before <= start && Tells(start, val, between) && between <= now && val < len
    ensures before < len || Crossed(before, now)
  {
  }

  /** A reading of 0 is made of an upper byte of 0 and a lower byte of 0. */
  lemma ZeroReading(before: nat, high: nat, now: nat)
    requires before <= high <= now && high / 256 * 256 + now % 256 == 0
    ensures Tells(before, 0, now)
  {
  }

  lemma SizesNat(s: Sock)
    requires Inv(s)
    ensures Fsr(s.tx) >= 0 && Rsr(s.rx) >= 0
  {
    FsrValue(s.tx);
    RsrValue(s.rx);
  }

  lemma RsrGrows(s: Sock, s': Sock)
    requires Inv(s) && Inv(s') && Drift(s, s')
    ensures 0 <= Rsr(s.rx) <= Rsr(s'.rx) <= |s'.rx.mem| == |s.rx.mem| <= 16384
  {
    RsrValue(s.rx);
    RsrValue(s'.rx);
  }

  // ------------------------------------------------------------------------------ the chip

  /** What each socket of the chip does between two register accesses. */
  type Batch = seq<seq<Action>>

  function ActionsOf(batch: Batch, sn: nat): seq<Action> {
    if sn < |batch| then batch[sn] else []
  }

  function RunAll(chip: seq<Sock>, batch: Batch): (r: seq<Sock>)
    requires forall j | 0 <= j < |chip| :: Inv(chip[j])
  {
    seq(|chip|, j requires 0 <= j < |chip| => Run(chip[j], ActionsOf(batch, j)))
  }

  lemma RunAllGrew(chip: seq<Sock>, batch: Batch)
    requires forall j | 0 <= j < |chip| :: Inv(chip[j])
    ensures |RunAll(chip, batch)| == |chip|
    ensures forall j | 0 <= j < |chip| ::
              Inv(RunAll(chip, batch)[j]) && Grew(chip[j], RunAll(chip, batch)[j])
  {
    hide Inv, Grew;
    forall j | 0 <= j < |chip|
      ensures Inv(RunAll(chip, batch)[j]) && Grew(chip[j], RunAll(chip, batch)[j])
    {
      RunGrew(chip[j], ActionsOf(batch, j));
    }
  }

  lemma IdleDrifts(s: Sock, s': Sock)
    requires Grew(s, s')
    ensures s.cr == Idle ==> Drift(s, s')
  {
    hide Drift;
  }

  /** The bytes the host is about to take stay where they are while the chip goes on. */
  lemma StillToRead(s: Sock, n: nat, a: Sock)
    requires Inv(s) && Inv(a) && Drift(s, a) && !PreConnection(s.sr)
    requires s.rx.rd == s.rx.done && n <= Rsr(s.rx)
    ensures a.cr == s.cr && a.kind == s.kind && a.tx.committed == s.tx.committed && !PreConnection(a.sr)
    ensures a.rx.rd == a.rx.done == s.rx.done && n <= Rsr(a.rx) && n <= |a.rx.mem| && n <= |s.rx.mem|
    ensures a.rx.released == s.rx.released
    ensures s.rx.released + n <= |s.rx.arrived| && s.rx.arrived <= a.rx.arrived
    ensures RingRead(a.rx.mem, a.rx.rd, n) == s.rx.arrived[s.rx.released..s.rx.released + n]
  {
    RsrGrows(s, a);
    InvRings(s);
    InvRings(a);
    PendingBytes(s.rx, n);
    PendingBytes(a.rx, n);
    hide Wrap, Ahead, Cell, Inv, RxInv, TxInv, Rsr, RingRead, TxDrift;
  }

  /** Nothing the chip does reaches a closed socket but for the TIMEOUT bit. */
  lemma ClosedStays(s: Sock, a: Sock)
    requires Inv(s) && Inv(a) && Drift(s, a) && s.sr == Closed && s.sends == 0
    ensures a.sr == Closed && a.sends == 0 && a.oks == 0 && a.cr == s.cr && a.mr == s.mr && a.ends == s.ends
    ensures a.tx.committed == s.tx.committed && a.kind == s.kind && s.packets <= a.packets
    ensures !s.irq.sendOk ==> !a.irq.sendOk
  {
    hide TxInv, RxInv, FrameInv, RxDrift, StagedLen, TakenLen, Fsr, Rsr;
  }

  /** Bytes stored and not yet sent are no part of the history. */
  lemma StillLinked(s: Sock, sending: bool, remained: nat, log: Log, data: seq<byte>, a: Sock)
    requires Linked(s, sending, remained, log) && !DatagramStatus(s.sr)
    requires |data| <= |s.tx.mem| && Inv(Stored(s, data)) && Drift(Stored(s, data), a) && Inv(a)
    ensures Linked(a, sending, remained, log) && Stored(s, data).kind == s.kind
  {
    hide Inv, Drift, Linked, Store;
    StoredLinked(s, sending, remained, log, s.tx.wr, data);
    InvUntouched(Stored(s, data));
    LinkedDrift(Stored(s, data), sending, remained, log, a);
  }

  lemma CopiedIs(s: Sock, data: seq<byte>)
    requires |data| <= |s.tx.mem|
    ensures Copied(s, data) == s.(tx := s.tx.(mem := RingWrite(s.tx.mem, s.tx.wr, data)))
    ensures Copied(s, data).cr == s.cr
  {
    hide RingWrite;
  }

  /** Only the host and SEND move the write pointers. */
  lemma PointerDrifts(s: Sock, a: Sock)
    requires Drift(s, a) && !PreConnection(s.sr)
    ensures a.tx.wr == s.tx.wr && a.tx.stage == s.tx.stage && |a.tx.mem| == |s.tx.mem|
    ensures a.cr == s.cr && !PreConnection(a.sr)
  {
    hide RxDrift;
  }

  lemma DriftGrew(s: Sock, s': Sock)
    requires Drift(s, s')
    ensures Grew(s, s')
  {
  }

  /** A command written where the chip has drifted to is finished as where it was planned. */
  lemma StoredGrew(b: Sock, c: Command, s1: Sock, s': Sock)
    requires Drift(b.(cr := c), s1.(cr := c)) && Grew(s1.(cr := c), s')
    ensures Grew(b.(cr := c), s')
  {
    hide Drift, Grew;
    DriftGrew(b.(cr := c), s1.(cr := c));
    GrewTransitive(b.(cr := c), s1.(cr := c), s');
  }

  /** What the status and the CON bit of a socket can become while a call that does not open it
      is at work on it. */
  predicate Later(s: Sock, s': Sock) {
    StatusDrift(s.sr, s'.sr) && (s'.irq.con ==> s.irq.con || PreConnection(s.sr))
  }

  lemma DriftLater(s: Sock, s': Sock)
    requires Drift(s, s')
    ensures Later(s, s') && StatusDrift(s.sr, s'.sr) && (s'.sr == Init ==> s.sr == Init)
  {
    hide TxDrift, RxDrift, Reconnected;
  }

  lemma StillLater(s: Sock)
    ensures Later(s, s)
  {
  }

  /** The status read at one instant and the interrupt bits read at a later one. */
  lemma RegistersLater(s: Sock, at: Sock, s': Sock)
    requires Drift(s, at) && Drift(at, s')
    ensures Later(s, at.(irq := s'.irq))
  {
    hide TxDrift, RxDrift, Reconnected;
  }

  lemma LaterTransitive(s: Sock, s1: Sock, s2: Sock)
    requires Later(s, s1) && Later(s1, s2)
    ensures Later(s, s2)
  {
  }

  lemma CarriedLater(s: Sock, c: Command, s': Sock)
    requires StagedLen(s.tx) <= |s.tx.mem| && Drift(Carried(s, c), s')
    ensures Later(s, s')
  {
    hide Staged, StagedLen, Commit, Outgoing, Drift;
    DriftLater(Carried(s, c), s');
  }

  lemma ReleasedLater(s: Sock, n: nat, s': Sock)
    requires Drift(Released(s, n), s')
    ensures Later(s, s')
  {
    hide Drift, Wrap;
    DriftLater(Released(s, n), s');
  }

  lemma StoredLater(s: Sock, data: seq<byte>, s': Sock)
    requires |data| <= |s.tx.mem| && Drift(Stored(s, data), s')
    ensures Later(s, s') && (s.irq.sendOk ==> s'.irq.sendOk)
  {
    hide Drift, Store;
    DriftLater(Stored(s, data), s');
    DriftFacts(Stored(s, data), s');
  }

  lemma ConfirmedLater(s: Sock, up: bool, s': Sock)
    requires Later(s.(irq := s.irq.(sendOk := up)), s')
    ensures Later(s, s')
  {
  }

  lemma StillGrew(s: Sock)
    ensures Grew(s, s) && Drift(s, s)
  {
    DriftReflexive(s);
  }

  lemma Stays(s: Sock, sending: bool, remained: nat, log: Log, s': Sock)
    requires Inv(s) && Inv(s') && Grew(s, s') && Linked(s, sending, remained, log)
    ensures Linked(s', sending, remained, log)
  {
    hide FrameInv, TxInv, RxInv, Reading;
    LinkedDrift(s, sending, remained, log, s');
  }

  lemma StaysClean(latched: bool, s: Sock, sending: bool, remained: nat, log: Log, s': Sock)
    requires Inv(s) && Inv(s') && Grew(s, s') && Linked(s, sending, remained, log)
    ensures Clean(latched, s) ==> Clean(latched, s')
  {
    hide FrameInv, TxInv, RxInv, Reading;
  }

  // --------------------------------------------------------------- the driver's own state

  /** The static variables of the driver and the history of the calls, as one value. */
  datatype Host = Host(ioMode: nat, sending: nat, remained: seq<word>, packInfo: seq<byte>,
                       anyPort: word, autoPorts: nat, log: seq<Log>)

  predicate PortOk(h: Host) {
    h.anyPort == ANY_PORT + h.autoPorts % (ANY_PORT_END - ANY_PORT)
  }

  predicate Shape(chip: seq<Sock>, h: Host) {
    && PortOk(h)
    && |chip| == |h.remained| == |h.packInfo| == |h.log| == SOCKETS
    && (forall j | 0 <= j < SOCKETS :: Inv(chip[j]))
  }

  predicate LinkedAt(chip: seq<Sock>, h: Host, j: nat)
    requires j < SOCKETS && Shape(chip, h)
  {
    Linked(chip[j], IsSet(h.sending, j), h.remained[j], h.log[j])
  }

  predicate GoodAt(latched: bool, chip: seq<Sock>, h: Host, j: nat)
    requires j < SOCKETS && Shape(chip, h)
  {
    LinkedAt(chip, h, j) && Clean(latched, chip[j])
  }

  /** Every socket but `sn` is as it is between two calls. */
  predicate OthersGood(latched: bool, chip: seq<Sock>, h: Host, sn: nat) {
    && Shape(chip, h)
    && forall j: nat | j < SOCKETS && j != sn :: GoodAt(latched, chip, h, j)
  }

  /** The chip has been running: what held of a socket still holds. */
  lemma RunKeepsGood(latched: bool, chip: seq<Sock>, h: Host, batch: Batch, sn: nat)
    requires OthersGood(latched, chip, h, sn) && sn < SOCKETS
    ensures OthersGood(latched, RunAll(chip, batch), h, sn)
    ensures Grew(chip[sn], RunAll(chip, batch)[sn])
    ensures LinkedAt(chip, h, sn) ==> LinkedAt(RunAll(chip, batch), h, sn)
    ensures GoodAt(latched, chip, h, sn) ==> GoodAt(latched, RunAll(chip, batch), h, sn)
  {
    hide Inv, Linked, Clean, Grew, RunAll;
    var after := RunAll(chip, batch);
    RunAllGrew(chip, batch);
    assert Shape(after, h);
    forall j: nat | j < SOCKETS
      ensures LinkedAt(chip, h, j) ==> LinkedAt(after, h, j)
      ensures GoodAt(latched, chip, h, j) ==> GoodAt(latched, after, h, j)
    {
      if LinkedAt(chip, h, j) {
        Stays(chip[j], IsSet(h.sending, j), h.remained[j], h.log[j], after[j]);
        StaysClean(latched, chip[j], IsSet(h.sending, j), h.remained[j], h.log[j], after[j]);
      }
    }
  }

  /** Nothing the driver keeps about another socket than `sn` differs. */
  ghost predicate Isolated(h: Host, h': Host, sn: nat) {
    && |h'.remained| == |h.remained| && |h'.packInfo| == |h.packInfo| && |h'.log| == |h.log|
    && (forall j: nat | j != sn ::
          IsSet(h'.ioMode, j) == IsSet(h.ioMode, j) && IsSet(h'.sending, j) == IsSet(h.sending, j))
    && (forall j: nat | j != sn && j < |h.log| :: h'.log[j] == h.log[j])
    && (forall j: nat | j != sn && j < |h.remained| :: h'.remained[j] == h.remained[j])
    && (forall j: nat | j != sn && j < |h.packInfo| :: h'.packInfo[j] == h.packInfo[j])
  }

  /** The sockets other than `sn` have only done what the chip does between two commands: no
      command was given to them, and their buffers and pointers are what the chip made them. */
  ghost predicate Apart(before: seq<Sock>, after: seq<Sock>, sn: nat) {
    && |after| == |before|
    && forall j: nat | j < |before| && j != sn :: Drift(before[j], after[j])
  }

  lemma ApartTransitive(before: seq<Sock>, between: seq<Sock>, after: seq<Sock>, sn: nat)
    requires Apart(before, between, sn) && Apart(between, after, sn)
    ensures Apart(before, after, sn)
  {
    hide Drift;
    forall j: nat | j < |before| && j != sn
      ensures Drift(before[j], after[j])
    {
      DriftTransitive(before[j], between[j], after[j]);
    }
  }

  lemma ApartUpdate(before: seq<Sock>, after: seq<Sock>, sn: nat, s: Sock)
    requires Apart(before, after, sn) && sn < |after|
    ensures Apart(before, after[sn := s], sn)
  {
    hide Drift;
  }

  /** What a call has done so far and what it does next, put together. */
  lemma ApartChain(start: seq<Sock>, sn: nat)
    ensures Apart(start, start, sn)
    ensures forall between, after {:trigger Apart(start, between, sn), Apart(between, after, sn)} ::
              Apart(start, between, sn) && Apart(between, after, sn) ==> Apart(start, after, sn)
    ensures forall after: seq<Sock>, s: Sock {:trigger Apart(start, after[sn := s], sn)} ::
              Apart(start, after, sn) && sn < |after| ==> Apart(start, after[sn := s], sn)
  {
    forall j: nat | j < |start|
      ensures Drift(start[j], start[j])
    {
      DriftReflexive(start[j]);
    }
    hide Drift;
    assert Apart(start, start, sn);
    hide Apart;
    forall between, after | Apart(start, between, sn) && Apart(between, after, sn)
      ensures Apart(start, after, sn)
    {
      ApartTransitive(start, between, after, sn);
    }
    forall after: seq<Sock>, s: Sock {:trigger Apart(start, after[sn := s], sn)} |
      Apart(start, after, sn) && sn < |after|
      ensures Apart(start, after[sn := s], sn)
    {
      ApartUpdate(start, after, sn, s);
    }
  }

  /** For another socket that is past the connection phase: its mode, its destination, its
      transmit buffer and its pointers are what they were, and what it had received is there. */
  lemma ApartMeans(before: seq<Sock>, after: seq<Sock>, sn: nat, j: nat)
    requires Apart(before, after, sn) && j < |before| && j != sn && !PreConnection(before[j].sr)
    ensures |after| == |before|
    ensures var s, s' := before[j], after[j];
            && s'.mr == s.mr && s'.kind == s.kind && s'.cr == s.cr && s'.ends == s.ends
            && s'.tx.mem == s.tx.mem && s'.tx.wr == s.tx.wr && s'.tx.stage == s.tx.stage
            && s'.tx.committed == s.tx.committed && s'.rx.rd == s.rx.rd
            && s.rx.arrived <= s'.rx.arrived && s'.rx.released == s.rx.released
  {
    assert Drift(before[j], after[j]);
  }

  /** While the driver works on `sn`, the chip finishes no command of another socket. */
  lemma RunApart(latched: bool, chip: seq<Sock>, h: Host, batch: Batch, sn: nat)
    requires OthersGood(latched, chip, h, sn) && sn < SOCKETS
    ensures Apart(chip, RunAll(chip, batch), sn)
  {
    hide Inv, Linked, Clean, Grew, RunAll, Drift, IsSet;
    var after := RunAll(chip, batch);
    RunAllGrew(chip, batch);
    forall j: nat | j < |chip| && j != sn
      ensures Drift(chip[j], after[j])
    {
      assert GoodAt(latched, chip, h, j);
      LinkedFacts(chip[j], IsSet(h.sending, j), h.remained[j], h.log[j]);
      IdleDrifts(chip[j], after[j]);
    }
  }

  predicate MaskStep(m: nat, m': nat, sn: nat) {
    m' == m || m' == With(m, sn) || m' == Without(m, sn) || m' == With(Without(m, sn), sn)
  }

  /** Masks changed at bit `sn` and arrays changed at entry `sn` isolate the others. */
  lemma EntryUpdates(h: Host, h': Host, sn: nat)
    requires sn < SOCKETS && MaskStep(h.ioMode, h'.ioMode, sn) && MaskStep(h.sending, h'.sending, sn)
    requires |h.remained| == |h.packInfo| == |h.log| == SOCKETS
    requires |h'.remained| == |h'.packInfo| == |h'.log| == SOCKETS
    requires h'.remained == h.remained[sn := h'.remained[sn]]
    requires h'.packInfo == h.packInfo[sn := h'.packInfo[sn]]
    requires h'.log == h.log[sn := h'.log[sn]]
    ensures Isolated(h, h', sn)
  {
    BitsAreIndependent(h.ioMode, sn);
    BitsAreIndependent(Without(h.ioMode, sn), sn);
    BitsAreIndependent(h.sending, sn);
    BitsAreIndependent(Without(h.sending, sn), sn);
    hide With, Without, IsSet;
  }

  lemma IsolatedTransitive(h: Host, h1: Host, h2: Host, sn: nat)
    requires Isolated(h, h1, sn) && Isolated(h1, h2, sn)
    ensures Isolated(h, h2, sn)
  {
    hide IsSet;
  }

  /** Work on socket `sn` leaves every other socket as it is between two calls. */
  lemma OthersKept(latched: bool, chip: seq<Sock>, h: Host, sn: nat, s': Sock, h': Host)
    requires OthersGood(latched, chip, h, sn) && sn < SOCKETS && Inv(s')
    requires Isolated(h, h', sn) && PortOk(h')
    ensures OthersGood(latched, chip[sn := s'], h', sn)
  {
    hide Inv, Linked, Clean, IsSet;
    var chip' := chip[sn := s'];
    assert Shape(chip', h');
    forall j: nat | j < SOCKETS && j != sn
      ensures GoodAt(latched, chip', h', j)
    {
      assert GoodAt(latched, chip, h, j);
    }
  }

  lemma PortOkStays(h: Host, h': Host)
    requires PortOk(h) && h'.anyPort == h.anyPort && h'.autoPorts == h.autoPorts
    ensures PortOk(h')
  {
  }

  lemma NothingChanged(h: Host, sn: nat)
    ensures Isolated(h, h, sn)
  {
  }

  lemma ChipLength(latched: bool, chip: seq<Sock>, h: Host, sn: nat)
    requires OthersGood(latched, chip, h, sn)
    ensures |chip| == |h.remained| == |h.packInfo| == |h.log| == SOCKETS
    ensures PortOk(h) && (sn < SOCKETS ==> Inv(chip[sn]))
  {
  }

  /** All sockets are fine when the others are and this one is. */
  lemma AllGood(latched: bool, chip: seq<Sock>, h: Host, sn: nat)
    requires OthersGood(latched, chip, h, sn) && sn < SOCKETS
    requires |chip| == |h.remained| == |h.packInfo| == |h.log| == SOCKETS
    requires Linked(chip[sn], IsSet(h.sending, sn), h.remained[sn], h.log[sn])
    requires Clean(latched, chip[sn])
    ensures OthersGood(latched, chip, h, SOCKETS)
  {
    hide Linked, Clean, Inv;
  }

  lemma ThisGood(latched: bool, chip: seq<Sock>, h: Host, sn: nat)
    requires OthersGood(latched, chip, h, SOCKETS) && sn < SOCKETS
    ensures OthersGood(latched, chip, h, sn)
    ensures |chip| == |h.remained| == |h.packInfo| == |h.log| == SOCKETS && Inv(chip[sn])
    ensures Linked(chip[sn], IsSet(h.sending, sn), h.remained[sn], h.log[sn])
    ensures Clean(latched, chip[sn])
  {
    hide Linked, Clean, Inv;
    assert GoodAt(latched, chip, h, sn);
  }

  lemma IsGood(latched: bool, chip: seq<Sock>, h: Host, sn: nat)
    requires OthersGood(latched, chip, h, SOCKETS) && sn < SOCKETS
    ensures GoodAt(latched, chip, h, sn) && LinkedAt(chip, h, sn)
  {
    hide Linked, Clean, Inv;
    assert GoodAt(latched, chip, h, sn);
  }

  lemma WhatGood(latched: bool, chip: seq<Sock>, h: Host, sn: nat)
    requires OthersGood(latched, chip, h, sn) && sn < SOCKETS
    requires |chip| == |h.remained| == |h.packInfo| == |h.log| == SOCKETS
    ensures LinkedAt(chip, h, sn) <==> Linked(chip[sn], IsSet(h.sending, sn), h.remained[sn], h.log[sn])
    ensures GoodAt(latched, chip, h, sn) <==> LinkedAt(chip, h, sn) && Clean(latched, chip[sn])
  {
    hide Linked, Clean, Inv;
  }

  /** The automatic port after the k-th one: 0xC000 up to 0xFFEF, then round again. */
  lemma NextPort(k: nat)
    ensures var size := ANY_PORT_END - ANY_PORT;
            var next := ANY_PORT + k % size + 1;
            (if next == ANY_PORT_END then ANY_PORT else next) == ANY_PORT + (k + 1) % size
  {
  }

  /** Any 16368 consecutive automatic ports are pairwise distinct, and none is 0. */
  lemma PortsDistinct(i: nat, j: nat)
    requires i < j < i + 16368
    ensures var size := ANY_PORT_END - ANY_PORT;
            && ANY_PORT + i % size != ANY_PORT + j % size
            && 0xC000 <= ANY_PORT + i % size <= 0xFFEF
  {
    CellDistinct(0, i, j, 16368);
  }

  predicate CalmAt(latched: bool, s: Sock, h: Host, sn: nat)
    requires sn < |h.log| && sn < |h.remained|
  {
    && Inv(s.(cr := Idle))
    && Linked(s.(cr := Idle), IsSet(h.sending, sn), h.remained[sn], h.log[sn])
    && Clean(latched, s.(cr := Idle))
  }

  lemma CalmWhen(latched: bool, chip: seq<Sock>, h: Host, sn: nat)
    requires |chip| == |h.log| == |h.remained| == SOCKETS && sn < SOCKETS
    requires Inv(chip[sn].(cr := Idle)) && Clean(latched, chip[sn].(cr := Idle))
    requires Linked(chip[sn].(cr := Idle), IsSet(h.sending, sn), h.remained[sn], h.log[sn])
    ensures CalmAt(latched, chip[sn], h, sn)
  {
  }

  lemma PendingKeeps(s: Sock, a: Sock)
    requires Grew(s, a) && a.cr != Idle
    ensures a.keeps == s.keeps
  {
    StillPending(s, a);
    hide Grew, TxDrift, RxDrift, Reconnected;
  }

  /** With the TIMEOUT bit cleared, the socket is calm whether or not SEND_KEEP is done. */
  lemma KeepAliveStops(latched: bool, s: Sock, sending: bool, remained: nat, log: Log, a: Sock)
    requires Linked(s, sending, remained, log) && Clean(latched, s) && Inv(s) && s.cr == Idle && Inv(a)
    requires Grew(s.(cr := SendKeep), a)
    ensures var b := a.(irq := a.irq.(timeout := false));
            && Inv(b) && Inv(b.(cr := Idle)) && Clean(latched, b.(cr := Idle))
            && Linked(b.(cr := Idle), sending, remained, log) && (b.cr == Idle || b.cr == SendKeep)
            && b.keeps == s.keeps + (if b.cr == Idle then 1 else 0) && b.kind == s.kind
  {
    hide Linked, Clean, Inv, Grew;
    GrewKeepsKind(s.(cr := SendKeep), a);
    var irq := a.irq.(timeout := false);
    if a.cr == Idle {
      StatusOutcome(s, SendKeep, sending, remained, log, a);
      StatusEffect(s, SendKeep, a);
      assert a.(cr := Idle) == a;
    } else {
      StatusPending(s, SendKeep, sending, remained, log, a);
      PendingKeeps(s.(cr := SendKeep), a);
    }
    IrqCleared(latched, a, irq, sending, remained, log);
    IrqCleared(latched, a.(cr := Idle), irq, sending, remained, log);
    assert a.(cr := Idle).(irq := irq) == a.(irq := irq).(cr := Idle);
  }

  /** A calm socket is as between two calls exactly when no command is pending. */
  lemma CalmIsValid(latched: bool, chip: seq<Sock>, h: Host, sn: nat)
    requires OthersGood(latched, chip, h, sn) && sn < SOCKETS
    requires |chip| == |h.log| == |h.remained| == |h.packInfo| == SOCKETS && CalmAt(latched, chip[sn], h, sn)
    ensures OthersGood(latched, chip, h, SOCKETS) <==> chip[sn].cr == Idle
  {
    hide Inv, Linked, Clean, IsSet;
    if chip[sn].cr == Idle {
      assert chip[sn].(cr := Idle) == chip[sn];
      AllGood(latched, chip, h, sn);
    }
    if OthersGood(latched, chip, h, SOCKETS) {
      CommittedIsAccepted(latched, chip, h, sn);
    }
  }

  /** Between calls the chip has been handed exactly what was accepted, and the bytes on
      the wire are a prefix of that; what was delivered is a prefix of what arrived. */
  lemma CommittedIsAccepted(latched: bool, chip: seq<Sock>, h: Host, sn: nat)
    requires OthersGood(latched, chip, h, SOCKETS) && sn < SOCKETS
    ensures |chip| == |h.log| == SOCKETS
    ensures chip[sn].tx.committed == h.log[sn].accepted
    ensures chip[sn].tx.wire <= h.log[sn].accepted
    ensures h.log[sn].delivered + Pending(chip[sn]) == chip[sn].rx.arrived
    ensures chip[sn].cr == Idle && chip[sn].mr == chip[sn].kind
  {
    ThisGood(latched, chip, h, sn);
    hide FrameInv, Flat, Cell, Wrap, Ahead;
  }

  /** Between calls the SEND commands carried out for a stream socket and the SENDOK
      interrupts the driver has used up differ by one when `sock_is_sending` says so, and by
      nothing otherwise; the one that is under way is confirmed exactly when SENDOK is up. */
  lemma OneSendInFlight(latched: bool, chip: seq<Sock>, h: Host, sn: nat)
    requires OthersGood(latched, chip, h, SOCKETS) && sn < SOCKETS
    ensures |chip| == |h.log| == SOCKETS
    ensures IsStream(chip[sn].kind) ==>
              && chip[sn].sends - h.log[sn].used == (if IsSet(h.sending, sn) then 1 else 0)
              && (chip[sn].irq.sendOk <==> IsSet(h.sending, sn) && chip[sn].oks == chip[sn].sends)
  {
    ThisGood(latched, chip, h, sn);
    SendsBalance(chip[sn], IsSet(h.sending, sn), h.remained[sn], h.log[sn]);
  }

  /** Between calls on an open datagram socket the datagrams returned are the first packets
      that arrived, each with its whole payload, and the read pointer is on a packet header
      exactly when `sock_remained_size` is 0; otherwise that many payload bytes of the next
      packet come next. */
  lemma ReaderIsAligned(latched: bool, chip: seq<Sock>, h: Host, sn: nat)
    requires OthersGood(latched, chip, h, SOCKETS) && sn < SOCKETS
    ensures |chip| == |h.log| == |h.remained| == SOCKETS
    ensures IsDatagram(chip[sn].kind) && chip[sn].sr != Closed ==>
              var s, log, left := chip[sn], h.log[sn], h.remained[sn];
              && FrameInv(s) && DonePackets(s, log.done)
              && (left == 0 <==> s.rx.released == |Flat(s.kind, s.packets[..|log.done|])|)
              && (left > 0 ==> AtPayload(s, |log.done|, left, log.current))
  {
    ThisGood(latched, chip, h, sn);
    if IsDatagram(chip[sn].kind) && chip[sn].sr != Closed {
      Aligned(chip[sn], IsSet(h.sending, sn), h.remained[sn], h.log[sn]);
    }
  }

  // -------------------------------------------------------------- sock_pack_info of a socket

  /** What of a packet's information ends up in `sock_pack_info`. */
  function InfoByte(mode: byte, p: Packet): byte {
    if mode % 16 == MACRAW then 0 else p.info * 8 % 256
  }

  lemma InfoIs(mode: byte, p: Packet)
    requires p.info < 32
    ensures InfoByte(mode, p) == if mode % 16 == MACRAW then 0 else p.info * 8
  {
  }

  // The bits of the three flags.
  const PACK_FIRST: nat := 1
  const PACK_REMAINED: nat := 2
  const PACK_COMPLETED: nat := 3

  /** `sock_pack_info |= flag` */
  function WithFlag(info: byte, flag: nat): (r: byte)
    requires flag < 8
  {
    WithIsByte(info, flag, 8);
    With(info, flag)
  }

  /** `sock_pack_info` after a fragment that leaves `remained` bytes of the packet. */
  function AfterFragment(info: byte, remained: nat): byte {
    WithFlag(info, if remained != 0 then PACK_REMAINED else PACK_COMPLETED)
  }

  /** `sock_pack_info` after the fragments of one packet; `left` are the sizes that remained
      after each of them and `first` the first byte of the packet information. */
  function AfterFragments(first: byte, left: seq<nat>): byte {
    if left == [] then WithFlag(first - first % 8, PACK_FIRST)
    else AfterFragment(AfterFragments(first, left[..|left| - 1]), left[|left| - 1])
  }

  /** While a packet is being read, PACK_COMPLETED says that nothing of it remains, provided
      the packet information leaves bit 3 clear, and PACK_REMAINED that it came in pieces;
      PACK_FIRST, set for the first piece, stays set for all of them. */
  lemma {:induction false} FlagsTellProgress(first: byte, left: seq<nat>)
    requires |left| > 0 && forall i | 0 <= i < |left| - 1 :: left[i] > 0
    requires !IsSet(first, PACK_COMPLETED)
    ensures var flags := AfterFragments(first, left);
            && (IsSet(flags, PACK_COMPLETED) <==> left[|left| - 1] == 0)
            && (IsSet(flags, PACK_REMAINED) <==> |left| > 1 || left[0] > 0)
            && IsSet(flags, PACK_FIRST)
  {
    var last := |left| - 1;
    var before := AfterFragments(first, left[..last]);
    if last > 0 {
      FlagsTellProgress(first, left[..last]);
      assert left[..last][last - 1] == left[last - 1];
    } else {
      assert left[..0] == [];
      BitsAreIndependent(first - first % 8, PACK_FIRST);
      HighBits(first);
    }
    BitsAreIndependent(before, PACK_REMAINED);
    BitsAreIndependent(before, PACK_COMPLETED);
    hide IsSet, With;
  }

  /** `first & 0xF8` keeps bit 3 and has the three bits below it clear. */
  lemma HighBits(first: byte)
    ensures !IsSet(first - first % 8, PACK_REMAINED)
    ensures IsSet(first - first % 8, PACK_COMPLETED) == IsSet(first, PACK_COMPLETED)
  {
    var x := first - first % 8;
    assert first / 2 / 2 / 2 == x / 2 / 2 / 2 && x / 2 / 2 % 2 == 0;
    assert IsSet(first, 3) == IsSet(first / 2, 2) == IsSet(first / 2 / 2, 1) == IsSet(first / 2 / 2 / 2, 0);
    assert IsSet(x, 3) == IsSet(x / 2, 2) == IsSet(x / 2 / 2, 1) == IsSet(x / 2 / 2 / 2, 0);
    assert IsSet(x, 2) == IsSet(x / 2, 1) == IsSet(x / 2 / 2, 0);
  }

  /** The received bytes the host has not released. */
  function Pending(s: Sock): seq<byte> {
    if s.rx.released <= |s.rx.arrived| then s.rx.arrived[s.rx.released..] else []
  }

  lemma PendingIsRsr(s: Sock)
    requires Inv(s)
    ensures |Pending(s)| == Rsr(s.rx) <= |s.rx.mem| <= 16384
  {
    RsrValue(s.rx);
    hide Wrap, Ahead, Cell, TxInv, FrameInv;
  }

  /** What has arrived is not forgotten. */
  lemma ArrivedStays(s: Sock, s': Sock)
    requires Inv(s) && Drift(s, s')
    ensures s.rx.arrived <= s'.rx.arrived
  {
    hide TxInv, RxInv, FrameInv, TxDrift, StagedLen, TakenLen, Fsr, Rsr;
  }

  lemma ArrivedBehind(s: Sock, s': Sock)
    requires !PreConnection(s.sr) && Drift(s, s')
    ensures s.rx.arrived <= s'.rx.arrived
  {
    hide TxDrift;
  }

  lemma StoredArrived(s: Sock, data: seq<byte>, s': Sock)
    requires |data| <= |s.tx.mem| && !PreConnection(s.sr) && Drift(Stored(s, data), s')
    ensures s.rx.arrived <= s'.rx.arrived
  {
    hide Drift, Store;
    ArrivedBehind(Stored(s, data), s');
  }

  lemma ReleasedArrived(s: Sock, n: nat, s': Sock)
    requires !PreConnection(s.sr) && Drift(Released(s, n), s')
    ensures s.rx.arrived <= s'.rx.arrived
  {
    hide Drift, Wrap;
    ArrivedBehind(Released(s, n), s');
  }

  lemma SettledReleased(s: Sock, n: nat, s': Sock)
    requires Drift(Released(s, n), s') && Inv(s')
    ensures Settled(s) ==> Settled(s')
  {
    hide Drift, Inv, Wrap;
    SettledDrift(Released(s, n), s');
  }

  /** The packets of an open socket only become more. */
  lemma PacketsDrift(s: Sock, s': Sock)
    requires Drift(s, s') && !PreConnection(s.sr)
    ensures s.packets <= s'.packets
  {
    hide TxDrift, RxDrift;
  }

  lemma CarriedArrived(s: Sock, c: Command, s': Sock)
    requires StagedLen(s.tx) <= |s.tx.mem| && !PreConnection(s.sr) && Drift(Carried(s, c), s')
    ensures s.rx.arrived <= s'.rx.arrived
  {
    hide Drift, Staged, StagedLen, Commit, Outgoing;
    ArrivedBehind(Carried(s, c), s');
  }

  /** LISTEN, CONNECT, DISCON and SEND_KEEP do not touch what has arrived either. */
  lemma StatusArrived(s: Sock, c: Command, s': Sock)
    requires Inv(s) && s.cr == Idle && OnlyStatus(c) && Inv(s.(cr := c))
    requires Grew(s.(cr := c), s') && s'.cr == Idle
    ensures s.rx.arrived <= s'.rx.arrived
  {
    hide Finish, Inv, Drift, Grew;
    var a, txAt, rxAt := Finished(s.(cr := c), s');
    ArrivedStays(s.(cr := c), a);
    FinishKeepsInv(a, txAt, rxAt);
    DriftKeepsCommand(s.(cr := c), a);
    FinishStatusIs(a, txAt, rxAt);
    ArrivedStays(Finish(a, txAt, rxAt), s');
  }

  lemma PendingStays(s: Sock, s': Sock)
    requires Inv(s) && Inv(s') && Drift(s, s')
    ensures s'.rx.arrived == s.rx.arrived ==> Pending(s') == Pending(s)
  {
    hide Wrap, Ahead, Cell, TxInv, FrameInv;
  }

  // ------------------------------------------------------- addresses of the receive buffers

  /** `((uint32_t)ptr << 8) + WIZCHIP_RXBUF_BLOCK(sn)` */
  function RxAddress(ptr: word, sn: nat): nat { ptr * 256 + 3 + 4 * sn }

  /** `WIZCHIP_OFFSET_INC(addr, 1)` */
  function OffsetInc(addr: nat): nat { addr + 256 }

  /** The block and the 16-bit offset that go out with the command byte. */
  function Block(addr: nat): nat { addr % 256 }

  function Offset(addr: nat): word { Wrap(addr / 256) }

  /** Stepping through a buffer wraps the offset at 2^16 and never reaches another block. */
  lemma StepsStayInBlock(ptr: word, sn: nat, i: nat, addr: nat)
    requires sn < SOCKETS && addr == RxAddress(ptr, sn) + 256 * i
    ensures Block(addr) == 3 + 4 * sn && Offset(addr) == Wrap(ptr + i)
    ensures OffsetInc(addr) == RxAddress(ptr, sn) + 256 * (i + 1)
  {
    assert addr == 256 * (ptr + i) + (3 + 4 * sn);
  }

  /** With bytes pending the chip only appends to them. */
  lemma PendingGrows(s: Sock, s': Sock)
    requires Inv(s) && Inv(s') && Drift(s, s') && |Pending(s)| > 0
    ensures Pending(s) <= Pending(s') && s'.rx.rd == s.rx.rd && |s'.rx.mem| == |s.rx.mem|
    ensures s'.rx.released == s.rx.released && s.rx.arrived <= s'.rx.arrived
    ensures s'.rx.done == s.rx.done
  {
    hide Wrap, Ahead, Cell, TxInv, FrameInv;
  }

  lemma PeekGoesOn(s1: Sock, s2: Sock, s3: Sock)
    requires Inv(s1) && Inv(s2) && Inv(s3) && Drift(s1, s2) && Drift(s2, s3) && |Pending(s1)| > 0
    ensures Drift(s1, s3) && Pending(s2) <= Pending(s3)
    ensures s1.rx.arrived <= s2.rx.arrived <= s3.rx.arrived
  {
    hide Drift, Inv, Pending;
    PendingGrows(s1, s2);
    PendingGrows(s2, s3);
    DriftTransitive(s1, s2, s3);
  }

  /** If as much has arrived at the end as at the start, nothing arrived in between. */
  lemma NothingNew(s0: Sock, s1: Sock, s2: Sock, s3: Sock)
    requires Inv(s0) && Inv(s1) && Drift(s0, s1)
    requires s1.rx.arrived <= s2.rx.arrived <= s3.rx.arrived
    ensures s3.rx.arrived == s0.rx.arrived ==> s2.rx.arrived == s3.rx.arrived
  {
    hide Wrap, Ahead, Cell, TxInv, FrameInv, RxInv;
  }

  /** The cell `i` bytes behind the read pointer holds pending byte `i`. */
  lemma PendingCell(s: Sock, i: nat)
    requires Inv(s) && i < |Pending(s)|
    ensures |s.rx.mem| > 0 && Cell(Wrap(s.rx.done + i), 0, |s.rx.mem|) < |s.rx.mem|
    ensures s.rx.mem[Cell(Wrap(s.rx.done + i), 0, |s.rx.mem|)] == Pending(s)[i]
  {
    PendingIsRsr(s);
    InvRings(s);
    hide Inv, Wrap, Rsr;
    RingByte(s.rx, i);
  }

  lemma RingByte(r: RxSide, i: nat)
    requires RxInv(r) && i < Rsr(r)
    ensures |r.mem| > 0 && r.released + i < |r.arrived|
    ensures r.mem[Cell(Wrap(r.done + i), 0, |r.mem|)] == r.arrived[r.released + i]
  {
    RsrValue(r);
    hide Wrap, Rsr;
    var at := r.origin + r.released;
    WrapAdd(at, i);
    CellWrap(at + i, 0, |r.mem|);
    SameCell(r.origin, r.released, i, r.released + i, |r.mem|);
  }

  /** Byte `i` read through the address of the peek loop is pending byte `i`. */
  lemma PeekedByte(s1: Sock, s: Sock, i: nat, sn: nat, addr: nat)
    requires Inv(s1) && Inv(s) && Drift(s1, s) && |Pending(s1)| > 0 && i < |Pending(s)|
    requires s1.rx.rd == s1.rx.done && sn < SOCKETS && addr == RxAddress(s1.rx.rd, sn) + 256 * i
    ensures |s.rx.mem| > 0 && Cell(Offset(addr), 0, |s.rx.mem|) < |s.rx.mem|
    ensures s.rx.mem[Cell(Offset(addr), 0, |s.rx.mem|)] == Pending(s)[i]
    ensures Block(addr) == 3 + 4 * sn
    ensures OffsetInc(addr) == RxAddress(s1.rx.rd, sn) + 256 * (i + 1)
  {
    hide Inv, Drift, Pending, Wrap, Offset, RxAddress, Cell;
    PendingGrows(s1, s);
    StepsStayInBlock(s1.rx.rd, sn, i, addr);
    PendingCell(s, i);
  }

  lemma WhereFound(text: seq<byte>, n: nat, sub: seq<byte>)
    requires n <= |text|
    ensures sub != [] && (Spaced(text, sub) || Constant(sub)) ==>
              var r := Scan(text[..n], sub, 0, 0);
              Leftmost(text[..n], sub, r) && (r != -1 || n == |text| ==> Leftmost(text, sub, r))
  {
    if sub != [] && (Spaced(text, sub) || Constant(sub)) {
      LeftmostInPrefix(text, n, sub);
    }
  }

  lemma NothingSeen(text: seq<byte>, sub: seq<byte>)
    ensures sub != [] ==> Scan(text[..0], sub, 0, 0) == -1 && Tracks(text[..0], sub, 0)
  {
    hide Scan;
    if sub != [] {
      assert Scan(text[..0], sub, 0, 0) == -1 by {
        ScanTooShort(text[..0], sub, 0, 0);
      }
    }
  }

  /** A socket of a chip that has been reset. */
  function ResetSock(txSize: nat, rxSize: nat): Sock {
    Sock(0, 0, Idle, Closed, Irq(false, false, false), Endpoint(0, [], [], 0),
         EmptyTx(seq(txSize, _ => 0), 0), EmptyRx(seq(rxSize, _ => 0), 0), [], [], 0, 0, Peer([], 0), 0)
  }

  lemma ResetIsGood(latched: bool, txSize: nat, rxSize: nat)
    requires RingSize(txSize) && RingSize(rxSize)
    ensures Inv(ResetSock(txSize, rxSize)) && Clean(latched, ResetSock(txSize, rxSize))
    ensures Linked(ResetSock(txSize, rxSize), false, 0, NEW_LOG)
  {
    var s := ResetSock(txSize, rxSize);
    EmptyTxInv(s.tx.mem, 0);
    EmptyRxInv(s.rx.mem, 0);
    hide TxInv, RxInv, Wrap, Ahead, Cell;
  }

  lemma RefusalIsNegative(mode: byte, addrlen: byte, port: word)
    ensures SendToError(mode, addrlen, port) <= 0
  {
  }

  /** `data` is the part of the payload of `p` from byte `from` on; it fills a buffer of
      `len` bytes or ends the packet, and leaves `left` bytes of it. */
  predicate IsFragment(p: Packet, from: int, len: nat, data: seq<byte>, left: nat) {
    && 0 <= from && from + |data| <= |p.payload|
    && data == p.payload[from..from + |data|]
    && (|data| == len || from + |data| == |p.payload|) && |data| <= len
    && left == |p.payload| - from - |data|
  }

  /** What writing address and port registers leaves alone. */
  predicate SameSocket(s: Sock, s': Sock) {
    && s'.mr == s.mr && s'.kind == s.kind && s'.sentTo == s.sentTo && |s'.tx.mem| == |s.tx.mem|
    && s'.tx.committed == s.tx.committed && s'.sends == s.sends && (Settled(s) ==> Settled(s'))
    && s'.sr == s.sr
  }

  /** Why `sendto` refuses its arguments, or 0. */
  function SendToError(mode: byte, addrlen: byte, port: word): int {
    if mode != MACRAW && addrlen == 16 && mode / 8 % 2 == 0 then SOCKERR_SOCKMODE
    else if mode != MACRAW && addrlen == 4 && (mode == UDP6 || mode == IPRAW6) then SOCKERR_SOCKMODE
    else if mode != MACRAW && addrlen != 4 && addrlen != 16 then SOCKERR_IPINVALID
    else if HasPort(mode) && port == 0 then SOCKERR_PORTZERO
    else 0
  }

  /** Why `connect` refuses its arguments, or 0. */
  function ConnectError(mode: byte, addr: seq<byte>, port: word, addrlen: byte): int
    requires |addr| >= 4
  {
    if !IsStream(mode) then SOCKERR_SOCKMODE
    else if addr[..4] == [0, 0, 0, 0] || addr[..4] == [255, 255, 255, 255] then SOCKERR_IPINVALID
    else if port == 0 then SOCKERR_PORTZERO
    else if (if addrlen == 16 then mode / 8 % 2 == 0 else mode == TCP6) then SOCKERR_SOCKMODE
    else 0
  }

  /** Packet `k` is an Ethernet frame longer than the driver takes. */
  predicate Oversize(s: Sock, k: nat) {
    s.kind % 16 == MACRAW && k < |s.packets| && |s.packets[k].payload| > 1514
  }

  class Driver {
    /** Whether Sn_TX_WR shows the pointer of the last SEND rather than the last written. */
    const latched: bool

    var chip: seq<Sock>
    var script: seq<Batch>

    var sockAnyPort: word
    var sockIoMode: nat
    var sockIsSending: nat
    var sockRemainedSize: seq<word>
    var sockPackInfo: seq<byte>

    ghost var log: seq<Log>
    ghost var autoPorts: nat

    /** The driver's static variables as they start out, over a chip that has been reset;
        `txSizes` and `rxSizes` are the buffer sizes of its sockets. */
    constructor (latched: bool, script: seq<Batch>, txSizes: seq<nat>, rxSizes: seq<nat>)
      requires |txSizes| == |rxSizes| == SOCKETS
      requires forall j | 0 <= j < SOCKETS :: RingSize(txSizes[j]) && RingSize(rxSizes[j])
      ensures Valid() && this.latched == latched && this.script == script
      ensures |log| == SOCKETS && forall j | 0 <= j < SOCKETS :: log[j] == NEW_LOG
      ensures |chip| == SOCKETS && forall j | 0 <= j < SOCKETS :: chip[j] == ResetSock(txSizes[j], rxSizes[j])
      ensures autoPorts == 0 && forall j: nat :: !IsSet(sockIoMode, j) && !IsSet(sockIsSending, j)
    {
      this.latched, this.script := latched, script;
      chip := seq(SOCKETS, j requires 0 <= j < SOCKETS => ResetSock(txSizes[j], rxSizes[j]));
      sockAnyPort, sockIoMode, sockIsSending := ANY_PORT, 0, 0;
      sockRemainedSize := [0, 0, 0, 0, 0, 0, 0, 0];
      sockPackInfo := [0, 0, 0, 0, 0, 0, 0, 0];
      log := [NEW_LOG, NEW_LOG, NEW_LOG, NEW_LOG, NEW_LOG, NEW_LOG, NEW_LOG, NEW_LOG];
      autoPorts := 0;
      new;
      forall j: nat
        ensures !IsSet(0, j)
      {
        NoBits(j);
      }
      hide Inv, Linked, Clean, IsSet;
      forall j | 0 <= j < SOCKETS
        ensures Inv(chip[j]) && Linked(chip[j], false, 0, NEW_LOG) && Clean(latched, chip[j])
      {
        ResetIsGood(latched, txSizes[j], rxSizes[j]);
      }
      assert forall j | 0 <= j < SOCKETS :: log[j] == NEW_LOG && sockRemainedSize[j] == 0;
    }

    ghost function H(): Host
      reads this
    {
      Host(sockIoMode, sockIsSending, sockRemainedSize, sockPackInfo, sockAnyPort, autoPorts, log)
    }

    /** The most a `send` of `buf` can accept: `buf` cut to the size of the buffer. */
    ghost function SendLimit(sn: nat, buf: seq<byte>): nat
      requires sn < |chip|
      reads this
    {
      if |buf| > |chip[sn].tx.mem| then |chip[sn].tx.mem| else |buf|
    }

    /** The most a `recv` can deliver: `limit` cut to the size of the buffer. */
    ghost function RecvLimit(sn: nat, limit: nat): nat
      requires sn < |chip|
      reads this
    {
      if |chip[sn].rx.mem| < limit then |chip[sn].rx.mem| else limit
    }

    ghost predicate Others(sn: nat)
      reads this
    {
      OthersGood(latched, chip, H(), sn)
    }

    /** The driver between two calls: for every socket `Sn_CR` is 0, `accepted` is what the
        chip has been handed, `delivered` is what it has been told is released, SEND and
        SENDOK balance, and the datagram reader is aligned with the packet framing. */
    ghost predicate Valid()
      reads this
    {
      OthersGood(latched, chip, H(), SOCKETS)
    }

    /** What `close` leaves behind. */
    ghost predicate ShutDown(sn: nat)
      reads this
    {
      && sn < SOCKETS == |chip| == |sockRemainedSize| == |sockPackInfo| && chip[sn].sr == Closed
      && !IsSet(sockIoMode, sn) && !IsSet(sockIsSending, sn)
      && sockRemainedSize[sn] == 0 && sockPackInfo[sn] == 0
    }

    /** The chip acts before the next register access. */
    method Tick(sn: nat)
      requires sn < SOCKETS && Others(sn)
      modifies this`chip, this`script
      ensures Apart(old(chip), chip, sn)
      ensures Others(sn) && Grew(old(chip[sn]), chip[sn])
      ensures old(chip[sn].cr) == Idle ==> Drift(old(chip[sn]), chip[sn])
      ensures LinkedAt(old(chip), H(), sn) ==> LinkedAt(chip, H(), sn)
      ensures GoodAt(latched, old(chip), H(), sn) ==> GoodAt(latched, chip, H(), sn)
      ensures |script| == if old(|script|) == 0 then 0 else old(|script|) - 1
    {
      hide Inv, Linked, Clean, Drift, Grew, RunAll, GoodAt, LinkedAt;
      ApartChain(chip, sn);
      if script == [] {
        StillGrew(chip[sn]);
      } else {
        RunApart(latched, chip, H(), script[0], sn);
        RunKeepsGood(latched, chip, H(), script[0], sn);
        IdleDrifts(chip[sn], RunAll(chip, script[0])[sn]);
        chip, script := RunAll(chip, script[0]), script[1..];
      }
    }

    /** One reading of Sn_TX_FSR: the upper byte at state `high`, the lower one on return. */
    method FsrOnce(sn: nat) returns (val: word, ghost high: Sock)
      requires sn < SOCKETS && Others(sn) && chip[sn].cr == Idle
      modifies this`chip, this`script
      ensures Apart(old(chip), chip, sn)
      ensures Others(sn) && chip[sn].cr == Idle && |script| <= old(|script|)
      ensures LinkedAt(old(chip), H(), sn) ==> LinkedAt(chip, H(), sn)
      ensures GoodAt(latched, old(chip), H(), sn) ==> GoodAt(latched, chip, H(), sn)
      ensures Inv(high) && Drift(old(chip[sn]), chip[sn])
      ensures old(Fsr(chip[sn].tx)) <= Fsr(high.tx) <= Fsr(chip[sn].tx) <= 16384
      ensures val == Fsr(high.tx) / 256 * 256 + Fsr(chip[sn].tx) % 256
    {
      hide Inv, Linked, Clean, Drift, Grew, GoodAt, LinkedAt, Fsr, Apart;
      ApartChain(chip, sn);
      ghost var start := chip[sn];
      Tick(sn);
      high := chip[sn];
      var hiByte := Fsr(chip[sn].tx) / 256;
      DriftKeepsCommand(start, high);
      FsrGrows(start, high);
      Tick(sn);
      ghost var low := chip[sn];
      var loByte := Fsr(chip[sn].tx) % 256;
      DriftKeepsCommand(high, low);
      FsrGrows(high, low);
      DriftTransitive(start, high, low);
      val := hiByte * 256 + loByte;
    }

    /** `getSn_TX_FSR`: the register is read byte by byte until two readings agree.  A
        nonzero result is the free size at the instant `when`; any result is a lower bound
        of the free size on return, and exact if the free size has not changed. */
    method ReadTxFsr(sn: nat) returns (val: word, ghost when: Sock)
      requires sn < SOCKETS && Others(sn) && chip[sn].cr == Idle
      modifies this`chip, this`script
      ensures Apart(old(chip), chip, sn)
      ensures Others(sn) && Drift(old(chip[sn]), chip[sn])
      ensures LinkedAt(old(chip), H(), sn) ==> LinkedAt(chip, H(), sn)
      ensures GoodAt(latched, old(chip), H(), sn) ==> GoodAt(latched, chip, H(), sn)
      ensures |script| <= old(|script|)
      ensures val <= Fsr(chip[sn].tx)
      ensures Tells(old(Fsr(chip[sn].tx)), val, Fsr(chip[sn].tx))
      ensures val > 0 ==>
                && Inv(when) && Drift(old(chip[sn]), when) && Drift(when, chip[sn])
                && val == Fsr(when.tx)
      ensures Fsr(chip[sn].tx) == old(Fsr(chip[sn].tx)) ==> val == Fsr(chip[sn].tx)
    {
      hide Inv, Linked, Clean, Drift, Grew, GoodAt, LinkedAt, Fsr, Apart;
      ApartChain(chip, sn);
      ghost var start := chip[sn];
      ghost var high := start;
      var prev: word := 0xFFFF;
      val, when := 0, start;
      var again := true;
      ghost var settled := false;
      StillGrew(start);
      FsrGrows(start, start);
      while again
        invariant Apart(old(chip), chip, sn)
        invariant Others(sn) && chip[sn].cr == Idle && |script| <= old(|script|)
        invariant LinkedAt(old(chip), H(), sn) ==> LinkedAt(chip, H(), sn)
        invariant GoodAt(latched, old(chip), H(), sn) ==> GoodAt(latched, chip, H(), sn)
        invariant Drift(start, chip[sn])
        invariant Fsr(start.tx) <= Fsr(high.tx) <= Fsr(chip[sn].tx) <= 16384
        invariant val > 0 ==> val == Fsr(high.tx) / 256 * 256 + Fsr(chip[sn].tx) % 256
        invariant settled ==> val == Fsr(chip[sn].tx)
        invariant !again ==>
                    && val <= Fsr(chip[sn].tx) && Tells(Fsr(start.tx), val, Fsr(chip[sn].tx))
                    && (val > 0 ==> Inv(when) && Drift(start, when) && Drift(when, chip[sn]) && val == Fsr(when.tx))
                    && (Fsr(start.tx) == Fsr(chip[sn].tx) ==> val == Fsr(chip[sn].tx))
        decreases again, 16384 - Fsr(chip[sn].tx), !settled
      {
        prev := val;
        ChipLength(latched, chip, H(), sn);
        ghost var s, hi := chip[sn], Fsr(high.tx);
        val, high := FsrOnce(sn);
        DriftTransitive(start, s, chip[sn]);
        again := val != prev;
        if val == prev && val > 0 {
          DoubleRead.EqualReadings(hi, Fsr(s.tx), Fsr(high.tx), Fsr(chip[sn].tx), 256);
          when := s;
        }
        if val == 0 {
          ZeroReading(Fsr(start.tx), Fsr(high.tx), Fsr(chip[sn].tx));
        }
        settled := Fsr(chip[sn].tx) == Fsr(s.tx);
      }
    }

    /** One reading of Sn_RX_RSR. */
    method RsrOnce(sn: nat) returns (val: word, ghost high: Sock)
      requires sn < SOCKETS && Others(sn) && chip[sn].cr == Idle
      modifies this`chip, this`script
      ensures Apart(old(chip), chip, sn)
      ensures Others(sn) && chip[sn].cr == Idle && |script| <= old(|script|)
      ensures LinkedAt(old(chip), H(), sn) ==> LinkedAt(chip, H(), sn)
      ensures GoodAt(latched, old(chip), H(), sn) ==> GoodAt(latched, chip, H(), sn)
      ensures Inv(high) && Drift(old(chip[sn]), chip[sn])
      ensures old(Rsr(chip[sn].rx)) <= Rsr(high.rx) <= Rsr(chip[sn].rx) <= 16384
      ensures val == Rsr(high.rx) / 256 * 256 + Rsr(chip[sn].rx) % 256
    {
      hide Inv, Linked, Clean, Drift, Grew, GoodAt, LinkedAt, Rsr, Apart;
      ApartChain(chip, sn);
      ghost var start := chip[sn];
      Tick(sn);
      high := chip[sn];
      var hiByte := Rsr(chip[sn].rx) / 256;
      DriftKeepsCommand(start, high);
      RsrGrows(start, high);
      Tick(sn);
      ghost var low := chip[sn];
      var loByte := Rsr(chip[sn].rx) % 256;
      DriftKeepsCommand(high, low);
      RsrGrows(high, low);
      DriftTransitive(start, high, low);
      val := hiByte * 256 + loByte;
    }

    /** `getSn_RX_RSR`, likewise for the received size. */
    method ReadRxRsr(sn: nat) returns (val: word, ghost when: Sock)
      requires sn < SOCKETS && Others(sn) && chip[sn].cr == Idle
      modifies this`chip, this`script
      ensures Apart(old(chip), chip, sn)
      ensures Others(sn) && Drift(old(chip[sn]), chip[sn])
      ensures LinkedAt(old(chip), H(), sn) ==> LinkedAt(chip, H(), sn)
      ensures GoodAt(latched, old(chip), H(), sn) ==> GoodAt(latched, chip, H(), sn)
      ensures |script| <= old(|script|)
      ensures val <= Rsr(chip[sn].rx)
      ensures Tells(old(Rsr(chip[sn].rx)), val, Rsr(chip[sn].rx))
      ensures val > 0 ==>
                && Inv(when) && Drift(old(chip[sn]), when) && Drift(when, chip[sn])
                && val == Rsr(when.rx)
      ensures Rsr(chip[sn].rx) == old(Rsr(chip[sn].rx)) ==> val == Rsr(chip[sn].rx)
    {
      hide Inv, Linked, Clean, Drift, Grew, GoodAt, LinkedAt, Rsr, Apart;
      ApartChain(chip, sn);
      ghost var start := chip[sn];
      ghost var high := start;
      var prev: word := 0xFFFF;
      val, when := 0, start;
      var again := true;
      ghost var settled := false;
      StillGrew(start);
      RsrGrows(start, start);
      while again
        invariant Apart(old(chip), chip, sn)
        invariant Others(sn) && chip[sn].cr == Idle && |script| <= old(|script|)
        invariant LinkedAt(old(chip), H(), sn) ==> LinkedAt(chip, H(), sn)
        invariant GoodAt(latched, old(chip), H(), sn) ==> GoodAt(latched, chip, H(), sn)
        invariant Drift(start, chip[sn])
        invariant Rsr(start.rx) <= Rsr(high.rx) <= Rsr(chip[sn].rx) <= 16384
        invariant val > 0 ==> val == Rsr(high.rx) / 256 * 256 + Rsr(chip[sn].rx) % 256
        invariant settled ==> val == Rsr(chip[sn].rx)
        invariant !again ==>
                    && val <= Rsr(chip[sn].rx) && Tells(Rsr(start.rx), val, Rsr(chip[sn].rx))
                    && (val > 0 ==> Inv(when) && Drift(start, when) && Drift(when, chip[sn]) && val == Rsr(when.rx))
                    && (Rsr(start.rx) == Rsr(chip[sn].rx) ==> val == Rsr(chip[sn].rx))
        decreases again, 16384 - Rsr(chip[sn].rx), !settled
      {
        prev := val;
        ChipLength(latched, chip, H(), sn);
        ghost var s, hi := chip[sn], Rsr(high.rx);
        val, high := RsrOnce(sn);
        DriftTransitive(start, s, chip[sn]);
        again := val != prev;
        if val == prev && val > 0 {
          DoubleRead.EqualReadings(hi, Rsr(s.rx), Rsr(high.rx), Rsr(chip[sn].rx), 256);
          when := s;
        }
        if val == 0 {
          ZeroReading(Rsr(start.rx), Rsr(high.rx), Rsr(chip[sn].rx));
        }
        settled := Rsr(chip[sn].rx) == Rsr(s.rx);
      }
    }

    /** The host writes to the registers or the memory of one socket. */
    method Write(sn: nat, s: Sock)
      requires sn < SOCKETS && Others(sn) && Inv(s)
      modifies this`chip
      ensures Others(sn) && sn < |old(chip)| && chip == old(chip)[sn := s]
      ensures Apart(old(chip), chip, sn)
    {
      hide Inv, OthersGood, Isolated, Apart;
      ApartChain(chip, sn);
      ChipLength(latched, chip, H(), sn);
      NothingChanged(H(), sn);
      OthersKept(latched, chip, H(), sn, s, H());
      chip := chip[sn := s];
    }

    /** Writes a command to Sn_CR and waits until the register clears.  No command is
        written while an earlier one is pending. */
    method Perform(sn: nat, c: Command) returns (done: bool)
      requires sn < SOCKETS && Others(sn) && c != Idle
      requires chip[sn].cr == Idle && Inv(chip[sn].(cr := c))
      modifies this`chip, this`script
      ensures Apart(old(chip), chip, sn)
      ensures Others(sn) && Grew(old(chip[sn]).(cr := c), chip[sn])
      ensures done <==> chip[sn].cr == Idle
      ensures |script| <= old(|script|)
      ensures c != Open ==> chip[sn].kind == old(chip[sn].kind)
      ensures !done ==> script == []
    {
      hide Inv, Linked, Clean, Drift, Grew, GoodAt, LinkedAt, OthersGood, Apart;
      ApartChain(chip, sn);
      ChipLength(latched, chip, H(), sn);
      ghost var s0, s := chip[sn], chip[sn].(cr := c);
      Tick(sn);
      ChipLength(latched, chip, H(), sn);
      CommandStays(s0, c, chip[sn]);
      DriftFacts(s0, chip[sn]);
      Write(sn, chip[sn].(cr := c));
      ghost var s1 := chip[sn];
      DriftGrew(s, s1);
      Tick(sn);
      ChipLength(latched, chip, H(), sn);
      GrewTransitive(s, s1, chip[sn]);
      if c != Open {
        GrewKeepsKind(s, chip[sn]);
      }
      while chip[sn].cr != Idle
        invariant Apart(old(chip), chip, sn)
        invariant Others(sn) && |chip| == SOCKETS && Grew(s, chip[sn])
        invariant c != Open ==> chip[sn].kind == s.kind
        invariant |script| <= old(|script|)
        decreases |script|
      {
        if script == [] {
          return false;
        }
        ghost var before := chip[sn];
        Tick(sn);
        ChipLength(latched, chip, H(), sn);
        GrewTransitive(s, before, chip[sn]);
        if c != Open {
          GrewKeepsKind(s, chip[sn]);
        }
      }
      done := true;
    }

    /** `close` once CLOSE is done: the interrupts of the socket are cleared, everything the
        driver keeps about it is reset, and the status is CLOSED. */
    method EndClose(sn: nat)
      requires sn < SOCKETS && Others(sn) && Coherent(chip[sn], log[sn])
      requires chip[sn].sr == Closed && chip[sn].sends == 0 && chip[sn].oks == 0
      modifies this
      ensures Apart(old(chip), chip, sn)
      ensures Isolated(old(H()), H(), sn) && Valid() && Others(sn)
      ensures sockAnyPort == old(sockAnyPort) && autoPorts == old(autoPorts)
      ensures chip[sn].sr == Closed && chip[sn].sends == 0 && !chip[sn].irq.sendOk
      ensures !IsSet(sockIoMode, sn) && !IsSet(sockIsSending, sn)
      ensures sockRemainedSize[sn] == 0 && sockPackInfo[sn] == 0
      ensures log == old(log)[sn := old(log)[sn].(used := 0)]
      ensures chip[sn].kind == old(chip[sn].kind) && chip[sn].tx.committed == log[sn].accepted
      ensures Settled(chip[sn]) && old(chip[sn].packets) <= chip[sn].packets
      ensures ShutDown(sn)
    {
      hide Inv, Linked, Clean, Drift, Grew, GoodAt, LinkedAt, OthersGood, Isolated, Coherent, IsSet, PortOk,
        Apart;
      ApartChain(chip, sn);
      ghost var h := H();
      ChipLength(latched, chip, h, sn);
      CoherentFrames(chip[sn], log[sn]);
      ghost var s := chip[sn];
      Tick(sn);
      ChipLength(latched, chip, h, sn);
      ClosedStays(s, chip[sn]);
      StaysClosed(s, log[sn], chip[sn]);
      ghost var s1 := chip[sn].(irq := Irq(false, false, false));
      sockIoMode := Without(sockIoMode, sn);
      sockRemainedSize := sockRemainedSize[sn := 0];
      sockIsSending := Without(sockIsSending, sn);
      sockPackInfo := sockPackInfo[sn := 0];
      log := log[sn := log[sn].(used := 0)];
      EntryUpdates(h, H(), sn);
      BitsAreIndependent(h.ioMode, sn);
      BitsAreIndependent(h.sending, sn);
      ClosedGood(latched, chip[sn], h.log[sn], IsSet(sockIsSending, sn));
      PortOkStays(h, H());
      OthersKept(latched, chip, h, sn, s1, H());
      chip := chip[sn := chip[sn].(irq := Irq(false, false, false))];
      assert Apart(old(chip), chip, sn);
      AllGood(latched, chip, H(), sn);
      // The status is CLOSED by the time Sn_CR clears, so the last wait ends with its first reading.
      Poll(sn);
      ThisGood(latched, chip, H(), sn);
      ClosedStays(s1, chip[sn]);
      CommittedIsAccepted(latched, chip, H(), sn);
    }

    /** `close` */
    method Close(sn: nat) returns (r: Ret)
      requires sn != SOCKETS
      requires sn > SOCKETS ==> Valid()
      requires sn < SOCKETS ==> Others(sn) && Coherent(chip[sn], log[sn])
      modifies this
      ensures Apart(old(chip), chip, sn)
      ensures Isolated(old(H()), H(), sn) && (sn < SOCKETS ==> Others(sn))
      ensures sockAnyPort == old(sockAnyPort) && autoPorts == old(autoPorts)
      ensures sn > SOCKETS ==> r == Done(SOCKERR_SOCKNUM) && Valid()
      ensures sn < SOCKETS && r.Done? ==>
                && r.code == SOCK_OK && Valid() && chip[sn].sr == Closed
                && chip[sn].sends == 0 && !chip[sn].irq.sendOk
                && !IsSet(sockIoMode, sn) && !IsSet(sockIsSending, sn)
                && sockRemainedSize[sn] == 0 && sockPackInfo[sn] == 0
                && log == old(log)[sn := old(log)[sn].(used := 0)]
      ensures sn < SOCKETS ==>
                && chip[sn].kind == old(chip[sn].kind)
                && (IsSet(sockIoMode, sn) ==> old(IsSet(sockIoMode, sn)))
                && chip[sn].tx.committed == log[sn].accepted == old(log[sn].accepted)
                && log[sn].delivered == old(log[sn].delivered)
      ensures sn < SOCKETS && r.Done? ==> Settled(chip[sn]) && ShutDown(sn)
      ensures sn < SOCKETS && !PreConnection(old(chip[sn].sr)) ==> old(chip[sn].packets) <= chip[sn].packets
      ensures r.Running? ==> script == []
      ensures sn < SOCKETS && r.Running? ==> chip[sn].cr != Idle
    {
      hide Inv, Linked, Clean, Drift, Grew, GoodAt, LinkedAt, OthersGood, Isolated, Coherent, IsSet, Apart,
        Settled;
      ApartChain(chip, sn);
      if sn > SOCKETS {
        NothingChanged(H(), sn);
        return Done(SOCKERR_SOCKNUM);
      }
      ghost var h := H();
      NothingChanged(h, sn);
      ChipLength(latched, chip, h, sn);
      ghost var s := chip[sn];
      ReadyToClose(s, log[sn]);
      var done := Perform(sn, Command.Close);
      ChipLength(latched, chip, h, sn);
      InvUntouched(s);
      PendingClose(s, log[sn], chip[sn]);
      if !PreConnection(s.sr) {
        GrewKeepsPackets(s.(cr := Command.Close), chip[sn]);
      }
      if !done {
        return Running;
      }
      CloseOutcome(s, log[sn], chip[sn]);
      EndClose(sn);
      r := Done(SOCK_OK);
    }

    /** The first wait of `send`: until `len` bytes are free. */
    method AwaitFree(sn: nat, len: nat) returns (g: Gate)
      requires sn < SOCKETS && Valid() && IsStream(chip[sn].kind)
      modifies this`chip, this`script
      ensures Apart(old(chip), chip, sn)
      ensures Valid() && chip[sn].kind == old(chip[sn].kind)
      ensures |chip[sn].tx.mem| == old(|chip[sn].tx.mem|)
      ensures old(chip[sn].rx.arrived) <= chip[sn].rx.arrived
      ensures g.Pass? ==> Sendable(chip[sn].sr) && len <= Fsr(chip[sn].tx)
      ensures g.WouldBlock? || g.RunEnds? ==>
                && (g.WouldBlock? <==> IsSet(sockIoMode, sn)) && Sendable(chip[sn].sr)
                && (len > old(Fsr(chip[sn].tx)) || Crossed(old(Fsr(chip[sn].tx)), Fsr(chip[sn].tx)))
      ensures g.Broken? ==> !Sendable(chip[sn].sr) && (g.close <==> chip[sn].sr == Closed)
      ensures Drift(old(chip[sn]), chip[sn])
      ensures |script| <= old(|script|) && (old(|script|) > 0 ==> |script| < old(|script|))
      ensures g.RunEnds? ==> script == []
    {
      hide Inv, Linked, Clean, Drift, Grew, GoodAt, LinkedAt, IsSet, Fsr, Apart, Tells, Crossed;
      ApartChain(chip, sn);
      ghost var h, size, start := H(), |chip[sn].tx.mem|, chip[sn];
      ThisGood(latched, chip, h, sn);
      SizesNat(start);
      StillGrew(start);
      while true
        invariant Apart(old(chip), chip, sn)
        invariant Valid() && chip[sn].kind == old(chip[sn].kind) && |chip[sn].tx.mem| == size
        invariant |script| <= old(|script|) && Inv(chip[sn]) && Fsr(start.tx) <= Fsr(chip[sn].tx)
        invariant old(chip[sn].rx.arrived) <= chip[sn].rx.arrived && Drift(start, chip[sn])
        decreases |script|
      {
        ghost var s := chip[sn];
        ThisGood(latched, chip, h, sn);
        IsGood(latched, chip, h, sn);
        LinkedFacts(s, IsSet(h.sending, sn), h.remained[sn], h.log[sn]);
        var freesize, _ := ReadTxFsr(sn);
        ghost var s1 := chip[sn];
        DriftFacts(s, s1);
        FsrGrows(s, s1);
        ArrivedStays(s, s1);
        DriftTransitive(start, s, s1);
        Tick(sn);
        DriftFacts(s1, chip[sn]);
        FsrGrows(s1, chip[sn]);
        ArrivedStays(s1, chip[sn]);
        DriftTransitive(start, s1, chip[sn]);
        WhatGood(latched, chip, h, sn);
        AllGood(latched, chip, h, sn);
        var tmp := chip[sn].sr;
        if !Sendable(tmp) {
          return Broken(tmp == Closed);
        }
        if len <= freesize {
          return Pass;
        }
        BelowMeans(Fsr(start.tx), Fsr(s.tx), freesize, Fsr(s1.tx), Fsr(chip[sn].tx), len);
        if IsSet(sockIoMode, sn) {
          return WouldBlock;
        }
        if script == [] {
          return RunEnds;
        }
      }
    }

    /** The second wait of `send`: until the previous SEND is confirmed.  When it passes, the
        next access clears SENDOK. */
    method AwaitSendOk(sn: nat) returns (g: Gate, ghost at: Sock)
      requires sn < SOCKETS && Others(sn) && LinkedAt(chip, H(), sn) && chip[sn].cr == Idle
      requires !PreConnection(chip[sn].sr)
      modifies this`chip, this`script
      ensures Apart(old(chip), chip, sn)
      ensures Others(sn) && LinkedAt(chip, H(), sn) && Drift(old(chip[sn]), chip[sn])
      ensures g.Pass? ==> chip[sn].irq.sendOk
      ensures g.WouldBlock? ==> IsSet(sockIoMode, sn) && Sendable(chip[sn].sr)
      ensures g.Broken? ==>
                && !Sendable(at.sr) && Drift(old(chip[sn]), at) && Drift(at, chip[sn]) && !Sendable(chip[sn].sr)
                && (g.close <==> at.sr == Closed || chip[sn].irq.timeout)
      ensures !g.Pass? ==> !old(chip[sn].irq.sendOk)
      ensures |script| <= old(|script|)
      ensures g.RunEnds? ==> script == [] && !IsSet(sockIoMode, sn)
    {
      hide Inv, Linked, Clean, Drift, Grew, GoodAt, LinkedAt, IsSet, Apart;
      ApartChain(chip, sn);
      ghost var s := chip[sn];
      StillGrew(s);
      at := s;
      while true
        invariant Apart(old(chip), chip, sn)
        invariant Others(sn) && LinkedAt(chip, H(), sn) && chip[sn].cr == Idle
        invariant Drift(s, chip[sn]) && !PreConnection(chip[sn].sr)
        invariant |script| <= old(|script|)
        decreases |script|
      {
        ghost var s1 := chip[sn];
        Tick(sn);
        ghost var s2 := chip[sn];
        DriftTransitive(s, s1, s2);
        DriftFacts(s1, s2);
        if chip[sn].irq.sendOk {
          Tick(sn);
          DriftTransitive(s, s2, chip[sn]);
          DriftFacts(s2, chip[sn]);
          return Pass, at;
        }
        Tick(sn);
        ghost var s3 := chip[sn];
        DriftTransitive(s, s2, s3);
        DriftFacts(s2, s3);
        var tmp := chip[sn].sr;
        if !Sendable(tmp) {
          at := s3;
          StillGrew(s3);
          if tmp == Closed {
            return Broken(true), at;
          }
          Tick(sn);
          DriftTransitive(s, s3, chip[sn]);
          NeverAgain(s3, chip[sn]);
          return Broken(chip[sn].irq.timeout), at;
        }
        if IsSet(sockIoMode, sn) {
          return WouldBlock, at;
        }
        if script == [] {
          return RunEnds, at;
        }
      }
    }

    /** The way out of `send` and `recv` when the status is not a connected one. */
    method GiveUp(sn: nat, close: bool) returns (r: Ret)
      requires sn < SOCKETS && Others(sn) && LinkedAt(chip, H(), sn)
      requires !Sendable(chip[sn].sr) && (close || Clean(latched, chip[sn]))
      modifies this
      ensures Apart(old(chip), chip, sn)
      ensures Isolated(old(H()), H(), sn) && Others(sn)
      ensures sockAnyPort == old(sockAnyPort) && autoPorts == old(autoPorts)
      ensures r.Done? ==> r.code == SOCKERR_SOCKSTATUS && Valid()
      ensures r.Done? ==> if close then ShutDown(sn) else H() == old(H()) && chip == old(chip)
      ensures r.Done? ==> !Sendable(chip[sn].sr) && (close ==> chip[sn].sr == Closed)
      ensures r.Running? ==> chip[sn].cr != Idle
      ensures chip[sn].tx.committed == log[sn].accepted == old(log[sn].accepted)
      ensures log[sn].delivered == old(log[sn].delivered)
      ensures chip[sn].kind == old(chip[sn].kind)
      ensures IsSet(sockIoMode, sn) ==> old(IsSet(sockIoMode, sn))
      ensures r.Running? ==> script == []
    {
      hide Inv, Linked, Clean, Drift, Grew, GoodAt, LinkedAt, Isolated, Coherent, IsSet, Apart;
      ApartChain(chip, sn);
      WhatGood(latched, chip, H(), sn);
      LinkedFacts(chip[sn], IsSet(sockIsSending, sn), sockRemainedSize[sn], log[sn]);
      NothingChanged(H(), sn);
      if close {
        r := Close(sn);
        if r.Running? {
          return;
        }
      } else {
        AllGood(latched, chip, H(), sn);
      }
      r := Done(SOCKERR_SOCKSTATUS);
    }

    /** Clears the SENDOK of the previous SEND, if there was one. */
    method ConfirmSent(sn: nat)
      requires sn < SOCKETS && Others(sn) && LinkedAt(chip, H(), sn) && IsStream(chip[sn].kind)
      requires IsSet(sockIsSending, sn) ==> chip[sn].irq.sendOk
      modifies this`chip, this`log
      ensures Apart(old(chip), chip, sn)
      ensures Others(sn) && |chip| == |log| == |sockRemainedSize| == SOCKETS
      ensures Isolated(old(H()), H(), sn)
      ensures Linked(chip[sn], false, sockRemainedSize[sn], log[sn])
      ensures chip[sn] == old(chip[sn]).(irq := old(chip[sn]).irq.(sendOk := chip[sn].irq.sendOk))
      ensures old(IsSet(sockIsSending, sn)) ==> !chip[sn].irq.sendOk
      ensures log[sn] == old(log)[sn].(used := log[sn].used)
    {
      hide Inv, Linked, Clean, GoodAt, LinkedAt, Isolated, Coherent, IsSet, OthersGood, PortOk, Apart;
      ApartChain(chip, sn);
      ChipLength(latched, chip, H(), sn);
      ghost var h := H();
      WhatGood(latched, chip, h, sn);
      NothingChanged(h, sn);
      if IsSet(sockIsSending, sn) {
        ghost var log' := log[sn := log[sn].(used := log[sn].used + 1)];
        ghost var s' := chip[sn].(irq := chip[sn].irq.(sendOk := false));
        ConfirmedLinked(chip[sn], h.remained[sn], log[sn]);
        EntryUpdates(h, h.(log := log'), sn);
        PortOkStays(h, h.(log := log'));
        OthersKept(latched, chip, h, sn, s', h.(log := log'));
        chip := chip[sn := chip[sn].(irq := chip[sn].irq.(sendOk := false))];
        log := log';
        ChipLength(latched, chip, H(), sn);
      }
    }

    /** The end of `send`: the SENDOK of the previous SEND is cleared and SEND is issued for
        the bytes staged since socket state `s`. */
    method IssueSend(sn: nat, ghost s: Sock, data: seq<byte>) returns (r: Ret)
      requires sn < SOCKETS && Others(sn) && LinkedAt(chip, H(), sn)
      requires IsSet(sockIsSending, sn) ==> chip[sn].irq.sendOk
      requires Inv(s) && s.cr == Idle && IsStream(s.kind) && !PreConnection(s.sr)
      requires |data| <= Fsr(s.tx) && |data| <= |s.tx.mem|
      requires Drift(Stored(s, data), chip[sn])
      modifies this
      ensures Apart(old(chip), chip, sn)
      ensures Isolated(old(H()), H(), sn) && Others(sn)
      ensures sockAnyPort == old(sockAnyPort) && autoPorts == old(autoPorts)
      ensures log[sn].delivered == old(log[sn].delivered)
      ensures r.Done? ==>
                r.code == |data| && Valid() && log[sn].accepted == old(log[sn].accepted) + data
      ensures r.Running? ==>
                || chip[sn].tx.committed == old(log[sn].accepted)
                || chip[sn].tx.committed == old(log[sn].accepted) + data
      ensures chip[sn].kind == old(chip[sn].kind)
      ensures r.Done? ==> old(chip[sn].rx.arrived) <= chip[sn].rx.arrived
      ensures sockIoMode == old(sockIoMode)
      ensures |script| <= old(|script|)
      ensures r.Running? ==> script == []
      ensures r.Done? && r.code >= 0 ==> Later(old(chip[sn]), chip[sn])
      ensures r.Running? ==> chip[sn].cr != Idle
      ensures r.Running? ==> log[sn].accepted == old(log[sn].accepted)
    {
      hide Inv, Linked, Clean, Drift, Grew, GoodAt, LinkedAt, Isolated, Coherent, IsSet, Fsr, RingWrite,
        Staged, StagedLen, Commit, Carried, Wrap, Store, OthersGood, PortOk, Apart, PreConnection, Shape,
        Later;
      ApartChain(chip, sn);
      ChipLength(latched, chip, H(), sn);
      ghost var h := H();
      ghost var remained := h.remained[sn];
      WhatGood(latched, chip, h, sn);
      StoredWaits(s, data, chip[sn]);
      DriftFacts(Stored(s, data), chip[sn]);
      ghost var s0 := chip[sn];
      ConfirmSent(sn);
      ChipLength(latched, chip, H(), sn);
      ghost var s1, log1, h1 := chip[sn], log[sn], H();
      LinkedFacts(s1, false, remained, log1);
      ReadyToSend(s1, Command.Send);
      var done := Perform(sn, Command.Send);
      ChipLength(latched, chip, H(), sn);
      PendingSend(s1, Command.Send, data, chip[sn]);
      if !done {
        return Running;
      }
      MarkSent(sn, s1, data);
      ConfirmedLater(s0, s1.irq.sendOk, chip[sn]);
      IsolatedTransitive(h, h1, H(), sn);
      r := Done(|data|);
    }

    /** Behind a finished SEND: `sock_is_sending` is set and the bytes are entered as accepted. */
    method MarkSent(sn: nat, ghost s: Sock, data: seq<byte>)
      requires sn < SOCKETS && Others(sn) && |log| == |sockRemainedSize| == SOCKETS
      requires Linked(s, false, sockRemainedSize[sn], log[sn]) && IsStream(s.kind) && !PreConnection(s.sr)
      requires StagedLen(s.tx) <= |s.tx.mem| && Staged(s.tx) == data
      requires Grew(s.(cr := Command.Send), chip[sn]) && chip[sn].cr == Idle
      modifies this`sockIsSending, this`log
      ensures Valid() && Others(sn) && Isolated(old(H()), H(), sn) && Later(s, chip[sn])
      ensures log == old(log)[sn := old(log)[sn].(accepted := old(log)[sn].accepted + data)]
      ensures IsSet(sockIsSending, sn) && s.rx.arrived <= chip[sn].rx.arrived
    {
      hide Inv, Linked, Clean, Drift, Grew, GoodAt, LinkedAt, Isolated, Coherent, IsSet, Staged, StagedLen,
        Carried, OthersGood, PortOk, PreConnection, Shape, Later;
      ghost var h, remained := H(), sockRemainedSize[sn];
      ChipLength(latched, chip, h, sn);
      SendOutcome(s, Command.Send, chip[sn]);
      CarriedArrived(s, Command.Send, chip[sn]);
      CarriedLater(s, Command.Send, chip[sn]);
      CarriedLinked(s, Command.Send, remained, log[sn], data, chip[sn]);
      sockIsSending := With(sockIsSending, sn);
      log := log[sn := log[sn].(accepted := log[sn].accepted + data)];
      BitsAreIndependent(h.sending, sn);
      EntryUpdates(h, H(), sn);
      PortOkStays(h, H());
      OthersKept(latched, chip, h, sn, chip[sn], H());
      assert chip[sn := chip[sn]] == chip;
      AllGood(latched, chip, H(), sn);
      ThisGood(latched, chip, H(), sn);
    }

    /** The second wait of `send` while the bytes of `data` stand behind the write pointer since
        socket state `s`. */
    method AwaitConfirmed(sn: nat, ghost s: Sock, data: seq<byte>) returns (g: Gate, ghost when: Sock)
      requires sn < SOCKETS && Others(sn) && LinkedAt(chip, H(), sn)
      requires Inv(s) && s.cr == Idle && IsStream(s.kind) && !PreConnection(s.sr)
      requires |data| <= Fsr(s.tx) && |data| <= |s.tx.mem|
      requires Drift(Stored(s, data), chip[sn])
      modifies this`chip, this`script
      ensures Apart(old(chip), chip, sn)
      ensures Others(sn) && LinkedAt(chip, H(), sn) && Drift(Stored(s, data), chip[sn])
      ensures g.Pass? ==> chip[sn].irq.sendOk
      ensures g.WouldBlock? ==> IsSet(sockIoMode, sn) && Sendable(chip[sn].sr) && (latched ==> Valid())
      ensures g.Broken? ==>
                && !Sendable(chip[sn].sr) && (g.close || Clean(latched, chip[sn]))
                && !Sendable(when.sr) && Later(old(chip[sn]), when)
                && (g.close <==> when.sr == Closed || when.irq.timeout)
      ensures !g.Pass? ==> !old(chip[sn].irq.sendOk)
      ensures Waiting(chip[sn].tx, data) && chip[sn].tx.committed == log[sn].accepted
      ensures chip[sn].kind == old(chip[sn].kind) && old(chip[sn].rx.arrived) <= chip[sn].rx.arrived
      ensures Later(old(chip[sn]), chip[sn])
      ensures |script| <= old(|script|) && (g.RunEnds? ==> script == [] && !IsSet(sockIoMode, sn))
    {
      hide Inv, Linked, Clean, Drift, Grew, GoodAt, LinkedAt, Isolated, Coherent, IsSet, Fsr, RingWrite,
        Staged, StagedLen, Commit, Carried, Wrap, OthersGood, PortOk, Apart, Waiting, Later;
      ApartChain(chip, sn);
      ChipLength(latched, chip, H(), sn);
      ghost var h, s1 := H(), chip[sn];
      WhatGood(latched, chip, h, sn);
      LinkedFacts(s1, IsSet(h.sending, sn), h.remained[sn], h.log[sn]);
      DriftFacts(Stored(s, data), s1);
      g, when := AwaitSendOk(sn);
      ChipLength(latched, chip, h, sn);
      WhatGood(latched, chip, h, sn);
      DriftFacts(s1, chip[sn]);
      DriftLater(s1, chip[sn]);
      if g.Broken? {
        RegistersLater(s1, when, chip[sn]);
      }
      when := when.(irq := chip[sn].irq);
      DriftTransitive(Stored(s, data), s1, chip[sn]);
      StoredWaits(s, data, chip[sn]);
      ArrivedStays(s1, chip[sn]);
      LinkedFacts(chip[sn], IsSet(h.sending, sn), h.remained[sn], h.log[sn]);
      if g.Broken? && !g.close {
        StreamStatus(chip[sn]);
        NotLive(latched, chip[sn]);
      }
      if g.WouldBlock? && latched {
        LatchedClean(chip[sn]);
        AllGood(latched, chip, h, sn);
      }
    }

    /** The second half of `send`: `data` stands behind the write pointer. */
    method SendStored(sn: nat, ghost s: Sock, data: seq<byte>) returns (r: Ret, ghost when: Sock)
      requires sn < SOCKETS && Others(sn) && LinkedAt(chip, H(), sn)
      requires Inv(s) && s.cr == Idle && IsStream(s.kind) && !PreConnection(s.sr)
      requires |data| <= Fsr(s.tx) && |data| <= |s.tx.mem|
      requires Drift(Stored(s, data), chip[sn])
      modifies this
      ensures Apart(old(chip), chip, sn)
      ensures Isolated(old(H()), H(), sn) && Others(sn)
      ensures sockAnyPort == old(sockAnyPort) && autoPorts == old(autoPorts)
      ensures log[sn].delivered == old(log[sn].delivered)
      ensures r.Done? && r.code >= 0 ==>
                && r.code <= |data| && log[sn].accepted == old(log[sn].accepted) + data[..r.code]
                && (r.code == |data| || (r.code == SOCK_BUSY && old(IsSet(sockIoMode, sn))))
      ensures r.Done? && r.code < 0 ==>
                && r.code == SOCKERR_SOCKSTATUS && log[sn].accepted == old(log[sn].accepted)
                && !Sendable(when.sr) && Later(old(chip[sn]), when)
                && (|| (ShutDown(sn) && (when.sr == Closed || when.irq.timeout))
                    || (when.sr != Closed && !when.irq.timeout && H() == old(H())))
                && !Sendable(chip[sn].sr) && (chip[sn].sr == Closed || Later(old(chip[sn]), chip[sn]))
      ensures r == Done(SOCK_BUSY) && |data| > 0 ==>
                old(IsSet(sockIsSending, sn)) && !old(chip[sn].irq.sendOk) && Sendable(chip[sn].sr)
      ensures r.Done? ==>
                || Valid()
                || (&& !latched && r.code == SOCK_BUSY
                    && old(IsSet(sockIoMode, sn) && IsSet(sockIsSending, sn))
                    && LinkedAt(chip, H(), sn) && Waiting(chip[sn].tx, data))
      ensures r.Running? ==>
                || chip[sn].tx.committed == old(log[sn].accepted)
                || chip[sn].tx.committed == old(log[sn].accepted) + data
      ensures r.Done? && r.code >= 0 ==> old(chip[sn].rx.arrived) <= chip[sn].rx.arrived
      ensures chip[sn].kind == old(chip[sn].kind)
      ensures IsSet(sockIoMode, sn) ==> old(IsSet(sockIoMode, sn))
      ensures r.Done? && r.code >= 0 ==> |script| <= old(|script|)
      ensures r.Running? ==> script == []
      ensures r.Done? && r.code >= 0 ==> Later(old(chip[sn]), chip[sn])
      ensures r.Running? && old(IsSet(sockIoMode, sn)) ==> chip[sn].cr != Idle
      ensures r.Running? && chip[sn].cr == Idle ==> old(IsSet(sockIsSending, sn)) && !old(chip[sn].irq.sendOk)
      ensures r.Running? ==> log[sn].accepted == old(log[sn].accepted)
    {
      hide Inv, Linked, Clean, Drift, Grew, GoodAt, LinkedAt, Isolated, Coherent, IsSet, Fsr, RingWrite,
        Staged, StagedLen, Commit, Carried, Wrap, OthersGood, PortOk, Apart, Waiting, ShutDown, Later, Store,
        PreConnection, Shape;
      ApartChain(chip, sn);
      ChipLength(latched, chip, H(), sn);
      ghost var h, s1 := H(), chip[sn];
      NothingChanged(h, sn);
      when := s1;
      WhatGood(latched, chip, h, sn);
      LinkedFacts(s1, IsSet(h.sending, sn), h.remained[sn], h.log[sn]);
      StoredLater(s, data, s1);
      StillLater(s1);
      if IsSet(sockIsSending, sn) {
        var g;
        g, when := AwaitConfirmed(sn, s, data);
        ChipLength(latched, chip, h, sn);
        if g.Broken? {
          r := GiveUp(sn, g.close);
          return;
        }
        if g.WouldBlock? {
          return Done(SOCK_BUSY), when;
        }
        if g.RunEnds? {
          return Running, when;
        }
      }
      ghost var s2 := chip[sn];
      r := IssueSend(sn, s, data);
      if r.Done? {
        ChipLength(latched, chip, H(), sn);
        LaterTransitive(s1, s2, chip[sn]);
      }
    }

    /** `send` from the store on, with room for all bytes of `data` on a connected socket. */
    method SendData(sn: nat, data: seq<byte>, ghost start: Sock) returns (r: Ret, ghost when: Sock)
      requires sn < SOCKETS && Valid() && |chip| == |log| == SOCKETS && IsStream(chip[sn].kind)
      requires Sendable(chip[sn].sr) && |data| <= Fsr(chip[sn].tx)
      requires Later(start, chip[sn])
      modifies this
      ensures Apart(old(chip), chip, sn)
      ensures Isolated(old(H()), H(), sn) && Others(sn)
      ensures sockAnyPort == old(sockAnyPort) && autoPorts == old(autoPorts)
      ensures log[sn].delivered == old(log[sn].delivered)
      ensures r.Done? && r.code >= 0 ==>
                && r.code <= |data| && log[sn].accepted == old(log[sn].accepted) + data[..r.code]
                && (r.code == |data| || (r.code == SOCK_BUSY && old(IsSet(sockIoMode, sn))))
      ensures r.Done? && r.code < 0 ==>
                && r.code == SOCKERR_SOCKSTATUS && log[sn].accepted == old(log[sn].accepted)
                && !Sendable(when.sr) && Later(start, when)
                && (|| (ShutDown(sn) && (when.sr == Closed || when.irq.timeout))
                    || (when.sr != Closed && !when.irq.timeout && H() == old(H())))
                && !Sendable(chip[sn].sr) && (chip[sn].sr == Closed || Later(start, chip[sn]))
      ensures r == Done(SOCK_BUSY) && |data| > 0 ==>
                old(IsSet(sockIsSending, sn)) && !old(chip[sn].irq.sendOk) && Sendable(chip[sn].sr)
      ensures r.Done? ==>
                || Valid()
                || (&& !latched && r.code == SOCK_BUSY
                    && old(IsSet(sockIoMode, sn) && IsSet(sockIsSending, sn))
                    && LinkedAt(chip, H(), sn) && Waiting(chip[sn].tx, data))
      ensures r.Running? ==>
                || chip[sn].tx.committed == old(log[sn].accepted)
                || chip[sn].tx.committed == old(log[sn].accepted) + data
      ensures r.Done? && r.code >= 0 ==> old(chip[sn].rx.arrived) <= chip[sn].rx.arrived
      ensures chip[sn].kind == old(chip[sn].kind)
      ensures IsSet(sockIoMode, sn) ==> old(IsSet(sockIoMode, sn))
      ensures r.Done? && r.code >= 0 ==> |script| <= old(|script|)
      ensures r.Running? ==> script == []
      ensures r.Done? && r.code >= 0 ==> Later(start, chip[sn])
      ensures r.Running? && old(IsSet(sockIoMode, sn)) ==> chip[sn].cr != Idle
      ensures r.Running? && chip[sn].cr == Idle ==> old(IsSet(sockIsSending, sn)) && !old(chip[sn].irq.sendOk)
      ensures r.Running? ==> log[sn].accepted == old(log[sn].accepted)
    {
      hide Inv, Linked, Clean, Drift, Grew, GoodAt, LinkedAt, Isolated, Coherent, IsSet, Fsr, RingWrite,
        Staged, StagedLen, Commit, Carried, Wrap, OthersGood, PortOk, Stored, Apart, Waiting, ShutDown, Later;
      ApartChain(chip, sn);
      ghost var h, s := H(), chip[sn];
      ThisGood(latched, chip, h, sn);
      LinkedFacts(s, IsSet(h.sending, sn), h.remained[sn], h.log[sn]);
      WritePointer(latched, s);
      StreamStatus(s);
      StoreKeepsSock(s, data);
      WizSendData(sn, data);
      StillLinked(s, IsSet(h.sending, sn), h.remained[sn], h.log[sn], data, chip[sn]);
      WhatGood(latched, chip, h, sn);
      DriftFacts(Stored(s, data), chip[sn]);
      StoredLater(s, data, chip[sn]);
      ghost var s1 := chip[sn];
      StoredArrived(s, data, chip[sn]);
      LaterTransitive(start, s, s1);
      r, when := SendStored(sn, s, data);
      if r.Done? {
        ChipLength(latched, chip, H(), sn);
        LaterTransitive(start, s1, if r.code >= 0 then chip[sn] else when);
        if r.code < 0 && chip[sn].sr != Closed {
          LaterTransitive(start, s1, chip[sn]);
        }
      }
    }

    /** Sn_TX_WR as the host reads it. */
    function TxWr(sn: nat): word
      requires sn < |chip|
      reads this
    {
      if latched then chip[sn].tx.wr else chip[sn].tx.stage
    }

    /** `wiz_send_data`: the write pointer is read, the bytes are copied behind it and the
        pointer is moved, and the chip goes on between these accesses. */
    method WizSendData(sn: nat, data: seq<byte>)
      requires sn < SOCKETS && Others(sn) && |chip| == SOCKETS && chip[sn].cr == Idle
      requires !PreConnection(chip[sn].sr) && |data| <= Fsr(chip[sn].tx) && |data| <= |chip[sn].tx.mem|
      requires TxWr(sn) == chip[sn].tx.wr
      modifies this`chip, this`script
      ensures Apart(old(chip), chip, sn)
      ensures Others(sn) && |chip| == SOCKETS && Inv(chip[sn])
      ensures Drift(Stored(old(chip[sn]), data), chip[sn])
      ensures |script| <= old(|script|)
    {
      hide Inv, Linked, Clean, Drift, Grew, GoodAt, LinkedAt, Fsr, RingWrite, Wrap, OthersGood, Copied,
        Stored, Apart, PortOk, PreConnection, Shape, RingSize, Isolated, IsSet, TxInv, RxInv;
      ApartChain(chip, sn);
      ghost var h, s := H(), chip[sn];
      ChipLength(latched, chip, h, sn);
      Tick(sn);
      ChipLength(latched, chip, h, sn);
      PointerDrifts(s, chip[sn]);
      ghost var s1 := chip[sn];
      var ptr := TxWr(sn);
      Tick(sn);
      ChipLength(latched, chip, h, sn);
      PointerDrifts(s1, chip[sn]);
      DriftTransitive(s, s1, chip[sn]);
      ghost var s2 := chip[sn];
      FsrGrows(s, s2);
      CopyKeepsSock(s2, data);
      CopiedIs(s2, data);
      Write(sn, chip[sn].(tx := chip[sn].tx.(mem := RingWrite(chip[sn].tx.mem, ptr, data))));
      Tick(sn);
      ChipLength(latched, chip, h, sn);
      ghost var s3 := chip[sn];
      DriftKeepsCommand(Copied(s2, data), s3);
      StoredInParts(s, data, s2, s3);
      Write(sn, chip[sn].(tx := chip[sn].tx.(stage := Wrap(ptr + |data|))));
    }

    /** `send`.  Whatever the chip does meanwhile, a result n >= 0 means that exactly the
        first n bytes of `buf` have been handed to the chip behind everything accepted
        before; an error or BUSY hands over nothing.  The call leaves the driver as it must
        be between calls, except when a non-blocking call gives up waiting for SENDOK and
        the chip shows the write pointer at once; then the bytes wait behind the pointer. */
    method Send(sn: nat, buf: seq<byte>) returns (r: Ret, ghost when: Sock)
      requires sn < SOCKETS && |buf| < WORD && Valid() && IsStream(chip[sn].kind)
      modifies this
      ensures Apart(old(chip), chip, sn)
      ensures Isolated(old(H()), H(), sn) && Others(sn)
      ensures sockAnyPort == old(sockAnyPort) && autoPorts == old(autoPorts)
      ensures log[sn].delivered == old(log[sn].delivered)
      ensures r.Done? && r.code >= 0 ==>
                && r.code <= |buf| && log[sn].accepted == old(log[sn].accepted) + buf[..r.code]
                && (|| r.code == old(SendLimit(sn, buf))
                    || (r.code == SOCK_BUSY && old(IsSet(sockIoMode, sn))))
      ensures r.Done? && r.code < 0 ==>
                && r.code == SOCKERR_SOCKSTATUS && log[sn].accepted == old(log[sn].accepted)
                && !Sendable(when.sr) && Later(old(chip[sn]), when)
                && (|| (ShutDown(sn) && (when.sr == Closed || when.irq.timeout))
                    || (when.sr != Closed && H() == old(H())))
                && !Sendable(chip[sn].sr) && (chip[sn].sr == Closed || Later(old(chip[sn]), chip[sn]))
      ensures r == Done(SOCK_BUSY) && old(SendLimit(sn, buf)) > 0 ==>
                || (old(IsSet(sockIsSending, sn)) && !old(chip[sn].irq.sendOk))
                || old(SendLimit(sn, buf)) > old(Fsr(chip[sn].tx))
                || Crossed(old(Fsr(chip[sn].tx)), Fsr(chip[sn].tx))
      ensures r.Done? ==>
                || Valid()
                || (&& !latched && r.code == SOCK_BUSY
                    && old(IsSet(sockIoMode, sn) && IsSet(sockIsSending, sn))
                    && LinkedAt(chip, H(), sn)
                    && Waiting(chip[sn].tx, buf[..old(SendLimit(sn, buf))]))
      ensures r.Running? ==>
                || chip[sn].tx.committed == old(log[sn].accepted)
                || chip[sn].tx.committed == old(log[sn].accepted) + buf[..old(SendLimit(sn, buf))]
      ensures r.Done? && r.code >= 0 ==> old(chip[sn].rx.arrived) <= chip[sn].rx.arrived
      ensures chip[sn].kind == old(chip[sn].kind)
      ensures IsSet(sockIoMode, sn) ==> old(IsSet(sockIoMode, sn))
      ensures r.Done? && r.code >= 0 && old(|script|) > 0 ==> |script| < old(|script|)
      ensures r.Done? && r.code >= 0 ==> |script| <= old(|script|)
      ensures r == Done(SOCK_BUSY) && old(SendLimit(sn, buf)) > 0 ==> Sendable(chip[sn].sr)
      ensures r.Running? ==> script == []
      ensures r.Done? && r.code >= 0 ==> Later(old(chip[sn]), chip[sn])
      ensures r.Running? && old(IsSet(sockIoMode, sn)) ==> chip[sn].cr != Idle
      ensures r.Running? && chip[sn].cr == Idle ==>
                || (old(IsSet(sockIsSending, sn)) && !old(chip[sn].irq.sendOk))
                || old(SendLimit(sn, buf)) > old(Fsr(chip[sn].tx))
                || Crossed(old(Fsr(chip[sn].tx)), Fsr(chip[sn].tx))
      ensures r.Running? ==> log[sn].accepted == old(log[sn].accepted)
    {
      hide Inv, Linked, Clean, Drift, Grew, GoodAt, LinkedAt, Isolated, Coherent, IsSet, Fsr, RingWrite,
        Staged, StagedLen, Commit, Carried, Wrap, OthersGood, PortOk, Apart, Waiting, ShutDown, Crossed,
        Later, PreConnection, Shape;
      ApartChain(chip, sn);
      ChipLength(latched, chip, H(), SOCKETS);
      ghost var h := H();
      NothingChanged(h, sn);
      var len := if |buf| > |chip[sn].tx.mem| then |chip[sn].tx.mem| else |buf|;
      var data := buf[..len];
      ghost var s := chip[sn];
      var g := AwaitFree(sn, len);
      ThisGood(latched, chip, h, sn);
      when := chip[sn];
      DriftLater(s, when);
      DriftFacts(s, when);
      IsGood(latched, chip, h, sn);
      LinkedFacts(chip[sn], IsSet(h.sending, sn), h.remained[sn], h.log[sn]);
      if g.Broken? {
        r := GiveUp(sn, g.close);
        return;
      }
      if g.WouldBlock? {
        return Done(SOCK_BUSY), when;
      }
      if g.RunEnds? {
        return Running, when;
      }
      r, when := SendData(sn, data, s);
      assert data[..|data|] == data;
    }

    /** `wiz_recv_data`: the read pointer is read, the next `n` pending bytes are copied and the
        pointer is moved, and the chip goes on between these accesses; `before` is the socket
        just ahead of the last of them. */
    method WizRecvData(sn: nat, n: nat) returns (data: seq<byte>, ghost before: Sock)
      requires sn < SOCKETS && Others(sn) && |chip| == SOCKETS && chip[sn].cr == Idle
      requires !PreConnection(chip[sn].sr) && chip[sn].rx.rd == chip[sn].rx.done && n <= Rsr(chip[sn].rx)
      modifies this`chip, this`script
      ensures Apart(old(chip), chip, sn)
      ensures Others(sn) && |chip| == SOCKETS && Inv(before)
      ensures old(chip[sn].rx.released) + n <= old(|chip[sn].rx.arrived|)
      ensures data == old(chip[sn].rx.arrived[chip[sn].rx.released..chip[sn].rx.released + n])
      ensures Drift(old(chip[sn]), before) && chip[sn] == before.(rx := RxTaking(before.rx, n))
      ensures before.cr == Idle && before.rx.rd == before.rx.done && n <= Rsr(before.rx)
      ensures !PreConnection(before.sr) && before.tx.committed == old(chip[sn].tx.committed)
      ensures |script| <= old(|script|)
    {
      hide Inv, Linked, Clean, Drift, Grew, GoodAt, LinkedAt, Rsr, RingRead, Wrap, OthersGood, Apart, PortOk,
        PreConnection, Shape, RingSize, Isolated, IsSet, Ahead;
      ApartChain(chip, sn);
      ghost var h, s := H(), chip[sn];
      ChipLength(latched, chip, h, sn);
      Tick(sn);
      ChipLength(latched, chip, h, sn);
      ghost var s1 := chip[sn];
      StillToRead(s, n, s1);
      var ptr := chip[sn].rx.rd;
      Tick(sn);
      ChipLength(latched, chip, h, sn);
      ghost var s2 := chip[sn];
      StillToRead(s1, n, s2);
      DriftTransitive(s, s1, s2);
      data := RingRead(chip[sn].rx.mem, ptr, n);
      Tick(sn);
      ChipLength(latched, chip, h, sn);
      before := chip[sn];
      StillToRead(s2, n, before);
      DriftTransitive(s, s2, before);
      TakingInvIdle(before, n);
      Write(sn, chip[sn].(rx := chip[sn].rx.(rd := Wrap(ptr + n))));
    }

    /** `wiz_recv_data` followed by RECV: takes the next `n` pending bytes. */
    method Take(sn: nat, n: nat) returns (done: bool, data: seq<byte>)
      requires sn < SOCKETS && Others(sn) && chip[sn].cr == Idle && !PreConnection(chip[sn].sr)
      requires chip[sn].rx.rd == chip[sn].rx.done && n <= Rsr(chip[sn].rx)
      modifies this`chip, this`script
      ensures Apart(old(chip), chip, sn)
      ensures Others(sn)
      ensures old(chip[sn].rx.released) + n <= old(|chip[sn].rx.arrived|)
      ensures data == old(chip[sn].rx.arrived[chip[sn].rx.released..chip[sn].rx.released + n])
      ensures done ==> Drift(Released(old(chip[sn]), n), chip[sn])
      ensures chip[sn].kind == old(chip[sn].kind)
      ensures !done ==> chip[sn].tx.committed == old(chip[sn].tx.committed)
      ensures old(chip[sn].packets) <= chip[sn].packets
      ensures !done ==> script == []
      ensures !done ==> chip[sn].cr != Idle
    {
      hide Inv, Linked, Clean, Drift, Grew, GoodAt, LinkedAt, Rsr, RxTaking, OthersGood, Released, Apart;
      ApartChain(chip, sn);
      ChipLength(latched, chip, H(), sn);
      ghost var s, before := chip[sn], chip[sn];
      data, before := WizRecvData(sn, n);
      TakingInv(before, n);
      DriftFacts(s, before);
      ghost var s1 := chip[sn].(cr := Command.Recv);
      done := Perform(sn, Command.Recv);
      ChipLength(latched, chip, H(), sn);
      PacketsDrift(s, before);
      GrewKeepsPackets(s1, chip[sn]);
      if done {
        RecvOutcome(before, n, chip[sn]);
        ReleasedDrifts(s, n, before);
        DriftTransitive(Released(s, n), Released(before, n), chip[sn]);
      } else {
        PendingRecv(before, n, chip[sn]);
      }
    }

    /** The wait of `recv`: until bytes are pending; at least `size` of them are. */
    method AwaitData(sn: nat) returns (g: Gate, size: word)
      requires sn < SOCKETS && Valid() && IsStream(chip[sn].kind)
      modifies this`chip, this`script
      ensures Apart(old(chip), chip, sn)
      ensures Valid() && chip[sn].kind == old(chip[sn].kind)
      ensures g.Pass? ==> Sendable(chip[sn].sr) && 0 < size <= Rsr(chip[sn].rx)
      ensures g.Pass? ==> size >= old(Rsr(chip[sn].rx))
      ensures old(chip[sn].rx.arrived) <= chip[sn].rx.arrived
      ensures g.WouldBlock? || g.RunEnds? ==>
                && (g.WouldBlock? <==> IsSet(sockIoMode, sn)) && Sendable(chip[sn].sr)
                && (old(Rsr(chip[sn].rx)) == 0 || Crossed(old(Rsr(chip[sn].rx)), Rsr(chip[sn].rx)))
      ensures g.Broken? ==> !Sendable(chip[sn].sr) && (g.close <==> chip[sn].sr == Closed)
      ensures Drift(old(chip[sn]), chip[sn])
      ensures g.RunEnds? ==> script == []
    {
      hide Inv, Linked, Clean, Drift, Grew, GoodAt, LinkedAt, IsSet, Rsr, Apart, Tells, Crossed;
      ApartChain(chip, sn);
      ghost var h, start := H(), chip[sn];
      ThisGood(latched, chip, h, sn);
      SizesNat(start);
      StillGrew(start);
      while true
        invariant Apart(old(chip), chip, sn)
        invariant Valid() && chip[sn].kind == old(chip[sn].kind) && Inv(chip[sn])
        invariant Rsr(start.rx) <= Rsr(chip[sn].rx) && |chip[sn].rx.mem| == old(|chip[sn].rx.mem|)
        invariant old(chip[sn].rx.arrived) <= chip[sn].rx.arrived && Drift(start, chip[sn])
        decreases |script|
      {
        ghost var s := chip[sn];
        ThisGood(latched, chip, h, sn);
        IsGood(latched, chip, h, sn);
        LinkedFacts(s, IsSet(h.sending, sn), h.remained[sn], h.log[sn]);
        ghost var when;
        size, when := ReadRxRsr(sn);
        ghost var s1 := chip[sn];
        DriftFacts(s, s1);
        RsrGrows(s, s1);
        ArrivedStays(s, s1);
        DriftTransitive(start, s, s1);
        if size > 0 {
          RsrGrows(s, when);
        }
        Tick(sn);
        DriftFacts(s1, chip[sn]);
        RsrGrows(s1, chip[sn]);
        ArrivedStays(s1, chip[sn]);
        DriftTransitive(start, s1, chip[sn]);
        WhatGood(latched, chip, h, sn);
        AllGood(latched, chip, h, sn);
        var tmp := chip[sn].sr;
        if !Sendable(tmp) {
          return Broken(tmp == Closed), size;
        }
        if size != 0 {
          return Pass, size;
        }
        BelowMeans(Rsr(start.rx), Rsr(s.rx), size, Rsr(s1.rx), Rsr(chip[sn].rx), 1);
        if IsSet(sockIoMode, sn) {
          return WouldBlock, size;
        }
        if script == [] {
          return RunEnds, size;
        }
      }
    }

    /** The end of `recv`: the next `n` pending bytes are taken and belong to the caller. */
    method Deliver(sn: nat, n: nat) returns (done: bool, data: seq<byte>)
      requires sn < SOCKETS && Valid() && IsStream(chip[sn].kind) && !PreConnection(chip[sn].sr)
      requires n <= Rsr(chip[sn].rx)
      modifies this`chip, this`script, this`log
      ensures Apart(old(chip), chip, sn)
      ensures Isolated(old(H()), H(), sn) && Others(sn) && |log| == SOCKETS
      ensures log[sn].accepted == old(log)[sn].accepted
      ensures done ==>
                Valid() && |data| == n && log[sn].delivered == old(log)[sn].delivered + data
      ensures !done ==> chip[sn].tx.committed == log[sn].accepted && data == []
      ensures !done ==> log == old(log)
      ensures done ==> old(chip[sn].rx.arrived) <= chip[sn].rx.arrived
      ensures chip[sn].kind == old(chip[sn].kind)
      ensures !done ==> script == []
      ensures done ==> Later(old(chip[sn]), chip[sn])
      ensures !done ==> chip[sn].cr != Idle
    {
      hide Inv, Linked, Clean, Drift, Grew, GoodAt, LinkedAt, Isolated, Coherent, IsSet, Rsr, Released,
        OthersGood, PortOk, Apart, Shape, PreConnection, Later;
      ApartChain(chip, sn);
      ThisGood(latched, chip, H(), sn);
      ghost var h, s := H(), chip[sn];
      NothingChanged(h, sn);
      LinkedFacts(s, IsSet(h.sending, sn), h.remained[sn], h.log[sn]);
      done, data := Take(sn, n);
      ChipLength(latched, chip, h, sn);
      if !done {
        return false, [];
      }
      EnterRead(sn, s, n, data);
    }

    /** Enters the bytes that a finished RECV has released into the history. */
    ghost method EnterRead(sn: nat, s: Sock, n: nat, data: seq<byte>)
      requires sn < SOCKETS && Others(sn) && |log| == |sockRemainedSize| == SOCKETS
      requires Linked(s, IsSet(sockIsSending, sn), sockRemainedSize[sn], log[sn]) && Clean(latched, s) && Inv(s)
      requires IsStream(s.kind) && !PreConnection(s.sr) && s.rx.released + n <= |s.rx.arrived|
      requires data == s.rx.arrived[s.rx.released..s.rx.released + n] && Drift(Released(s, n), chip[sn])
      modifies this`log
      ensures Valid() && Others(sn) && Isolated(old(H()), H(), sn) && Later(s, chip[sn])
      ensures log == old(log)[sn := old(log)[sn].(delivered := old(log)[sn].delivered + data)]
      ensures s.rx.arrived <= chip[sn].rx.arrived
    {
      hide Inv, Linked, Clean, Drift, Grew, GoodAt, LinkedAt, Isolated, Coherent, IsSet, Released, OthersGood,
        PortOk, Apart, Shape, PreConnection, Later;
      ghost var h := H();
      ChipLength(latched, chip, h, sn);
      ReleasedLinked(s, IsSet(h.sending, sn), h.remained[sn], h.log[sn], n, chip[sn]);
      ReleasedClean(latched, s, n, chip[sn]);
      ReleasedArrived(s, n, chip[sn]);
      ReleasedLater(s, n, chip[sn]);
      log := log[sn := log[sn].(delivered := log[sn].delivered + data)];
      EntryUpdates(h, H(), sn);
      PortOkStays(h, H());
      OthersKept(latched, chip, h, sn, chip[sn], H());
      assert chip[sn := chip[sn]] == chip;
      AllGood(latched, chip, H(), sn);
      ThisGood(latched, chip, H(), sn);
    }

    /** `recv`.  The bytes returned are the next ones that arrived from the peer, in order
        and without gaps: `delivered` grows by exactly what is returned and stays a prefix
        of what arrived. */
    method Recv(sn: nat, limit: nat) returns (r: Ret, data: seq<byte>, ghost when: Sock)
      requires sn < SOCKETS && limit < WORD && Valid() && IsStream(chip[sn].kind)
      modifies this
      ensures Apart(old(chip), chip, sn)
      ensures Isolated(old(H()), H(), sn) && Others(sn)
      ensures sockAnyPort == old(sockAnyPort) && autoPorts == old(autoPorts)
      ensures log[sn].accepted == old(log[sn].accepted)
      ensures r.Done? ==> Valid() && log[sn].delivered == old(log[sn].delivered) + data
      ensures r.Done? && r.code >= 0 ==>
                && r.code == |data| <= old(RecvLimit(sn, limit))
                && (r.code > 0 ==> r.code == old(RecvLimit(sn, limit)) || r.code >= old(Rsr(chip[sn].rx)))
                && (r.code == 0 && old(RecvLimit(sn, limit)) > 0 ==>
                      && old(IsSet(sockIoMode, sn))
                      && (old(Rsr(chip[sn].rx)) == 0 || Crossed(old(Rsr(chip[sn].rx)), Rsr(chip[sn].rx))))
      ensures r.Done? && r.code < 0 ==>
                && r.code == SOCKERR_SOCKSTATUS && data == []
                && !Sendable(when.sr) && Later(old(chip[sn]), when)
                && (if when.sr == Closed then ShutDown(sn) else when == chip[sn] && H() == old(H()))
                && !Sendable(chip[sn].sr) && (chip[sn].sr == Closed || Later(old(chip[sn]), chip[sn]))
      ensures r.Running? ==>
                chip[sn].tx.committed == log[sn].accepted && log[sn].delivered == old(log[sn].delivered)
      ensures r.Done? && r.code >= 0 ==> old(chip[sn].rx.arrived) <= chip[sn].rx.arrived
      ensures chip[sn].kind == old(chip[sn].kind)
      ensures IsSet(sockIoMode, sn) ==> old(IsSet(sockIoMode, sn))
      ensures r.Running? ==> script == []
      ensures r.Done? && r.code >= 0 ==> Later(old(chip[sn]), chip[sn])
      ensures r.Running? && old(IsSet(sockIoMode, sn)) ==> chip[sn].cr != Idle
      ensures r.Running? && chip[sn].cr == Idle ==>
                old(Rsr(chip[sn].rx)) == 0 || Crossed(old(Rsr(chip[sn].rx)), Rsr(chip[sn].rx))
    {
      hide Inv, Linked, Clean, Drift, Grew, GoodAt, LinkedAt, Isolated, Coherent, IsSet, Rsr, Wrap, Released,
        Apart, Crossed, Later, Shape, ShutDown, StatusDrift, OthersGood, PortOk;
      ApartChain(chip, sn);
      ChipLength(latched, chip, H(), SOCKETS);
      ghost var h, start := H(), chip[sn];
      NothingChanged(h, sn);
      data := [];
      var len := if |chip[sn].rx.mem| < limit then |chip[sn].rx.mem| else limit;
      var g, recvsize := AwaitData(sn);
      ThisGood(latched, chip, h, sn);
      ghost var s := chip[sn];
      when := s;
      DriftLater(start, s);
      IsGood(latched, chip, h, sn);
      LinkedFacts(s, IsSet(h.sending, sn), h.remained[sn], h.log[sn]);
      if g.Broken? {
        r := GiveUp(sn, g.close);
        return;
      }
      if g.WouldBlock? {
        return Done(SOCK_BUSY), [], when;
      }
      if g.RunEnds? {
        return Running, [], when;
      }
      if recvsize < len {
        len := recvsize;
      }
      var done;
      done, data := Deliver(sn, len);
      if done {
        ChipLength(latched, chip, H(), sn);
        LaterTransitive(start, s, chip[sn]);
      }
      r := if done then Done(len) else Running;
    }

    /** The arguments are checked before anything is touched. */
    method CheckArguments(protocol: byte, flag: byte, sipr: seq<byte>, llar: seq<byte>)
      returns (code: int)
      requires |sipr| == 4 && |llar| == 16
      ensures code == 0 <==>
                ProtocolKnown(protocol) && !AddressMissing(protocol, sipr, llar) && !FlagRefused(protocol, flag)
      ensures code != 0 ==>
                code == if !ProtocolKnown(protocol) then SOCKERR_SOCKMODE
                        else if AddressMissing(protocol, sipr, llar) then SOCKERR_IPINVALID
                        else SOCKERR_SOCKFLAG
    {
      if protocol % 16 == TCP4 || protocol % 16 == TCPD {
        var zero := IsZeroAddress(sipr);
        if zero {
          return SOCKERR_IPINVALID;
        }
      }
      if protocol % 16 == TCP6 || protocol % 16 == TCPD {
        var zero := IsZeroAddress(llar);
        if zero {
          return SOCKERR_IPINVALID;
        }
      } else if protocol % 16 != TCP4 && !IsDatagram(protocol) {
        return SOCKERR_SOCKMODE;
      }
      if flag / 4 % 2 == 1 {
        return SOCKERR_SOCKFLAG;
      }
      if flag != 0 {
        if protocol == MACRAW {
          if flag % 4 != 0 {
            return SOCKERR_SOCKFLAG;
          }
        } else if protocol == TCP4 || protocol == TCP6 || protocol == TCPD {
          if flag / 128 % 2 == 1 || flag / 16 % 2 == 1 {
            return SOCKERR_SOCKFLAG;
          }
        } else if protocol == IPRAW4 || protocol == IPRAW6 {
          return SOCKERR_SOCKFLAG;
        }
      }
      code := 0;
    }

    /** The port to bind: the one asked for, or the next automatic one. */
    method ChoosePort(wanted: word) returns (port: word)
      requires PortOk(H())
      modifies this`sockAnyPort, this`autoPorts
      ensures PortOk(H())
      ensures wanted != 0 ==> port == wanted && autoPorts == old(autoPorts)
      ensures wanted == 0 ==>
                && port == ANY_PORT + old(autoPorts) % (ANY_PORT_END - ANY_PORT)
                && autoPorts == old(autoPorts) + 1
    {
      port := wanted;
      if port == 0 {
        port := sockAnyPort;
        sockAnyPort := Wrap(sockAnyPort + 1);
        if sockAnyPort == ANY_PORT_END {
          sockAnyPort := ANY_PORT;
        }
        NextPort(autoPorts);
        autoPorts := autoPorts + 1;
      }
    }

    /** The last wait of `socket`: until the status is no longer CLOSED. */
    method AwaitOpen(sn: nat, ghost s: Sock) returns (open: bool)
      requires sn < SOCKETS && Others(sn) && Fresh(s, chip[sn])
      requires !IsSet(sockIsSending, sn) && sockRemainedSize[sn] == 0 && log[sn] == NEW_LOG
      modifies this`chip, this`script
      ensures Apart(old(chip), chip, sn)
      ensures Others(sn) && Fresh(s, chip[sn])
      ensures open ==> Valid() && chip[sn].sr != Closed
      ensures !open ==> script == []
      ensures !open ==> chip[sn].sr == Closed
    {
      hide Inv, Linked, Clean, Drift, Grew, GoodAt, LinkedAt, IsSet, Fresh, Apart;
      ApartChain(chip, sn);
      ghost var f0 := chip[sn];
      FreshLinked(latched, s, f0);
      Tick(sn);
      FreshDrift(s, f0, chip[sn]);
      FreshLinked(latched, s, chip[sn]);
      while chip[sn].sr == Closed
        invariant Apart(old(chip), chip, sn)
        invariant Others(sn) && Fresh(s, chip[sn])
        invariant Linked(chip[sn], false, 0, NEW_LOG) && Clean(latched, chip[sn])
        decreases |script|
      {
        if script == [] {
          return false;
        }
        ghost var f := chip[sn];
        LinkedFacts(f, false, 0, NEW_LOG);
        Tick(sn);
        FreshDrift(s, f, chip[sn]);
        FreshLinked(latched, s, chip[sn]);
      }
      AllGood(latched, chip, H(), sn);
      open := true;
    }

    /** `socket` resets everything the driver keeps about the socket. */
    method ResetSocket(sn: nat, nonBlock: bool)
      requires sn < SOCKETS && Others(sn)
      modifies this`sockIoMode, this`sockIsSending, this`sockRemainedSize, this`sockPackInfo, this`log
      ensures Others(sn) && Isolated(old(H()), H(), sn)
      ensures sockRemainedSize == old(sockRemainedSize)[sn := 0] && sockPackInfo == old(sockPackInfo)[sn := 0]
      ensures !IsSet(sockIsSending, sn) && IsSet(sockIoMode, sn) == nonBlock
      ensures log == old(log)[sn := NEW_LOG]
    {
      hide Inv, GoodAt, LinkedAt, Isolated, IsSet, With, Without;
      ghost var h := H();
      sockIoMode := if nonBlock then With(Without(sockIoMode, sn), sn) else Without(sockIoMode, sn);
      sockIsSending := Without(sockIsSending, sn);
      sockRemainedSize := sockRemainedSize[sn := 0];
      sockPackInfo := sockPackInfo[sn := 0];
      log := log[sn := NEW_LOG];
      EntryUpdates(h, H(), sn);
      BitsAreIndependent(h.ioMode, sn);
      BitsAreIndependent(Without(h.ioMode, sn), sn);
      BitsAreIndependent(h.sending, sn);
      OthersKept(latched, chip, h, sn, chip[sn], H());
      assert chip[sn := chip[sn]] == chip;
    }

    /** Writes the mode and the port of a closed socket. */
    method Prepare(sn: nat, mode: byte, wanted: word)
      requires sn < SOCKETS && Valid() && chip[sn].sr == Closed
      requires chip[sn].sends == 0 && !chip[sn].irq.sendOk
      modifies this`chip, this`script, this`sockAnyPort, this`autoPorts
      ensures Apart(old(chip), chip, sn)
      ensures Isolated(old(H()), H(), sn) && Others(sn) && |chip| == |log| == SOCKETS
      ensures |sockRemainedSize| == |sockPackInfo| == SOCKETS
      ensures chip[sn].sr == Closed && chip[sn].sends == 0 && !chip[sn].irq.sendOk
      ensures chip[sn].cr == Idle && chip[sn].mr == mode && Inv(chip[sn].(cr := Open))
      ensures chip[sn].tx.committed == log[sn].accepted
      ensures wanted != 0 ==> chip[sn].ends.port == wanted && autoPorts == old(autoPorts)
      ensures wanted == 0 ==>
                && chip[sn].ends.port == ANY_PORT + old(autoPorts) % (ANY_PORT_END - ANY_PORT)
                && autoPorts == old(autoPorts) + 1
    {
      hide Inv, Linked, Clean, Drift, Grew, GoodAt, LinkedAt, Isolated, Coherent, IsSet, PortOk, OthersGood,
        Apart;
      ApartChain(chip, sn);
      ghost var h := H();
      ThisGood(latched, chip, h, sn);
      LinkedFacts(chip[sn], IsSet(h.sending, sn), h.remained[sn], h.log[sn]);
      ghost var s0 := chip[sn];
      Tick(sn);
      ChipLength(latched, chip, h, sn);
      ClosedStays(s0, chip[sn]);
      ReadyToOpen(chip[sn], mode, chip[sn].ends);
      ghost var s1 := chip[sn].(mr := mode);
      Write(sn, chip[sn].(mr := mode));
      Tick(sn);
      ChipLength(latched, chip, h, sn);
      ClosedStays(s1, chip[sn]);
      var port := ChoosePort(wanted);
      EntryUpdates(h, H(), sn);
      OthersKept(latched, chip, h, sn, chip[sn], H());
      assert chip[sn := chip[sn]] == chip;
      ReadyToOpen(chip[sn], mode, chip[sn].ends.(port := port));
      Write(sn, chip[sn].(ends := chip[sn].ends.(port := port)));
      assert chip[sn].(cr := Open) == chip[sn].(mr := mode, cr := Open);
    }

    /** The second half of `socket`, on the socket just closed. */
    method Reopen(sn: nat, mode: byte, wanted: word, nonBlock: bool) returns (r: Ret)
      requires sn < SOCKETS && Valid() && chip[sn].sr == Closed
      requires chip[sn].sends == 0 && !chip[sn].irq.sendOk
      modifies this
      ensures Apart(old(chip), chip, sn)
      ensures Isolated(old(H()), H(), sn) && Others(sn)
      ensures r.Done? ==>
                && r.code == sn && Valid() && log == old(log)[sn := NEW_LOG]
                && sockRemainedSize[sn] == 0 && sockPackInfo[sn] == 0
                && !IsSet(sockIsSending, sn) && IsSet(sockIoMode, sn) == nonBlock
                && chip[sn].kind == mode && chip[sn].sr != Closed && chip[sn].tx.committed == []
                && Settled(chip[sn])
                && (wanted != 0 ==> chip[sn].ends.port == wanted && autoPorts == old(autoPorts))
                && (wanted == 0 ==>
                      && chip[sn].ends.port == ANY_PORT + old(autoPorts) % (ANY_PORT_END - ANY_PORT)
                      && autoPorts == old(autoPorts) + 1)
      ensures r.Running? ==>
                && chip[sn].tx.committed == log[sn].accepted
                && (log == old(log) || log == old(log)[sn := NEW_LOG])
      ensures r.Running? ==> script == []
    {
      hide Inv, Linked, Clean, Drift, Grew, GoodAt, LinkedAt, Isolated, Coherent, IsSet, Fresh, PortOk, With,
        Without, Apart, OthersGood, OpenStatus;
      ApartChain(chip, sn);
      ghost var h := H();
      Prepare(sn, mode, wanted);
      ghost var s := chip[sn];
      var done := Perform(sn, Open);
      ChipLength(latched, chip, H(), sn);
      if !done {
        PendingOpen(s, chip[sn]);
        return Running;
      }
      OpenOutcome(s, chip[sn]);
      ghost var h1 := H();
      ResetSocket(sn, nonBlock);
      IsolatedTransitive(h, h1, H(), sn);
      var open := AwaitOpen(sn, s);
      ChipLength(latched, chip, H(), sn);
      FreshFacts(s, chip[sn]);
      r := if open then Done(sn) else Running;
    }

    /** `socket`: `sipr` and `llar` are the addresses configured in the chip. */
    method Socket(sn: nat, protocol: byte, port: word, flag: byte, sipr: seq<byte>, llar: seq<byte>)
      returns (r: Ret)
      requires sn != SOCKETS && |sipr| == 4 && |llar| == 16 && Valid()
      modifies this
      ensures Apart(old(chip), chip, sn)
      ensures Isolated(old(H()), H(), sn) && (sn < SOCKETS ==> Others(sn))
      ensures r.Done? ==> Valid()
      ensures r.Done? && r.code < 0 ==> H() == old(H()) && chip == old(chip)
      ensures sn > SOCKETS ==> r == Done(SOCKERR_SOCKNUM)
      ensures sn < SOCKETS && r.Done? ==>
                (r.code == sn <==> ProtocolKnown(protocol) && !AddressMissing(protocol, sipr, llar)
                                   && !FlagRefused(protocol, flag))
                && (r.code == sn || r.code < 0)
      ensures r == Done(sn) ==>
                && log == old(log)[sn := NEW_LOG]
                && sockRemainedSize[sn] == 0 && sockPackInfo[sn] == 0
                && !IsSet(sockIsSending, sn) && IsSet(sockIoMode, sn) == NonBlockBit(flag)
                && chip[sn].kind == ModeRegister(protocol, flag) && chip[sn].sr != Closed
                && chip[sn].tx.committed == [] && Settled(chip[sn])
                && (port != 0 ==> chip[sn].ends.port == port && autoPorts == old(autoPorts))
                && (port == 0 ==>
                      && chip[sn].ends.port == ANY_PORT + old(autoPorts) % (ANY_PORT_END - ANY_PORT)
                      && autoPorts == old(autoPorts) + 1)
      ensures sn < SOCKETS && r.Running? ==>
                && chip[sn].tx.committed == log[sn].accepted
                && (|| log[sn] == NEW_LOG
                    || (&& log[sn].accepted == old(log[sn].accepted)
                        && log[sn].delivered == old(log[sn].delivered)))
      ensures r.Running? ==> script == []
    {
      hide Inv, Linked, Clean, Drift, Grew, GoodAt, LinkedAt, Isolated, Coherent, IsSet, Fresh, ProtocolKnown,
        AddressMissing, FlagRefused, ModeRegister, NonBlockBit, Apart;
      ApartChain(chip, sn);
      ghost var h := H();
      NothingChanged(h, sn);
      if sn > SOCKETS {
        return Done(SOCKERR_SOCKNUM);
      }
      var code := CheckArguments(protocol, flag, sipr, llar);
      ThisGood(latched, chip, h, sn);
      LinkedFacts(chip[sn], IsSet(h.sending, sn), h.remained[sn], h.log[sn]);
      if code != 0 {
        return Done(code);
      }
      r := Close(sn);
      if r.Running? {
        return;
      }
      ghost var h1 := H();
      r := Reopen(sn, ModeRegister(protocol, flag), port, NonBlockBit(flag));
      IsolatedTransitive(h, h1, H(), sn);
    }

    /** One more access between calls: the chip goes on, the driver stays as it is. */
    method Poll(sn: nat)
      requires sn < SOCKETS && Valid()
      modifies this`chip, this`script
      ensures Apart(old(chip), chip, sn)
      ensures Valid() && Drift(old(chip[sn]), chip[sn])
      ensures chip[sn].kind == old(chip[sn].kind)
      ensures old(chip[sn].rx.arrived) <= chip[sn].rx.arrived
      ensures |script| <= old(|script|) && (old(|script|) > 0 ==> |script| < old(|script|))
    {
      hide Inv, Linked, Clean, Drift, Grew, GoodAt, LinkedAt, IsSet, Apart;
      ApartChain(chip, sn);
      ghost var h := H();
      ThisGood(latched, chip, h, sn);
      IsGood(latched, chip, h, sn);
      LinkedFacts(chip[sn], IsSet(h.sending, sn), h.remained[sn], h.log[sn]);
      ghost var s := chip[sn];
      Tick(sn);
      DriftFacts(s, chip[sn]);
      ArrivedStays(s, chip[sn]);
      WhatGood(latched, chip, h, sn);
      AllGood(latched, chip, h, sn);
    }

    /** LISTEN, CONNECT or DISCON, waited for. */
    method PerformStatus(sn: nat, c: Command) returns (done: bool)
      requires sn < SOCKETS && Valid() && OnlyStatus(c)
      modifies this`chip, this`script
      ensures Apart(old(chip), chip, sn)
      ensures Others(sn)
      ensures done ==> Valid()
      ensures done ==> chip[sn].ends == old(chip[sn].ends)
      ensures !done ==> Calm(sn) && chip[sn].cr == c
      ensures chip[sn].tx.committed == log[sn].accepted
      ensures chip[sn].kind == old(chip[sn].kind)
      ensures done ==> old(chip[sn].rx.arrived) <= chip[sn].rx.arrived
      ensures done ==> chip[sn].keeps == old(chip[sn].keeps) + if c == SendKeep then 1 else 0
      ensures done && c == Discon ==> !Sendable(chip[sn].sr) && !PreConnection(chip[sn].sr)
      ensures done && old(chip[sn].sr) == Closed ==> chip[sn].sr == Closed
      ensures done && old(chip[sn].sr) == Init && c != Discon && c != SendKeep ==>
                StatusDrift(if c == Command.Listen then Listening else SynSent, chip[sn].sr)
      ensures done && old(chip[sn].sr) == Init && (c == Connect || c == Connect6) ==>
                && chip[sn].sr != Init
                && (chip[sn].sr == Closed || chip[sn].target == Destination(old(chip[sn].ends), c))
      ensures !done ==> script == []
    {
      hide Inv, Linked, Clean, Drift, Grew, GoodAt, LinkedAt, IsSet, Apart, Shape, DatagramStatus;
      ApartChain(chip, sn);
      ChipLength(latched, chip, H(), SOCKETS);
      ghost var h, s := H(), chip[sn];
      ThisGood(latched, chip, h, sn);
      LinkedFacts(s, IsSet(h.sending, sn), h.remained[sn], h.log[sn]);
      StatusReady(s, c);
      done := Perform(sn, c);
      ChipLength(latched, chip, h, sn);
      if done {
        StatusOutcome(s, c, IsSet(h.sending, sn), h.remained[sn], h.log[sn], chip[sn]);
        LinkedFacts(chip[sn], IsSet(h.sending, sn), h.remained[sn], h.log[sn]);
        StatusEffect(s, c, chip[sn]);
        StatusArrived(s, c, chip[sn]);
        AllGood(latched, chip, h, sn);
      } else {
        StatusPending(s, c, IsSet(h.sending, sn), h.remained[sn], h.log[sn], chip[sn]);
        CalmWhen(latched, chip, h, sn);
      }
    }

    /** Socket `sn` is as between calls except that a command still stands in Sn_CR. */
    ghost predicate Calm(sn: nat)
      requires sn < SOCKETS && |chip| == |log| == |sockRemainedSize| == SOCKETS
      reads this
    {
      CalmAt(latched, chip[sn], H(), sn)
    }

    /** Clears interrupt bits other than SENDOK. */
    method ClearIrq(sn: nat, irq: Irq)
      requires sn < SOCKETS && Valid() && irq.sendOk == chip[sn].irq.sendOk
      modifies this`chip
      ensures Apart(old(chip), chip, sn)
      ensures Valid() && chip == old(chip)[sn := old(chip[sn]).(irq := irq)]
    {
      hide Inv, Linked, Clean, Drift, Grew, GoodAt, LinkedAt, IsSet, Apart;
      ApartChain(chip, sn);
      ghost var h := H();
      ThisGood(latched, chip, h, sn);
      IrqCleared(latched, chip[sn], irq, IsSet(h.sending, sn), h.remained[sn], h.log[sn]);
      Write(sn, chip[sn].(irq := irq));
      AllGood(latched, chip, h, sn);
    }

    /** Writes the address and port registers of the socket. */
    method WriteEnds(sn: nat, ends: Endpoint)
      requires sn < SOCKETS && Valid()
      modifies this`chip
      ensures Apart(old(chip), chip, sn)
      ensures Valid() && chip == old(chip)[sn := old(chip[sn]).(ends := ends)]
    {
      hide Inv, Linked, Clean, Drift, Grew, GoodAt, LinkedAt, IsSet, Apart;
      ApartChain(chip, sn);
      ghost var h := H();
      ThisGood(latched, chip, h, sn);
      EndsWritten(latched, chip[sn], ends, IsSet(h.sending, sn), h.remained[sn], h.log[sn]);
      Write(sn, chip[sn].(ends := ends));
      AllGood(latched, chip, h, sn);
    }

    /** `close` called between two calls. */
    method CloseNow(sn: nat) returns (closed: bool)
      requires sn < SOCKETS && Valid()
      modifies this
      ensures Apart(old(chip), chip, sn)
      ensures Isolated(old(H()), H(), sn) && Others(sn)
      ensures sockAnyPort == old(sockAnyPort) && autoPorts == old(autoPorts)
      ensures closed ==> Valid() && chip[sn].sr == Closed
      ensures chip[sn].tx.committed == log[sn].accepted == old(log[sn].accepted)
      ensures log[sn].delivered == old(log[sn].delivered)
      ensures chip[sn].kind == old(chip[sn].kind)
      ensures IsSet(sockIoMode, sn) ==> old(IsSet(sockIoMode, sn))
      ensures closed ==> ShutDown(sn)
      ensures !closed ==> script == []
      ensures !closed ==> chip[sn].cr != Idle
    {
      hide Inv, Linked, Clean, Drift, Grew, GoodAt, LinkedAt, IsSet, Coherent, Isolated, Apart;
      ApartChain(chip, sn);
      ghost var h := H();
      ThisGood(latched, chip, h, sn);
      LinkedFacts(chip[sn], IsSet(h.sending, sn), h.remained[sn], h.log[sn]);
      var r := Close(sn);
      closed := r.Done?;
    }

    /** `listen` */
    method Listen(sn: nat) returns (r: Ret, ghost when: Status)
      requires sn != SOCKETS && Valid()
      modifies this
      ensures Apart(old(chip), chip, sn)
      ensures Isolated(old(H()), H(), sn)
      ensures sn < SOCKETS ==> Others(sn)
      ensures sn < SOCKETS && r.Done? ==>
                && Valid()
                && (r.code == SOCK_OK || r.code == SOCKERR_SOCKINIT || r.code == SOCKERR_SOCKCLOSED)
                && (r.code == SOCKERR_SOCKINIT ==> chip[sn].sr != Init && H() == old(H()))
                && (r.code != SOCKERR_SOCKINIT ==> old(chip[sn].sr) == Init)
                && (r.code == SOCK_OK ==> chip[sn].sr == Listening && H() == old(H()))
                && (r.code == SOCKERR_SOCKCLOSED ==>
                      StatusDrift(Listening, when) && when != Listening && ShutDown(sn))
      ensures sn < SOCKETS ==> log[sn].accepted == old(log[sn].accepted) && log[sn].delivered == old(log[sn].delivered)
      ensures sn < SOCKETS && r.Running? ==> chip[sn].tx.committed == log[sn].accepted
      ensures sn < SOCKETS ==> chip[sn].kind == old(chip[sn].kind)
      ensures sn < SOCKETS && IsSet(sockIoMode, sn) ==> old(IsSet(sockIoMode, sn))
      ensures sn > SOCKETS ==> r == Done(SOCKERR_SOCKNUM) && Valid() && chip == old(chip)
      ensures r.Running? ==> script == []
      ensures sn < SOCKETS && r.Running? ==> chip[sn].cr != Idle
    {
      hide Inv, Linked, Clean, Drift, Grew, GoodAt, LinkedAt, IsSet, Coherent, Isolated, Apart;
      ApartChain(chip, sn);
      NothingChanged(H(), sn);
      when := Closed;
      if sn > SOCKETS {
        return Done(SOCKERR_SOCKNUM), when;
      }
      ghost var start := chip[sn];
      Poll(sn);
      DriftLater(start, chip[sn]);
      if chip[sn].sr != Init {
        return Done(SOCKERR_SOCKINIT), when;
      }
      var done := PerformStatus(sn, Command.Listen);
      if !done {
        return Running, when;
      }
      ghost var s := chip[sn];
      Poll(sn);
      DriftLater(s, chip[sn]);
      when := chip[sn].sr;
      if chip[sn].sr != Listening {
        var closed := CloseNow(sn);
        return if closed then Done(SOCKERR_SOCKCLOSED) else Running, when;
      }
      r := Done(SOCK_OK);
    }

    /** `disconnect` */
    method Disconnect(sn: nat) returns (r: Ret, ghost start: Status, ghost seen: Irq)
      requires sn != SOCKETS && Valid()
      modifies this
      ensures Apart(old(chip), chip, sn)
      ensures Isolated(old(H()), H(), sn)
      ensures sn < SOCKETS ==> Others(sn)
      ensures sn < SOCKETS && r.Done? ==>
                && Valid()
                && (r.code == SOCKERR_SOCKMODE <==> !IsStream(old(chip[sn].mr)))
                && (r.code == SOCK_OK || r.code == SOCKERR_TIMEOUT ==> chip[sn].sr == Closed)
                && (r.code == SOCK_BUSY ==>
                      && start != Closed && old(IsSet(sockIoMode, sn))
                      && !Sendable(chip[sn].sr) && !PreConnection(chip[sn].sr))
                && (r.code == SOCKERR_TIMEOUT ==> seen.timeout && ShutDown(sn) && !old(IsSet(sockIoMode, sn)))
                && StatusDrift(old(chip[sn].sr), start)
                && (r.code == SOCK_OK ==> start == Closed || !old(IsSet(sockIoMode, sn)))
                && (r.code != SOCKERR_TIMEOUT ==> H() == old(H()))
                && (r.code != SOCKERR_SOCKMODE && start == Closed ==>
                      r.code == SOCK_OK && Drift(old(chip[sn]), chip[sn]))
                && (r.code == SOCK_OK || r.code == SOCK_BUSY || r.code == SOCKERR_SOCKMODE
                    || r.code == SOCKERR_TIMEOUT)
      ensures sn < SOCKETS ==> log[sn].accepted == old(log[sn].accepted) && log[sn].delivered == old(log[sn].delivered)
      ensures sn < SOCKETS && r.Running? ==> chip[sn].tx.committed == log[sn].accepted
      ensures sn < SOCKETS ==> chip[sn].kind == old(chip[sn].kind)
      ensures sn < SOCKETS && IsSet(sockIoMode, sn) ==> old(IsSet(sockIoMode, sn))
      ensures sn < SOCKETS && r.Done? && r.code >= 0 ==> old(chip[sn].rx.arrived) <= chip[sn].rx.arrived
      ensures sn > SOCKETS ==> r == Done(SOCKERR_SOCKNUM) && Valid() && chip == old(chip)
      ensures r.Running? ==> script == []
      ensures sn < SOCKETS && r.Running? && old(IsSet(sockIoMode, sn)) ==> chip[sn].cr != Idle
      ensures sn < SOCKETS && r.Running? && chip[sn].cr == Idle ==> !seen.timeout
    {
      hide Inv, Linked, Clean, Drift, Grew, GoodAt, LinkedAt, IsSet, Coherent, Isolated, Apart;
      ApartChain(chip, sn);
      ghost var h := H();
      NothingChanged(h, sn);
      start, seen := Closed, Irq(false, false, false);
      if sn > SOCKETS {
        return Done(SOCKERR_SOCKNUM), start, seen;
      }
      start := chip[sn].sr;
      if !IsStream(chip[sn].mr) {
        return Done(SOCKERR_SOCKMODE), start, seen;
      }
      ghost var s := chip[sn];
      Poll(sn);
      DriftLater(s, chip[sn]);
      start := chip[sn].sr;
      if chip[sn].sr != Closed {
        var done := PerformStatus(sn, Discon);
        if !done {
          return Running, start, seen;
        }
        if IsSet(sockIoMode, sn) {
          return Done(SOCK_BUSY), start, seen;
        }
        Poll(sn);
        while chip[sn].sr != Closed
          invariant Apart(old(chip), chip, sn)
          invariant Valid() && H() == h && chip[sn].kind == old(chip[sn].kind)
          invariant old(chip[sn].rx.arrived) <= chip[sn].rx.arrived
          decreases |script|
        {
          Poll(sn);
          seen := chip[sn].irq;
          if chip[sn].irq.timeout {
            var closed := CloseNow(sn);
            return if closed then Done(SOCKERR_TIMEOUT) else Running, start, seen;
          }
          if script == [] {
            CommittedIsAccepted(latched, chip, H(), sn);
            return Running, start, seen;
          }
          Poll(sn);
        }
      }
      r := Done(SOCK_OK);
    }

    /** The wait of `connect`: until the connection stands or has failed. */
    method AwaitEstablished(sn: nat) returns (r: Ret, ghost seen: Irq)
      requires sn < SOCKETS && Valid()
      modifies this`chip, this`script
      ensures Apart(old(chip), chip, sn)
      ensures Others(sn) && (r.Done? ==> Valid())
      ensures chip[sn].ends == old(chip[sn].ends)
      ensures chip[sn].target == old(chip[sn].target)
      ensures r == Done(SOCK_OK) ==> chip[sn].sr == Established && old(chip[sn].sr) != Closed
      ensures r.Done? ==>
                || r.code == SOCK_OK
                || (r.code == SOCKERR_TIMEOUT && seen.timeout && !chip[sn].irq.timeout)
                || (r.code == SOCKERR_SOCKCLOSED && chip[sn].sr == Closed)
      ensures r.Running? ==> chip[sn].tx.committed == log[sn].accepted
      ensures chip[sn].kind == old(chip[sn].kind)
      ensures r.Running? ==> script == [] && !seen.timeout && chip[sn].sr != Closed
    {
      hide Inv, Linked, Clean, Grew, GoodAt, LinkedAt, IsSet, Coherent, TxDrift, RxDrift, Apart,
        PreConnection, Reconnected;
      ApartChain(chip, sn);
      ghost var h := H();
      seen := Irq(false, false, false);
      Poll(sn);
      while chip[sn].sr != Established
        invariant Apart(old(chip), chip, sn)
        invariant Valid() && chip[sn].ends == old(chip[sn].ends) && chip[sn].target == old(chip[sn].target)
        invariant chip[sn].kind == old(chip[sn].kind)
        invariant old(chip[sn].sr) == Closed ==> chip[sn].sr == Closed
        decreases |script|
      {
        Poll(sn);
        seen := chip[sn].irq;
        if chip[sn].irq.timeout {
          Poll(sn);
          ClearIrq(sn, chip[sn].irq.(timeout := false));
          return Done(SOCKERR_TIMEOUT), seen;
        }
        Poll(sn);
        if chip[sn].sr == Closed {
          return Done(SOCKERR_SOCKCLOSED), seen;
        }
        if script == [] {
          CommittedIsAccepted(latched, chip, h, sn);
          ThisGood(latched, chip, h, sn);
          return Running, seen;
        }
        Poll(sn);
      }
      r := Done(SOCK_OK);
    }

    /** Writes the destination registers of a connection and picks the command. */
    method SetTarget(sn: nat, addr: seq<byte>, port: word, addrlen: byte) returns (code: int, command: Command)
      requires sn < SOCKETS && Valid() && |addr| >= 4 && (addrlen == 16 ==> |addr| == 16)
      modifies this`chip, this`script
      ensures Apart(old(chip), chip, sn)
      ensures Valid() && chip[sn].mr == old(chip[sn].mr)
      ensures StatusDrift(old(chip[sn].sr), chip[sn].sr)
      ensures code == if (if addrlen == 16 then chip[sn].mr / 8 % 2 == 0 else chip[sn].mr == TCP6)
                      then SOCKERR_SOCKMODE else 0
      ensures command == Connect || command == Connect6
      ensures code == 0 ==>
                Destination(chip[sn].ends, command) == Peer(if addrlen == 16 then addr else addr[..4], port)
      ensures chip[sn].kind == old(chip[sn].kind)
    {
      hide Inv, Linked, Clean, GoodAt, LinkedAt, Apart, OthersGood, TxDrift, RxDrift, Reconnected;
      ApartChain(chip, sn);
      Poll(sn);
      ChipLength(latched, chip, H(), SOCKETS);
      WriteEnds(sn, chip[sn].ends.(dport := port));
      code, command := 0, Connect;
      if addrlen == 16 {
        if chip[sn].mr / 8 % 2 == 0 {
          return SOCKERR_SOCKMODE, command;
        }
        Poll(sn);
        ChipLength(latched, chip, H(), SOCKETS);
        WriteEnds(sn, chip[sn].ends.(dip6 := addr));
        command := Connect6;
      } else {
        if chip[sn].mr == TCP6 {
          return SOCKERR_SOCKMODE, command;
        }
        Poll(sn);
        ChipLength(latched, chip, H(), SOCKETS);
        WriteEnds(sn, chip[sn].ends.(dip4 := addr[..4]));
      }
    }

    /** Writes the destination and gives the command that looks at it. */
    method StartConnect(sn: nat, addr: seq<byte>, port: word, addrlen: byte) returns (code: int, done: bool)
      requires sn < SOCKETS && Valid() && |addr| >= 4 && (addrlen == 16 ==> |addr| == 16)
      requires chip[sn].sr == Init
      modifies this`chip, this`script
      ensures Apart(old(chip), chip, sn)
      ensures Others(sn) && |chip| == |log| == SOCKETS
      ensures code == if (if addrlen == 16 then old(chip[sn].mr) / 8 % 2 == 0 else old(chip[sn].mr) == TCP6)
                      then SOCKERR_SOCKMODE else 0
      ensures code != 0 || done ==> Valid()
      ensures code == 0 && done ==>
                && chip[sn].sr != Init
                && (|| chip[sn].sr == Closed
                    || chip[sn].target == Peer(if addrlen == 16 then addr else addr[..4], port))
      ensures chip[sn].tx.committed == log[sn].accepted
      ensures chip[sn].kind == old(chip[sn].kind)
      ensures code == 0 && !done ==> script == []
      ensures code == 0 && !done ==> chip[sn].cr != Idle
    {
      hide Inv, Linked, Clean, Drift, Grew, GoodAt, LinkedAt, IsSet, OthersGood, Apart;
      ApartChain(chip, sn);
      var command;
      code, command := SetTarget(sn, addr, port, addrlen);
      CommittedIsAccepted(latched, chip, H(), sn);
      ThisGood(latched, chip, H(), sn);
      done := false;
      if code == 0 {
        done := PerformStatus(sn, command);
        ChipLength(latched, chip, H(), sn);
      }
    }

    /** `connect`.  The destination check looks at the first four bytes in every build, so
        an IPv6 address that begins with four zero bytes is refused. */
    method ConnectTo(sn: nat, addr: seq<byte>, port: word, addrlen: byte) returns (r: Ret, ghost seen: Irq)
      requires sn != SOCKETS && Valid()
      requires |addr| >= 4 && (addrlen == 16 ==> |addr| == 16)
      modifies this
      ensures Apart(old(chip), chip, sn)
      ensures H() == old(H())
      ensures sn < SOCKETS ==> Others(sn)
      ensures sn < SOCKETS && r.Done? ==> Valid()
      ensures sn < SOCKETS && r == Done(SOCK_OK) ==>
                && chip[sn].sr == Established
                && chip[sn].target == Peer(if addrlen == 16 then addr else addr[..4], port)
      ensures sn < SOCKETS && r == Done(SOCK_BUSY) ==>
                && IsSet(sockIoMode, sn) && chip[sn].sr != Init
                && (|| chip[sn].sr == Closed
                    || chip[sn].target == Peer(if addrlen == 16 then addr else addr[..4], port))
      ensures sn < SOCKETS && r.Done? && r.code != SOCKERR_SOCKINIT ==>
                var refusal := ConnectError(old(chip[sn].mr), addr, port, addrlen);
                && (IsStream(old(chip[sn].mr)) ==> old(chip[sn].sr) == Init)
                && if refusal != 0 then r.code == refusal
                   else if IsSet(sockIoMode, sn) then r.code == SOCK_BUSY
                   else
                     || r.code == SOCK_OK
                     || (r.code == SOCKERR_TIMEOUT && seen.timeout && !chip[sn].irq.timeout)
                     || (r.code == SOCKERR_SOCKCLOSED && chip[sn].sr == Closed)
      ensures sn < SOCKETS && r == Done(SOCKERR_SOCKINIT) ==> IsStream(old(chip[sn].mr)) && chip[sn].sr != Init
      ensures sn < SOCKETS && r.Done? &&
              (r.code == SOCKERR_SOCKINIT || r.code == SOCKERR_IPINVALID || r.code == SOCKERR_PORTZERO) ==>
                chip[sn].ends == old(chip[sn].ends)
      ensures sn < SOCKETS && r.Running? ==> chip[sn].tx.committed == log[sn].accepted
      ensures sn > SOCKETS ==> r == Done(SOCKERR_SOCKNUM) && Valid() && chip == old(chip)
      ensures sn < SOCKETS ==> chip[sn].kind == old(chip[sn].kind)
      ensures r.Running? ==> script == []
      ensures sn < SOCKETS && r.Running? && IsSet(sockIoMode, sn) ==> chip[sn].cr != Idle
      ensures sn < SOCKETS && r.Running? && chip[sn].cr == Idle ==> !seen.timeout && chip[sn].sr != Closed
    {
      hide IsStream, StatusDrift, Inv, Linked, Clean, Drift, Grew, GoodAt, LinkedAt, IsSet, Coherent, Apart;
      ApartChain(chip, sn);
      seen := Irq(false, false, false);
      if sn > SOCKETS {
        return Done(SOCKERR_SOCKNUM), seen;
      }
      ghost var h := H();
      if !IsStream(chip[sn].mr) {
        return Done(SOCKERR_SOCKMODE), seen;
      }
      ghost var s := chip[sn];
      Poll(sn);
      DriftFacts(s, chip[sn]);
      DriftLater(s, chip[sn]);
      if chip[sn].sr != Init {
        return Done(SOCKERR_SOCKINIT), seen;
      }
      var a: int, b: int, c: int, d: int := addr[0], addr[1], addr[2], addr[3];
      var taddr := ((a * 256 + b) * 256 + c) * 256 + d;
      if taddr == 0xFFFF_FFFF || taddr == 0 {
        return Done(SOCKERR_IPINVALID), seen;
      }
      if port == 0 {
        return Done(SOCKERR_PORTZERO), seen;
      }
      var code, done := StartConnect(sn, addr, port, addrlen);
      if code != 0 {
        return Done(code), seen;
      }
      if !done {
        return Running, seen;
      }
      if IsSet(sockIoMode, sn) {
        return Done(SOCK_BUSY), seen;
      }
      r, seen := AwaitEstablished(sn);
    }

    /** SEND_KEEP, waited for until it is done or TIMEOUT is up. */
    method KeepAlive(sn: nat) returns (r: Ret, ghost seen: Irq)
      requires sn < SOCKETS && Valid()
      modifies this`chip, this`script
      ensures Apart(old(chip), chip, sn)
      ensures Others(sn) && |chip| == |log| == |sockRemainedSize| == SOCKETS
      ensures r == Done(SOCK_OK) || r == Done(SOCKERR_TIMEOUT) || r == Running
      ensures r == Done(SOCK_OK) ==> Valid() && chip[sn].keeps == old(chip[sn].keeps) + 1
      ensures r == Done(SOCKERR_TIMEOUT) ==>
                && seen.timeout && !chip[sn].irq.timeout
                && Calm(sn) && (chip[sn].cr == Idle || chip[sn].cr == SendKeep)
                && (Valid() <==> chip[sn].cr == Idle)
                && chip[sn].keeps == old(chip[sn].keeps) + if chip[sn].cr == Idle then 1 else 0
      ensures chip[sn].kind == old(chip[sn].kind)
      ensures r.Running? ==> script == [] && !seen.timeout
    {
      hide Inv, Linked, Clean, Drift, Grew, GoodAt, LinkedAt, IsSet, CalmAt, OthersGood, Apart;
      ApartChain(chip, sn);
      ThisGood(latched, chip, H(), sn);
      ghost var h, s := H(), chip[sn];
      seen := s.irq;
      ghost var sending, remained, l := IsSet(h.sending, sn), h.remained[sn], h.log[sn];
      LinkedFacts(s, sending, remained, l);
      StatusReady(s, SendKeep);
      Tick(sn);
      ChipLength(latched, chip, h, sn);
      CommandStays(s, SendKeep, chip[sn]);
      ghost var s1 := s.(cr := SendKeep);
      Write(sn, chip[sn].(cr := SendKeep));
      ghost var s2 := chip[sn];
      DriftGrew(s1, s2);
      Tick(sn);
      ChipLength(latched, chip, h, sn);
      GrewTransitive(s1, s2, chip[sn]);
      while chip[sn].cr != Idle
        invariant Apart(old(chip), chip, sn)
        invariant Others(sn) && |chip| == SOCKETS && Grew(s1, chip[sn])
        decreases |script|
      {
        s2 := chip[sn];
        Tick(sn);
        ChipLength(latched, chip, h, sn);
        ghost var s3 := chip[sn];
        GrewTransitive(s1, s2, s3);
        seen := chip[sn].irq;
        if chip[sn].irq.timeout {
          Tick(sn);
          ChipLength(latched, chip, h, sn);
          GrewTransitive(s1, s3, chip[sn]);
          KeepAliveStops(latched, s, sending, remained, l, chip[sn]);
          Write(sn, chip[sn].(irq := chip[sn].irq.(timeout := false)));
          CalmWhen(latched, chip, h, sn);
          CalmIsValid(latched, chip, h, sn);
          return Done(SOCKERR_TIMEOUT), seen;
        }
        if script == [] {
          GrewKeepsKind(s1, chip[sn]);
          return Running, seen;
        }
        Tick(sn);
        ChipLength(latched, chip, h, sn);
        GrewTransitive(s1, s3, chip[sn]);
      }
      ChipLength(latched, chip, h, sn);
      GrewKeepsKind(s1, chip[sn]);
      StatusOutcome(s, SendKeep, sending, remained, l, chip[sn]);
      StatusEffect(s, SendKeep, chip[sn]);
      AllGood(latched, chip, h, sn);
      r := Done(SOCK_OK);
    }

    /** `setsockopt` with SO_KEEPALIVESEND; `kpalvtr` is the keep-alive timer register.  The
        TIMEOUT return is the one way out of the API that may leave a command in Sn_CR: it does
        exactly when the keep-alive packet has not been asked for yet. */
    method SendKeepAlive(sn: nat, kpalvtr: byte) returns (r: Ret, ghost seen: Irq)
      requires sn != SOCKETS && Valid()
      modifies this`chip, this`script
      ensures Apart(old(chip), chip, sn)
      ensures sn < SOCKETS ==> Others(sn)
      ensures sn < SOCKETS && r.Done? && r.code != SOCKERR_TIMEOUT ==> Valid()
      ensures sn < SOCKETS && r == Done(SOCK_OK) ==> chip[sn].keeps == old(chip[sn].keeps) + 1
      ensures sn < SOCKETS && r == Done(SOCKERR_TIMEOUT) ==>
                && seen.timeout && !chip[sn].irq.timeout
                && Calm(sn) && (chip[sn].cr == Idle || chip[sn].cr == SendKeep)
                && (Valid() <==> chip[sn].cr == Idle)
                && chip[sn].keeps == old(chip[sn].keeps) + if chip[sn].cr == Idle then 1 else 0
      ensures sn < SOCKETS && r.Done? ==>
                && (r.code == SOCKERR_SOCKMODE <==> !IsStream(old(chip[sn].mr)))
                && (r.code == SOCKERR_SOCKOPT <==> IsStream(old(chip[sn].mr)) && kpalvtr != 0)
      ensures sn > SOCKETS ==> r == Done(SOCKERR_SOCKNUM) && Valid() && chip == old(chip)
      ensures sn < SOCKETS ==> chip[sn].kind == old(chip[sn].kind)
      ensures r.Running? ==> script == [] && !seen.timeout
    {
      hide Inv, Linked, Clean, Drift, Grew, GoodAt, LinkedAt, IsSet, CalmAt, Apart;
      ApartChain(chip, sn);
      seen := Irq(false, false, false);
      if sn > SOCKETS {
        return Done(SOCKERR_SOCKNUM), seen;
      }
      if !IsStream(chip[sn].mr) {
        return Done(SOCKERR_SOCKMODE), seen;
      }
      if kpalvtr != 0 {
        return Done(SOCKERR_SOCKOPT), seen;
      }
      r, seen := KeepAlive(sn);
    }

    /** Takes the next `n` bytes of the frame of packet `k`, of which `offset` bytes have been
        read. */
    method TakeFrame(sn: nat, n: nat, ghost k: nat, ghost offset: nat)
      returns (done: bool, data: seq<byte>)
      requires sn < SOCKETS && Others(sn) && Coherent(chip[sn], log[sn])
      requires AtFrame(chip[sn], k, offset)
      requires offset + n <= |Frame(chip[sn].kind, chip[sn].packets[k])|
      modifies this`chip, this`script, this`log
      ensures Apart(old(chip), chip, sn)
      ensures Others(sn) && |log| == SOCKETS && Isolated(old(H()), H(), sn)
      ensures data == old(Frame(chip[sn].kind, chip[sn].packets[k]))[offset..offset + n]
      ensures log == old(log)[sn := old(log)[sn].(delivered := log[sn].delivered)]
      ensures done ==>
                && Coherent(chip[sn], log[sn]) && AtFrame(chip[sn], k, offset + n)
                && chip[sn].kind == old(chip[sn].kind) && chip[sn].sr == old(chip[sn].sr)
                && chip[sn].packets[k] == old(chip[sn].packets[k])
      ensures !done ==> chip[sn].tx.committed == log[sn].accepted
      ensures done && old(Settled(chip[sn])) ==> Settled(chip[sn])
      ensures chip[sn].kind == old(chip[sn].kind)
      ensures old(chip[sn].packets) <= chip[sn].packets
      ensures !done ==> script == []
      ensures !done ==> chip[sn].cr != Idle
    {
      hide FrameInv, Inv, Linked, Clean, Drift, Grew, GoodAt, LinkedAt, IsSet, Coherent, AtFrame, Rsr, Frame,
        WellFormed, Isolated, Released, Apart, Settled;
      ApartChain(chip, sn);
      ghost var s, h := chip[sn], H();
      InvUntouched(s);
      CoherentFrames(s, log[sn]);
      AtFrameFacts(s, k, offset);
      FrameBytes(s, k, offset, n);
      NothingChanged(h, sn);
      done, data := Take(sn, n);
      if done {
        ReleasedCoherent(s, log[sn], n, chip[sn]);
        CoherentFrames(chip[sn], log[sn].(delivered := log[sn].delivered + data));
        ReleasedStatus(s, n, chip[sn]);
        SettledReleased(s, n, chip[sn]);
        AtFrameMoves(s, k, offset, n, chip[sn]);
        log := log[sn := log[sn].(delivered := log[sn].delivered + data)];
        EntryUpdates(h, H(), sn);
        OthersKept(latched, chip, h, sn, chip[sn], H());
        assert chip[sn := chip[sn]] == chip;
      }
    }

    /** The wait of `recvfrom`: until a packet is pending. */
    method AwaitPacket(sn: nat) returns (g: Gate)
      requires sn < SOCKETS && Valid() && IsDatagram(chip[sn].kind)
      modifies this`chip, this`script
      ensures Apart(old(chip), chip, sn)
      ensures Valid() && Drift(old(chip[sn]), chip[sn])
      ensures chip[sn].kind == old(chip[sn].kind)
      ensures g.Pass? ==> chip[sn].sr != Closed && Rsr(chip[sn].rx) > 0
      ensures g.WouldBlock? || g.RunEnds? ==>
                && (g.WouldBlock? <==> IsSet(sockIoMode, sn)) && chip[sn].sr != Closed
                && (old(Rsr(chip[sn].rx)) == 0 || Crossed(old(Rsr(chip[sn].rx)), Rsr(chip[sn].rx)))
      ensures g.Broken? ==> chip[sn].sr == Closed
      ensures g.RunEnds? ==> script == []
      ensures chip[sn].sr == old(chip[sn].sr)
    {
      hide Inv, Linked, Clean, Drift, Grew, GoodAt, LinkedAt, IsSet, Rsr, Apart, Tells, Crossed;
      ApartChain(chip, sn);
      ghost var h, s := H(), chip[sn];
      StillGrew(s);
      ThisGood(latched, chip, h, sn);
      SizesNat(s);
      DatagramNotPre(s);
      while true
        invariant Apart(old(chip), chip, sn)
        invariant Valid() && Drift(s, chip[sn]) && chip[sn].kind == s.kind
        invariant chip[sn].sr == s.sr && Inv(chip[sn]) && Rsr(s.rx) <= Rsr(chip[sn].rx)
        decreases |script|
      {
        ghost var s1 := chip[sn];
        ThisGood(latched, chip, h, sn);
        IsGood(latched, chip, h, sn);
        LinkedFacts(s1, IsSet(h.sending, sn), h.remained[sn], h.log[sn]);
        ghost var when;
        var packLen;
        packLen, when := ReadRxRsr(sn);
        ghost var s2 := chip[sn];
        DriftFacts(s1, s2);
        RsrGrows(s1, s2);
        DriftTransitive(s, s1, s2);
        Tick(sn);
        ghost var s3 := chip[sn];
        DriftFacts(s2, s3);
        DriftTransitive(s, s2, s3);
        DatagramStays(s, s3);
        RsrGrows(s2, s3);
        WhatGood(latched, chip, h, sn);
        AllGood(latched, chip, h, sn);
        if chip[sn].sr == Closed {
          return Broken(false);
        }
        if packLen != 0 {
          return Pass;
        }
        BelowMeans(Rsr(s.rx), Rsr(s1.rx), packLen, Rsr(s2.rx), Rsr(chip[sn].rx), 1);
        if IsSet(sockIoMode, sn) {
          return WouldBlock;
        }
        if script == [] {
          return RunEnds;
        }
      }
    }

    /** The header of packet `k` has been read: its payload comes next. */
    ghost predicate HeadDone(sn: nat, k: nat, mode: byte, p: Packet)
      requires sn < SOCKETS && |chip| == |log| == |sockRemainedSize| == |sockPackInfo| == SOCKETS
      reads this
    {
      && Coherent(chip[sn], log[sn]) && WellFormed(mode, p)
      && chip[sn].kind == mode && AtFrame(chip[sn], k, |Frame(mode, p)| - |p.payload|)
      && chip[sn].packets[k] == p
      && sockRemainedSize[sn] == |p.payload|
      && sockPackInfo[sn] == With(InfoByte(mode, p), PACK_FIRST)
    }

    /** Writes the packet bookkeeping of one socket. */
    method SetPacket(sn: nat, remained: word, info: byte)
      requires sn < SOCKETS && Others(sn)
      modifies this`sockRemainedSize, this`sockPackInfo
      ensures Others(sn) && Isolated(old(H()), H(), sn)
      ensures sockRemainedSize == old(sockRemainedSize)[sn := remained]
      ensures sockPackInfo == old(sockPackInfo)[sn := info]
    {
      hide Inv, GoodAt, Isolated;
      ghost var h := H();
      sockRemainedSize := sockRemainedSize[sn := remained];
      sockPackInfo := sockPackInfo[sn := info];
      EntryUpdates(h, H(), sn);
      OthersKept(latched, chip, h, sn, chip[sn], H());
      assert chip[sn := chip[sn]] == chip;
    }

    /** Reads the two bytes of packet information. */
    method ReadInfo(sn: nat, ghost k: nat) returns (done: bool, length: word, info: byte)
      requires sn < SOCKETS && Others(sn) && Coherent(chip[sn], log[sn])
      requires AtFrame(chip[sn], k, 0)
      modifies this`chip, this`script, this`log
      ensures Apart(old(chip), chip, sn)
      ensures Others(sn) && |log| == SOCKETS && Isolated(old(H()), H(), sn)
      ensures log == old(log)[sn := old(log)[sn].(delivered := log[sn].delivered)]
      ensures done ==>
                var p, mode := old(chip[sn].packets[k]), old(chip[sn].kind);
                && Coherent(chip[sn], log[sn]) && AtFrame(chip[sn], k, 2) && chip[sn].packets[k] == p
                && chip[sn].kind == chip[sn].mr == mode && chip[sn].sr == old(chip[sn].sr)
                && FrameInv(chip[sn])
                && length == LengthField(mode, p) && info == p.info * 8
                && chip[sn].tx.committed == log[sn].accepted
      ensures !done ==> chip[sn].tx.committed == log[sn].accepted
      ensures done && old(Settled(chip[sn])) ==> Settled(chip[sn])
      ensures chip[sn].kind == old(chip[sn].kind)
      ensures old(chip[sn].packets) <= chip[sn].packets
      ensures !done ==> script == []
      ensures !done ==> chip[sn].cr != Idle
    {
      hide FrameInv, Inv, Linked, Clean, Drift, Grew, GoodAt, LinkedAt, IsSet, Coherent, AtFrame, Rsr, Frame,
        OthersGood, WellFormed, Isolated, Flat, Apart, Settled;
      ApartChain(chip, sn);
      ChipLength(latched, chip, H(), sn);
      AtFrameFacts(chip[sn], k, 0);
      HeaderBytes(chip[sn].kind, chip[sn].packets[k]);
      AddressLength(chip[sn].kind, chip[sn].packets[k]);
      length, info := 0, 0;
      var head;
      done, head := TakeFrame(sn, 2, k, 0);
      ChipLength(latched, chip, H(), sn);
      if done {
        CoherentFrames(chip[sn], log[sn]);
        length := Pair(head[0] % 8, head[1]);
        info := head[0] - head[0] % 8;
      }
    }

    /** Reads the address behind the packet information, four or sixteen bytes of it. */
    method ReadIp(sn: nat, addrGiven: bool, info: byte, ghost k: nat, ghost p: Packet)
      returns (e: HeaderEnd, addr: seq<byte>)
      requires sn < SOCKETS && Others(sn) && Coherent(chip[sn], log[sn]) && chip[sn].sr != Closed
      requires AtFrame(chip[sn], k, 2) && chip[sn].packets[k] == p && k == |log[sn].done|
      requires WellFormed(chip[sn].kind, p) && chip[sn].kind % 16 != MACRAW && sockRemainedSize[sn] == 0
      requires info == p.info * 8
      modifies this`chip, this`script, this`log
      ensures Apart(old(chip), chip, sn)
      ensures Others(sn) && |log| == SOCKETS && Isolated(old(H()), H(), sn)
      ensures log == old(log)[sn := old(log)[sn].(delivered := log[sn].delivered)]
      ensures chip[sn].tx.committed == log[sn].accepted
      ensures !e.HeaderRunEnds? ==>
                && Coherent(chip[sn], log[sn]) && chip[sn].sr == old(chip[sn].sr)
                && chip[sn].kind == old(chip[sn].kind)
      ensures e.HeaderRead? ==>
                && addrGiven && AtFrame(chip[sn], k, 2 + |p.addr|) && chip[sn].packets[k] == p
                && addr == p.addr
      ensures e.ArgumentMissing? ==> !addrGiven && !LinkedAt(chip, H(), sn)
      ensures !e.LengthFatal?
      ensures !e.HeaderRunEnds? && old(Settled(chip[sn])) ==> Settled(chip[sn])
      ensures chip[sn].kind == old(chip[sn].kind)
      ensures old(chip[sn].packets) <= chip[sn].packets
      ensures e.HeaderRunEnds? ==> script == []
      ensures e.HeaderRunEnds? ==> chip[sn].cr != Idle
    {
      hide FrameInv, Inv, Linked, Clean, Drift, Grew, GoodAt, LinkedAt, IsSet, Coherent, AtFrame, Rsr, Frame,
        OthersGood, WellFormed, Isolated, Flat, PortOk, Apart, Settled;
      ApartChain(chip, sn);
      ChipLength(latched, chip, H(), sn);
      ghost var mode := chip[sn].kind;
      FrameParts(mode, p);
      AddressLength(mode, p);
      AtFrameFacts(chip[sn], k, 2);
      CoherentFrames(chip[sn], log[sn]);
      NothingChanged(H(), sn);
      addr := [];
      if !addrGiven {
        NotLinked(chip[sn], IsSet(sockIsSending, sn), k, 2, 0, log[sn]);
        WhatGood(latched, chip, H(), sn);
        return ArgumentMissing, addr;
      }
      var addrlen := if info / 128 % 2 == 1 then 16 else 4;
      var done;
      done, addr := TakeFrame(sn, addrlen, k, 2);
      if !done {
        return HeaderRunEnds, addr;
      }
      ChipLength(latched, chip, H(), sn);
      CoherentFrames(chip[sn], log[sn]);
      e := HeaderRead;
    }

    /** Reads the two bytes of packet information and the address behind them. */
    method ReadAddress(sn: nat, addrGiven: bool, ghost k: nat)
      returns (e: HeaderEnd, addr: seq<byte>, packLen: word, info: byte)
      requires sn < SOCKETS && Others(sn) && Coherent(chip[sn], log[sn]) && chip[sn].sr != Closed
      requires AtFrame(chip[sn], k, 0) && sockRemainedSize[sn] == 0 && k == |log[sn].done|
      modifies this
      ensures Apart(old(chip), chip, sn)
      ensures Others(sn) && Isolated(old(H()), H(), sn)
      ensures log[sn].accepted == old(log[sn].accepted)
      ensures chip[sn].tx.committed == log[sn].accepted
      ensures e.HeaderRead? || e.ArgumentMissing? ==>
                && H() == old(H()).(log := old(log)[sn := old(log[sn]).(delivered := log[sn].delivered)])
                && Coherent(chip[sn], log[sn]) && chip[sn].sr == old(chip[sn].sr)
                && chip[sn].kind == old(chip[sn].kind)
      ensures e.HeaderRead? ==>
                var p, mode := old(chip[sn].packets[k]), old(chip[sn].kind);
                && AtFrame(chip[sn], k, 2 + |p.addr|) && chip[sn].packets[k] == p
                && addr == p.addr && packLen == |p.payload|
                && info == InfoByte(mode, p)
                && (addrGiven || mode % 16 == MACRAW)
      ensures e.ArgumentMissing? ==>
                old(chip[sn].kind) % 16 != MACRAW && !addrGiven && !LinkedAt(chip, H(), sn)
      ensures e.LengthFatal? ==>
                && Valid() && ShutDown(sn) && log[sn].done == old(log[sn].done) && Oversize(chip[sn], k)
      ensures !e.HeaderRunEnds? && old(Settled(chip[sn])) ==> Settled(chip[sn])
      ensures chip[sn].kind == old(chip[sn].kind)
      ensures old(chip[sn].packets) <= chip[sn].packets
      ensures e.HeaderRunEnds? ==> script == []
      ensures IsSet(sockIoMode, sn) ==> old(IsSet(sockIoMode, sn))
      ensures e.HeaderRunEnds? ==> chip[sn].cr != Idle
      ensures e.HeaderRead? ==> !Oversize(chip[sn], k)
    {
      hide IsDatagram, HasPort, DatagramStatus, PreConnection, FrameInv, Inv, Linked, Clean, Drift, Grew,
        GoodAt, LinkedAt, IsSet, Coherent, AtFrame, Rsr, Frame, OthersGood, WellFormed, Isolated, Flat,
        PortOk, Wrap, LengthField, InfoByte, Apart, Settled;
      ApartChain(chip, sn);
      ChipLength(latched, chip, H(), sn);
      ghost var h, mode := H(), chip[sn].kind;
      AtFrameFacts(chip[sn], k, 0);
      ghost var p := chip[sn].packets[k];
      AddressLength(mode, p);
      PayloadLength(mode, p);
      InfoIs(mode, p);
      addr := [];
      var done;
      done, packLen, info := ReadInfo(sn, k);
      if !done {
        return HeaderRunEnds, addr, packLen, info;
      }
      ghost var h1 := H();
      ChipLength(latched, chip, h1, sn);
      if chip[sn].mr % 16 == MACRAW {
        info := 0;
        packLen := Wrap(packLen - 2);
        if packLen > 1514 {
          var r := Close(sn);
          IsolatedTransitive(h, h1, H(), sn);
          return if r.Done? then LengthFatal else HeaderRunEnds, addr, packLen, info;
        }
      } else {
        e, addr := ReadIp(sn, addrGiven, info, k, p);
        IsolatedTransitive(h, h1, H(), sn);
        ChipLength(latched, chip, H(), sn);
        if !e.HeaderRead? {
          return;
        }
      }
      e := HeaderRead;
    }

    /** Reads the port, where the protocol has one, behind the address of packet `k`. */
    method ReadPort(sn: nat, portGiven: bool, ghost k: nat, ghost p: Packet) returns (e: HeaderEnd, port: word)
      requires sn < SOCKETS && Others(sn) && Coherent(chip[sn], log[sn]) && chip[sn].sr != Closed
      requires AtFrame(chip[sn], k, 2 + |p.addr|) && chip[sn].packets[k] == p && k == |log[sn].done|
      requires WellFormed(chip[sn].kind, p) && sockRemainedSize[sn] == |p.payload|
      modifies this`chip, this`script, this`log
      ensures Apart(old(chip), chip, sn)
      ensures Others(sn) && |log| == SOCKETS && Isolated(old(H()), H(), sn)
      ensures log == old(log)[sn := old(log)[sn].(delivered := log[sn].delivered)]
      ensures chip[sn].tx.committed == log[sn].accepted
      ensures !e.HeaderRunEnds? ==> Coherent(chip[sn], log[sn]) && chip[sn].sr == old(chip[sn].sr)
      ensures e.HeaderRead? ==>
                var mode := old(chip[sn].kind);
                && (portGiven || !HasPort(mode))
                && chip[sn].kind == mode && AtFrame(chip[sn], k, |Frame(mode, p)| - |p.payload|)
                && chip[sn].packets[k] == p
                && port == (if HasPort(mode) then p.port else 0)
      ensures e.ArgumentMissing? ==>
                !portGiven && HasPort(old(chip[sn].kind)) && !LinkedAt(chip, H(), sn)
      ensures !e.LengthFatal?
      ensures !e.HeaderRunEnds? && old(Settled(chip[sn])) ==> Settled(chip[sn])
      ensures chip[sn].kind == old(chip[sn].kind)
      ensures old(chip[sn].packets) <= chip[sn].packets
      ensures e.HeaderRunEnds? ==> script == []
      ensures e.HeaderRunEnds? ==> chip[sn].cr != Idle
    {
      hide FrameInv, Inv, Linked, Clean, Drift, Grew, GoodAt, LinkedAt, IsSet, Coherent, AtFrame, Rsr, Frame,
        OthersGood, WellFormed, Isolated, Flat, PortOk, Apart, Settled;
      ApartChain(chip, sn);
      ChipLength(latched, chip, H(), sn);
      FrameParts(chip[sn].kind, p);
      AtFrameFacts(chip[sn], k, 2 + |p.addr|);
      CoherentFrames(chip[sn], log[sn]);
      NothingChanged(H(), sn);
      port := 0;
      if HasPort(chip[sn].mr) {
        if !portGiven {
          NotLinked(chip[sn], IsSet(sockIsSending, sn), k, 2 + |p.addr|, sockRemainedSize[sn], log[sn]);
          WhatGood(latched, chip, H(), sn);
          return ArgumentMissing, port;
        }
        var done, head := TakeFrame(sn, 2, k, 2 + |p.addr|);
        if !done {
          return HeaderRunEnds, port;
        }
        port := Pair(head[0], head[1]);
        ChipLength(latched, chip, H(), sn);
        CoherentFrames(chip[sn], log[sn]);
      }
      e := HeaderRead;
    }

    /** The first part of PACKET INFO, and the bookkeeping that starts the packet. */
    method StartPacket(sn: nat, addrGiven: bool, ghost k: nat) returns (e: HeaderEnd, addr: seq<byte>)
      requires sn < SOCKETS && Others(sn) && Coherent(chip[sn], log[sn]) && chip[sn].sr != Closed
      requires AtFrame(chip[sn], k, 0) && sockRemainedSize[sn] == 0 && k == |log[sn].done|
      modifies this
      ensures Apart(old(chip), chip, sn)
      ensures Others(sn) && Isolated(old(H()), H(), sn)
      ensures log[sn].accepted == old(log[sn].accepted)
      ensures chip[sn].tx.committed == log[sn].accepted
      ensures e.HeaderRead? || e.ArgumentMissing? ==>
                && chip[sn].sr == old(chip[sn].sr) && sockIsSending == old(sockIsSending)
                && log[sn] == old(log[sn]).(delivered := log[sn].delivered)
                && chip[sn].kind == old(chip[sn].kind) && Coherent(chip[sn], log[sn])
      ensures e.HeaderRead? ==>
                var p, mode := old(chip[sn].packets[k]), old(chip[sn].kind);
                && AtFrame(chip[sn], k, 2 + |p.addr|) && chip[sn].packets[k] == p
                && addr == p.addr
                && sockRemainedSize[sn] == |p.payload|
                && sockPackInfo[sn] == WithFlag(InfoByte(mode, p), PACK_FIRST)
                && (addrGiven || mode % 16 == MACRAW)
      ensures e.ArgumentMissing? ==>
                old(chip[sn].kind) % 16 != MACRAW && !addrGiven && !LinkedAt(chip, H(), sn)
      ensures e.LengthFatal? ==>
                && Valid() && ShutDown(sn) && log[sn].done == old(log[sn].done) && Oversize(chip[sn], k)
      ensures !e.HeaderRunEnds? && old(Settled(chip[sn])) ==> Settled(chip[sn])
      ensures chip[sn].kind == old(chip[sn].kind)
      ensures old(chip[sn].packets) <= chip[sn].packets
      ensures e.HeaderRunEnds? ==> script == []
      ensures IsSet(sockIoMode, sn) ==> old(IsSet(sockIoMode, sn))
      ensures e.HeaderRunEnds? ==> chip[sn].cr != Idle
      ensures e.HeaderRead? ==> !Oversize(chip[sn], k)
    {
      hide FrameInv, Inv, Linked, Clean, Drift, Grew, GoodAt, LinkedAt, IsSet, Coherent, AtFrame, Rsr, Frame,
        OthersGood, WellFormed, Isolated, Flat, With, PortOk, InfoByte, WithFlag, Apart, Settled;
      ApartChain(chip, sn);
      ChipLength(latched, chip, H(), sn);
      ghost var h := H();
      AtFrameFacts(chip[sn], k, 0);
      SetPacket(sn, 0, 0);
      ghost var h1 := H();
      var packLen, info;
      e, addr, packLen, info := ReadAddress(sn, addrGiven, k);
      ghost var h2 := H();
      ChipLength(latched, chip, h2, sn);
      IsolatedTransitive(h, h1, h2, sn);
      if e.HeaderRead? {
        SetPacket(sn, packLen, WithFlag(info, PACK_FIRST));
        IsolatedTransitive(h, h2, H(), sn);
        CoherentFrames(chip[sn], log[sn]);
      }
    }

    /** Reads PACKET INFO.  `addrGiven` and `portGiven` say whether the caller passed the
        pointers for the address and the port.  Without one the protocol needs, the call
        ends inside the header. */
    method ReadHeader(sn: nat, addrGiven: bool, portGiven: bool, ghost k: nat)
      returns (e: HeaderEnd, addr: seq<byte>, port: word)
      requires sn < SOCKETS && Others(sn) && Coherent(chip[sn], log[sn]) && chip[sn].sr != Closed
      requires AtFrame(chip[sn], k, 0) && sockRemainedSize[sn] == 0 && k == |log[sn].done|
      modifies this
      ensures Apart(old(chip), chip, sn)
      ensures Others(sn) && Isolated(old(H()), H(), sn)
      ensures log[sn].accepted == old(log[sn].accepted)
      ensures chip[sn].tx.committed == log[sn].accepted
      ensures e.HeaderRead? || e.ArgumentMissing? ==>
                && chip[sn].sr == old(chip[sn].sr) && sockIsSending == old(sockIsSending)
                && log[sn] == old(log[sn]).(delivered := log[sn].delivered)
      ensures e.HeaderRead? ==>
                && (addrGiven || old(chip[sn].kind) % 16 == MACRAW)
                && (portGiven || !HasPort(old(chip[sn].kind)))
                && HeadDone(sn, k, old(chip[sn].kind), old(chip[sn].packets[k]))
                && addr == old(chip[sn].packets[k]).addr
                && port == (if HasPort(old(chip[sn].kind)) then old(chip[sn].packets[k]).port else 0)
      ensures e.ArgumentMissing? ==>
                && old(chip[sn].kind) % 16 != MACRAW
                && (!addrGiven || (!portGiven && HasPort(old(chip[sn].kind))))
                && !LinkedAt(chip, H(), sn) && Coherent(chip[sn], log[sn])
      ensures e.LengthFatal? ==>
                && Valid() && ShutDown(sn) && log[sn].done == old(log[sn].done) && Oversize(chip[sn], k)
      ensures !e.HeaderRunEnds? && old(Settled(chip[sn])) ==> Settled(chip[sn])
      ensures chip[sn].kind == old(chip[sn].kind)
      ensures old(chip[sn].packets) <= chip[sn].packets
      ensures e.HeaderRunEnds? ==> script == []
      ensures IsSet(sockIoMode, sn) ==> old(IsSet(sockIoMode, sn))
      ensures e.HeaderRunEnds? ==> chip[sn].cr != Idle
      ensures e.HeaderRead? ==> !Oversize(chip[sn], k)
    {
      hide IsDatagram, HasPort, DatagramStatus, PreConnection, FrameInv, Inv, Linked, Clean, Drift, Grew,
        GoodAt, LinkedAt, IsSet, Coherent, AtFrame, Rsr, Frame, OthersGood, WellFormed, Isolated, Flat, With,
        PortOk, HeadDone, InfoByte, WithFlag, Apart, Settled;
      ApartChain(chip, sn);
      ChipLength(latched, chip, H(), sn);
      ghost var h, mode := H(), chip[sn].kind;
      AtFrameFacts(chip[sn], k, 0);
      ghost var p := chip[sn].packets[k];
      AddressLength(mode, p);
      port := 0;
      e, addr := StartPacket(sn, addrGiven, k);
      if !e.HeaderRead? {
        return;
      }
      ChipLength(latched, chip, H(), sn);
      ghost var h1 := H();
      e, port := ReadPort(sn, portGiven, k, p);
      IsolatedTransitive(h, h1, H(), sn);
      ChipLength(latched, chip, H(), sn);
      if e.HeaderRead? {
        HeadIsDone(sn, k, mode, p);
      }
    }

    lemma HeadIsDone(sn: nat, k: nat, mode: byte, p: Packet)
      requires sn < SOCKETS && |chip| == |log| == |sockRemainedSize| == |sockPackInfo| == SOCKETS
      requires Coherent(chip[sn], log[sn]) && WellFormed(mode, p) && chip[sn].kind == mode
      requires AtFrame(chip[sn], k, |Frame(mode, p)| - |p.payload|) && chip[sn].packets[k] == p
      requires sockRemainedSize[sn] == |p.payload|
      requires sockPackInfo[sn] == WithFlag(InfoByte(mode, p), PACK_FIRST)
      ensures HeadDone(sn, k, mode, p)
    {
      hide Coherent, AtFrame, Frame, WellFormed;
    }

    /** Returns the next part of the payload of packet `k`; `so` is what of it has been
        returned before. */
    method ReadPayload(sn: nat, len: nat, ghost k: nat, ghost so: Datagram)
      returns (done: bool, data: seq<byte>)
      requires sn < SOCKETS && Others(sn) && Coherent(chip[sn], log[sn]) && chip[sn].sr != Closed
      requires k == |log[sn].done| && AtPayload(chip[sn], k, sockRemainedSize[sn], so)
      requires DonePackets(chip[sn], log[sn].done)
      modifies this
      ensures Apart(old(chip), chip, sn)
      ensures Others(sn) && Isolated(old(H()), H(), sn)
      ensures log[sn].accepted == old(log[sn].accepted)
      ensures !done ==> chip[sn].tx.committed == log[sn].accepted
      ensures k < old(|chip[sn].packets|) && old(chip[sn].packets) <= chip[sn].packets
      ensures done ==>
                && Valid()
                && IsFragment(chip[sn].packets[k],
                              |chip[sn].packets[k].payload| - old(sockRemainedSize[sn]), len, data,
                              sockRemainedSize[sn])
                && sockPackInfo[sn] == AfterFragment(old(sockPackInfo[sn]), sockRemainedSize[sn])
                && log[sn].current == so.(payload := so.payload + data)
                && log[sn].done == old(log[sn].done) + (if sockRemainedSize[sn] == 0 then [log[sn].current] else [])
      ensures done && old(Settled(chip[sn])) ==> Settled(chip[sn])
      ensures chip[sn].kind == old(chip[sn].kind)
      ensures !done ==> script == []
      ensures done ==> chip[sn].sr == old(chip[sn].sr)
      ensures IsSet(sockIoMode, sn) ==> old(IsSet(sockIoMode, sn))
      ensures !done ==> chip[sn].cr != Idle
    {
      hide FrameInv, Inv, Linked, Clean, Drift, Grew, GoodAt, LinkedAt, IsSet, Coherent, AtFrame, Rsr, Frame,
        WellFormed, Isolated, Flat, AfterFragment, Reading, OthersGood, AtPayload, DonePackets, Apart,
        Settled, PreConnection, Shape, PortOk;
      ApartChain(chip, sn);
      ghost var h := H();
      ChipLength(latched, chip, h, sn);
      PayloadFacts(chip[sn], k, sockRemainedSize[sn], so);
      ghost var mode, p := chip[sn].kind, chip[sn].packets[k];
      ghost var offset := |Frame(mode, p)| - sockRemainedSize[sn];
      var packLen: nat := if len < sockRemainedSize[sn] then len else sockRemainedSize[sn];
      PayloadBytes(mode, p, sockRemainedSize[sn], packLen);
      ghost var s := chip[sn];
      done, data := TakeFrame(sn, packLen, k, offset);
      if !done {
        return;
      }
      ghost var h1 := H();
      ChipLength(latched, chip, h1, sn);
      var remained := sockRemainedSize[sn] - packLen;
      SetPacket(sn, remained, AfterFragment(sockPackInfo[sn], remained));
      ghost var h2 := H();
      IsolatedTransitive(h, h1, h2, sn);
      CoherentFrames(chip[sn], log[sn]);
      PayloadRead(s, log[sn].done, h.remained[sn], so, packLen, chip[sn]);
      Record(sn, remained, so.(payload := so.payload + data));
      ChipLength(latched, chip, H(), SOCKETS);
      IsolatedTransitive(h, h2, H(), sn);
    }

    /** Enters what has been returned of the current packet into the history. */
    ghost method Record(sn: nat, remained: nat, so: Datagram)
      requires sn < SOCKETS && Others(sn) && Coherent(chip[sn], log[sn]) && chip[sn].sr != Closed
      requires AtPayload(chip[sn], |log[sn].done|, remained, so) && remained == sockRemainedSize[sn]
      requires DonePackets(chip[sn], log[sn].done)
      modifies this`log
      ensures Valid() && Others(sn) && Isolated(old(H()), H(), sn)
      ensures log[sn].accepted == old(log[sn].accepted)
      ensures log[sn].done == old(log[sn].done) + (if remained == 0 then [so] else [])
      ensures log[sn].current == so
    {
      hide Inv, Linked, Clean, GoodAt, LinkedAt, IsSet, Coherent, Isolated, Reading, AtPayload, DonePackets,
        OthersGood;
      ghost var h := H();
      ChipLength(latched, chip, h, sn);
      PayloadEnds(chip[sn], log[sn].done, remained, so);
      log := log[sn := log[sn].(done := if remained == 0 then log[sn].done + [so] else log[sn].done,
                                current := so)];
      EntryUpdates(h, H(), sn);
      PortOkStays(h, H());
      OthersKept(latched, chip, h, sn, chip[sn], H());
      assert chip[sn := chip[sn]] == chip;
      CoherentDone(chip[sn], h.log[sn], log[sn]);
      DatagramLinked(latched, chip[sn], IsSet(sockIsSending, sn), remained, log[sn]);
      DatagramClean(latched, chip[sn], log[sn]);
      AllGood(latched, chip, H(), sn);
    }

    /** A packet header has been read: what the payload reader starts from. */
    ghost predicate Begun(sn: nat, mode: byte, done: seq<Datagram>, so: Datagram,
                          addrGiven: bool, portGiven: bool)
      requires sn < SOCKETS && |chip| == |log| == |sockRemainedSize| == |sockPackInfo| == SOCKETS
      reads this
    {
      var s := chip[sn];
      && Coherent(s, log[sn]) && s.sr != Closed && s.kind == mode
      && log[sn].done == done && DonePackets(s, done)
      && AtPayload(s, |done|, sockRemainedSize[sn], so)
      && sockRemainedSize[sn] == |s.packets[|done|].payload|
      && sockPackInfo[sn] == With(InfoByte(mode, s.packets[|done|]), PACK_FIRST)
      && (addrGiven || mode % 16 == MACRAW) && (portGiven || !HasPort(mode))
    }

    /** The first half of `recvfrom`, taken when no packet is being read. */
    method BeginPacket(sn: nat, addrGiven: bool, portGiven: bool)
      returns (e: HeaderEnd, r: Ret, addr: seq<byte>, port: word)
      requires sn < SOCKETS && Valid() && IsDatagram(chip[sn].kind) && sockRemainedSize[sn] == 0
      modifies this
      ensures Apart(old(chip), chip, sn)
      ensures Isolated(old(H()), H(), sn) && Others(sn)
      ensures log[sn].accepted == old(log[sn].accepted)
      ensures e.HeaderRead? ==>
                && sockIsSending == old(sockIsSending)
                && Begun(sn, old(chip[sn].kind), old(log[sn].done), Datagram(addr, port, []), addrGiven, portGiven)
      ensures !e.HeaderRead? && r.Running? ==> chip[sn].tx.committed == log[sn].accepted
      ensures !e.HeaderRead? && r.Done? && r.code != SOCKERR_ARG ==> Valid()
      ensures !e.HeaderRead? && r == Done(SOCKERR_ARG) ==>
                && !LinkedAt(chip, H(), sn) && Coherent(chip[sn], log[sn]) && old(chip[sn].kind) % 16 != MACRAW
                && (!addrGiven || (!portGiven && HasPort(old(chip[sn].kind))))
      ensures !e.HeaderRead? && r.Done? ==>
                && log[sn].done == old(log[sn].done)
                && (r.code != SOCKERR_ARG ==> sockRemainedSize[sn] == 0)
                && (|| r.code == SOCKERR_ARG
                    || (r.code == SOCKERR_SOCKCLOSED && chip[sn].sr == Closed && H() == old(H()))
                    || (r.code == SOCKFATAL_PACKLEN && ShutDown(sn) && Oversize(chip[sn], |log[sn].done|))
                    || (&& r.code == SOCK_BUSY && old(IsSet(sockIoMode, sn)) && H() == old(H())
                        && chip[sn].sr != Closed
                        && (|| old(Rsr(chip[sn].rx)) == 0
                            || Crossed(old(Rsr(chip[sn].rx)), Rsr(chip[sn].rx)))))
      ensures (e.HeaderRead? || r.Done?) && old(Settled(chip[sn])) ==> Settled(chip[sn])
      ensures chip[sn].kind == old(chip[sn].kind)
      ensures old(chip[sn].packets) <= chip[sn].packets
      ensures !e.HeaderRead? && r.Running? ==> script == []
      ensures (r.Done? && !ShutDown(sn)) || e.HeaderRead? ==> chip[sn].sr == old(chip[sn].sr)
      ensures IsSet(sockIoMode, sn) ==> old(IsSet(sockIoMode, sn))
      ensures !e.HeaderRead? && r.Running? && old(IsSet(sockIoMode, sn)) ==> chip[sn].cr != Idle
      ensures !e.HeaderRead? && r.Running? && chip[sn].cr == Idle ==>
                old(Rsr(chip[sn].rx)) == 0 || Crossed(old(Rsr(chip[sn].rx)), Rsr(chip[sn].rx))
      ensures e.HeaderRead? ==> !Oversize(chip[sn], |old(log[sn].done)|)
    {
      hide FrameInv, Inv, Linked, Clean, Drift, Grew, GoodAt, LinkedAt, IsSet, Coherent, AtFrame, Rsr, Frame,
        WellFormed, Isolated, Flat, AfterFragment, Reading, WithFlag, AtPayload, DonePackets, Begun, HeadDone,
        Apart, Crossed, Settled, PreConnection;
      ApartChain(chip, sn);
      ghost var h := H();
      NothingChanged(h, sn);
      e, addr, port := HeaderRunEnds, [], 0;
      ThisGood(latched, chip, h, sn);
      ghost var s0 := chip[sn];
      var g := AwaitPacket(sn);
      CommittedIsAccepted(latched, chip, h, sn);
      ThisGood(latched, chip, h, sn);
      SettledDrift(s0, chip[sn]);
      DatagramNotPre(s0);
      DatagramDrift(s0, chip[sn]);
      DatagramStays(s0, chip[sn]);
      if !g.Pass? {
        r := if g.Broken? then Done(SOCKERR_SOCKCLOSED) else if g.WouldBlock? then Done(SOCK_BUSY)
             else Running;
        return;
      }
      ghost var s := chip[sn];
      ThisGood(latched, chip, h, sn);
      AtNextHeader(s, IsSet(h.sending, sn), log[sn]);
      e, addr, port := ReadHeader(sn, addrGiven, portGiven, |log[sn].done|);
      r := if e.ArgumentMissing? then Done(SOCKERR_ARG) else if e.LengthFatal? then Done(SOCKFATAL_PACKLEN)
           else Running;
      if e.HeaderRead? {
        HeaderBegun(sn, s, h.log[sn].done, addr, port, addrGiven, portGiven);
      }
    }

    lemma HeaderBegun(sn: nat, s: Sock, done: seq<Datagram>, addr: seq<byte>, port: word,
                      addrGiven: bool, portGiven: bool)
      requires sn < SOCKETS && |chip| == |log| == |sockRemainedSize| == |sockPackInfo| == SOCKETS
      requires DonePackets(s, done) && |done| < |s.packets| && s.packets <= chip[sn].packets
      requires HeadDone(sn, |done|, s.kind, s.packets[|done|]) && log[sn].done == done
      requires chip[sn].sr != Closed && IsDatagram(s.kind)
      requires addr == s.packets[|done|].addr
      requires port == if HasPort(s.kind) then s.packets[|done|].port else 0
      requires addrGiven || s.kind % 16 == MACRAW
      requires portGiven || !HasPort(s.kind)
      ensures Begun(sn, s.kind, done, Datagram(addr, port, []), addrGiven, portGiven)
    {
      hide Frame, WellFormed, Flat, AtFrame, AtPayload, DonePackets, Coherent, WithFlag;
      CoherentFrames(chip[sn], log[sn]);
      HeaderToPayload(s, done, chip[sn], addr, port);
    }

    /** `recvfrom`.  Every result that is not BUSY is the next part of the payload of the next
        packet: together with what earlier calls returned it is a prefix of that payload, it
        is as long as the caller's buffer allows, and the address and port returned with the
        first part are those of the packet.  The reader stays aligned with the packet framing
        exactly when the pointers the protocol needs are given. */
    method RecvFrom(sn: nat, len: nat, addrGiven: bool, portGiven: bool)
      returns (r: Ret, data: seq<byte>, addr: seq<byte>, port: word, taken: bool)
      requires sn < SOCKETS && Valid() && IsDatagram(chip[sn].kind)
      modifies this
      ensures Apart(old(chip), chip, sn)
      ensures Isolated(old(H()), H(), sn) && Others(sn)
      ensures log[sn].accepted == old(log[sn].accepted)
      ensures r.Done? && r.code != SOCKERR_ARG ==> Valid()
      ensures r == Done(SOCKERR_ARG) ==>
                && old(sockRemainedSize[sn]) == 0 && !LinkedAt(chip, H(), sn)
                && Coherent(chip[sn], log[sn])
                && old(chip[sn].kind) % 16 != MACRAW
                && (!addrGiven || (!portGiven && HasPort(old(chip[sn].kind))))
      ensures taken ==>
                var k, left, mode := |old(log[sn].done)|, old(sockRemainedSize[sn]), old(chip[sn].kind);
                && r == Done(|data|) && k < |chip[sn].packets|
                && var p := chip[sn].packets[k];
                && IsFragment(p, if left == 0 then 0 else |p.payload| - left, len, data, sockRemainedSize[sn])
                && (left == 0 ==>
                      && (addrGiven || mode % 16 == MACRAW) && (portGiven || !HasPort(mode))
                      && addr == p.addr && port == (if HasPort(mode) then p.port else 0))
                && log[sn].current == (if left == 0 then Datagram(addr, port, data)
                                       else var so := old(log[sn].current); so.(payload := so.payload + data))
                && log[sn].done == old(log[sn].done) + (if sockRemainedSize[sn] == 0 then [log[sn].current] else [])
                && sockPackInfo[sn] == With(if left == 0 then With(InfoByte(mode, p), PACK_FIRST)
                                            else old(sockPackInfo[sn]),
                                            if sockRemainedSize[sn] != 0 then PACK_REMAINED else PACK_COMPLETED)
      ensures r.Done? && !taken ==>
                && data == [] && log[sn].done == old(log[sn].done) && old(sockRemainedSize[sn]) == 0
                && (r.code != SOCKERR_ARG ==> sockRemainedSize[sn] == 0)
                && (|| r.code == SOCKERR_ARG
                    || (r.code == SOCKERR_SOCKCLOSED && chip[sn].sr == Closed && H() == old(H()))
                    || (r.code == SOCKFATAL_PACKLEN && ShutDown(sn) && Oversize(chip[sn], |log[sn].done|))
                    || (&& r.code == SOCK_BUSY && old(IsSet(sockIoMode, sn)) && H() == old(H())
                        && chip[sn].sr != Closed
                        && (|| old(Rsr(chip[sn].rx)) == 0
                            || Crossed(old(Rsr(chip[sn].rx)), Rsr(chip[sn].rx)))))
      ensures r.Done? && !taken && chip[sn].sr != Closed
              && (addrGiven || old(chip[sn].kind) % 16 == MACRAW) && (portGiven || !HasPort(old(chip[sn].kind))) ==>
                && old(IsSet(sockIoMode, sn)) && old(sockRemainedSize[sn]) == 0
                && (|| old(Rsr(chip[sn].rx)) == 0
                    || Crossed(old(Rsr(chip[sn].rx)), Rsr(chip[sn].rx)))
      ensures r.Done? && !ShutDown(sn) ==> chip[sn].sr == old(chip[sn].sr)
      ensures taken ==> chip[sn].sr != Closed
      ensures IsSet(sockIoMode, sn) ==> old(IsSet(sockIoMode, sn))
      ensures r.Running? ==> chip[sn].tx.committed == log[sn].accepted
      ensures r.Done? && old(Settled(chip[sn])) ==> Settled(chip[sn])
      ensures chip[sn].kind == old(chip[sn].kind)
      ensures old(chip[sn].packets) <= chip[sn].packets
      ensures r.Running? ==> script == []
      ensures r.Running? && old(IsSet(sockIoMode, sn)) ==> chip[sn].cr != Idle
      ensures r.Running? && chip[sn].cr == Idle ==>
                && old(sockRemainedSize[sn]) == 0
                && (old(Rsr(chip[sn].rx)) == 0 || Crossed(old(Rsr(chip[sn].rx)), Rsr(chip[sn].rx)))
      ensures taken && old(sockRemainedSize[sn]) == 0 ==> !Oversize(chip[sn], |old(log[sn].done)|)
    {
      hide FrameInv, Inv, Linked, Clean, Drift, Grew, GoodAt, LinkedAt, IsSet, Coherent, AtFrame, Rsr, Frame,
        WellFormed, Isolated, Flat, Reading, With, AtPayload, DonePackets, OthersGood, IsFragment, InfoByte,
        Apart, Crossed, Settled, PreConnection, Shape;
      ApartChain(chip, sn);
      ChipLength(latched, chip, H(), SOCKETS);
      ghost var h, mode := H(), chip[sn].kind;
      NothingChanged(h, sn);
      data, addr, port, taken := [], [], 0, false;
      ghost var done, left := log[sn].done, sockRemainedSize[sn];
      ghost var so := log[sn].current;
      if sockRemainedSize[sn] == 0 {
        var e;
        e, r, addr, port := BeginPacket(sn, addrGiven, portGiven);
        if !e.HeaderRead? {
          return;
        }
        so := Datagram(addr, port, []);
      } else {
        ThisGood(latched, chip, h, sn);
        MiddleIsOpen(chip[sn], IsSet(h.sending, sn), left, log[sn]);
        LinkedFacts(chip[sn], IsSet(h.sending, sn), left, log[sn]);
      }
      ChipLength(latched, chip, H(), sn);
      ghost var h1, s1 := H(), chip[sn];
      PayloadFacts(s1, |done|, sockRemainedSize[sn], so);
      var complete;
      complete, data := ReadPayload(sn, len, |done|, so);
      IsolatedTransitive(h, h1, H(), sn);
      if !complete {
        return Running, [], addr, port, false;
      }
      ChipLength(latched, chip, H(), SOCKETS);
      assert chip[sn].packets[|done|] == s1.packets[|done|];
      taken, r := true, Done(|data|);
    }

    /** The first wait of `sendto`: until `len` bytes are free. */
    method AwaitRoom(sn: nat, len: nat) returns (g: Gate)
      requires sn < SOCKETS && Valid() && IsDatagram(chip[sn].kind)
      modifies this`chip, this`script
      ensures Apart(old(chip), chip, sn)
      ensures Valid() && Drift(old(chip[sn]), chip[sn])
      ensures g.Pass? ==> len <= Fsr(chip[sn].tx) && chip[sn].sr != Closed
      ensures g.Broken? ==> chip[sn].sr == Closed
      ensures g.WouldBlock? || g.RunEnds? ==>
                && (g.WouldBlock? <==> IsSet(sockIoMode, sn)) && chip[sn].sr != Closed
                && (len > old(Fsr(chip[sn].tx)) || Crossed(old(Fsr(chip[sn].tx)), Fsr(chip[sn].tx)))
      ensures chip[sn].kind == old(chip[sn].kind)
      ensures g.RunEnds? ==> script == []
      ensures chip[sn].sr == old(chip[sn].sr)
    {
      hide Inv, Linked, Clean, Drift, Grew, GoodAt, LinkedAt, IsSet, Fsr, Apart, Tells, Crossed;
      ApartChain(chip, sn);
      ghost var h, s := H(), chip[sn];
      StillGrew(s);
      ThisGood(latched, chip, h, sn);
      SizesNat(s);
      DatagramNotPre(s);
      while true
        invariant Apart(old(chip), chip, sn)
        invariant Valid() && Drift(s, chip[sn])
        invariant chip[sn].sr == s.sr && Inv(chip[sn]) && Fsr(s.tx) <= Fsr(chip[sn].tx)
        decreases |script|
      {
        ghost var s1 := chip[sn];
        ThisGood(latched, chip, h, sn);
        IsGood(latched, chip, h, sn);
        LinkedFacts(s1, IsSet(h.sending, sn), h.remained[sn], h.log[sn]);
        var freesize, _ := ReadTxFsr(sn);
        ghost var s2 := chip[sn];
        DriftTransitive(s, s1, s2);
        DriftFacts(s1, s2);
        FsrGrows(s1, s2);
        Tick(sn);
        DriftTransitive(s, s2, chip[sn]);
        DatagramStays(s, chip[sn]);
        DriftFacts(s2, chip[sn]);
        FsrGrows(s2, chip[sn]);
        WhatGood(latched, chip, h, sn);
        AllGood(latched, chip, h, sn);
        if chip[sn].sr == Closed {
          return Broken(false);
        }
        if len <= freesize {
          return Pass;
        }
        BelowMeans(Fsr(s.tx), Fsr(s1.tx), freesize, Fsr(s2.tx), Fsr(chip[sn].tx), len);
        if IsSet(sockIoMode, sn) {
          return WouldBlock;
        }
        if script == [] {
          return RunEnds;
        }
      }
    }

    /** Stores one datagram and sends it. */
    method IssueDatagram(sn: nat, data: seq<byte>, c: Command) returns (done: bool)
      requires sn < SOCKETS && Valid() && IsDatagram(chip[sn].kind) && IsSend(c)
      requires |data| <= Fsr(chip[sn].tx) && chip[sn].sr != Closed
      modifies this`chip, this`script, this`log
      ensures Apart(old(chip), chip, sn)
      ensures Others(sn) && |log| == SOCKETS && Isolated(old(H()), H(), sn)
      ensures done ==>
                && Valid()
                && chip[sn].sends == old(chip[sn].sends) + 1 && (old(Settled(chip[sn])) ==> OneOut(chip[sn]))
                && log == old(log)[sn := old(log)[sn].(accepted := old(log)[sn].accepted + data)]
                && chip[sn].sentTo
                   == old(chip[sn].sentTo)
                      + [Datagram(Destination(old(chip[sn].ends), c).addr, old(chip[sn].ends.dport), data)]
      ensures !done ==>
                && log == old(log)
                && (|| chip[sn].tx.committed == log[sn].accepted
                    || chip[sn].tx.committed == log[sn].accepted + data)
      ensures chip[sn].kind == old(chip[sn].kind)
      ensures old(chip[sn].packets) <= chip[sn].packets
      ensures !done ==> script == []
      ensures done ==> chip[sn].sr == old(chip[sn].sr)
      ensures !done ==> chip[sn].cr != Idle
    {
      hide Inv, Linked, Clean, Drift, Grew, GoodAt, LinkedAt, IsSet, Fsr, Isolated, Coherent, Store,
        OthersGood, Apart, PortOk, PreConnection, Shape, Stored, IsDatagram, HasPort, IsStream, IsSend,
        StagedLen, Staged, Settled, OneOut, Destination;
      ApartChain(chip, sn);
      ChipLength(latched, chip, H(), SOCKETS);
      ghost var h, s := H(), chip[sn];
      NothingChanged(h, sn);
      ThisGood(latched, chip, h, sn);
      LinkedFacts(s, IsSet(h.sending, sn), h.remained[sn], log[sn]);
      DatagramReady(s, data, c);
      DatagramPointer(s, log[sn]);
      DatagramNotPre(s);
      WizSendData(sn, data);
      CommandStays(Stored(s, data), c, chip[sn]);
      DriftFacts(Stored(s, data), chip[sn]);
      ghost var s1 := chip[sn];
      done := Perform(sn, c);
      ChipLength(latched, chip, h, sn);
      StoredGrew(Stored(s, data), c, s1, chip[sn]);
      PendingDatagram(s, data, c, chip[sn]);
      if done {
        EnterDatagram(sn, s, data, c);
      }
    }

    /** Enters the datagram that a finished SEND has taken over into the history. */
    ghost method EnterDatagram(sn: nat, s: Sock, data: seq<byte>, c: Command)
      requires sn < SOCKETS && Others(sn) && |log| == |sockRemainedSize| == SOCKETS
      requires Linked(s, IsSet(sockIsSending, sn), sockRemainedSize[sn], log[sn])
      requires IsDatagram(s.kind) && Inv(s) && IsSend(c) && |data| <= Fsr(s.tx) && |data| <= |s.tx.mem|
      requires Grew(Stored(s, data).(cr := c), chip[sn]) && chip[sn].cr == Idle
      modifies this`log
      ensures Valid() && Others(sn) && Isolated(old(H()), H(), sn)
      ensures chip[sn].sr == s.sr && chip[sn].sends == s.sends + 1 && (Settled(s) ==> OneOut(chip[sn]))
      ensures log == old(log)[sn := old(log)[sn].(accepted := old(log)[sn].accepted + data)]
      ensures chip[sn].sentTo == s.sentTo + [Datagram(Destination(s.ends, c).addr, s.ends.dport, data)]
    {
      hide Inv, Linked, Clean, Drift, Grew, GoodAt, LinkedAt, IsSet, Fsr, Isolated, Coherent, Stored,
        OthersGood, PortOk, PreConnection, IsDatagram, IsSend, Settled, OneOut, Destination;
      ghost var h, sending, remained := H(), IsSet(sockIsSending, sn), sockRemainedSize[sn];
      ChipLength(latched, chip, h, sn);
      CarriedDatagram(s, sending, remained, log[sn], c, data, chip[sn]);
      log := log[sn := log[sn].(accepted := log[sn].accepted + data)];
      EntryUpdates(h, H(), sn);
      PortOkStays(h, H());
      OthersKept(latched, chip, h, sn, chip[sn], H());
      assert chip[sn := chip[sn]] == chip;
      LinkedFacts(chip[sn], sending, remained, log[sn]);
      DatagramClean(latched, chip[sn], log[sn]);
      AllGood(latched, chip, H(), sn);
      ThisGood(latched, chip, H(), sn);
    }

    /** The last wait of `sendto`: for SENDOK or a timeout. */
    method AwaitSent(sn: nat) returns (r: Ret, ghost seen: Irq)
      requires sn < SOCKETS && Valid() && IsDatagram(chip[sn].kind)
      modifies this`chip, this`script
      ensures Apart(old(chip), chip, sn)
      ensures Valid() && chip[sn].sentTo == old(chip[sn].sentTo)
      ensures r == Done(SOCK_OK) || r == Done(SOCKERR_TIMEOUT) || r == Running
      ensures r == Done(SOCK_OK) ==> seen.sendOk && !chip[sn].irq.sendOk
      ensures chip[sn].sends == old(chip[sn].sends)
      ensures r == Done(SOCK_OK) && old(OneOut(chip[sn])) ==> Settled(chip[sn])
      ensures r == Done(SOCKERR_TIMEOUT) ==> !seen.sendOk && seen.timeout && !chip[sn].irq.timeout
      ensures chip[sn].kind == old(chip[sn].kind)
      ensures old(chip[sn].packets) <= chip[sn].packets
      ensures r.Running? ==> script == [] && !seen.sendOk && !seen.timeout
      ensures chip[sn].sr == old(chip[sn].sr)
    {
      hide Inv, Linked, Clean, Grew, GoodAt, LinkedAt, IsSet, Coherent, TxDrift, RxDrift, Apart;
      ApartChain(chip, sn);
      ghost var h := H();
      seen := chip[sn].irq;
      while true
        invariant Apart(old(chip), chip, sn)
        invariant Valid() && IsDatagram(chip[sn].kind) && chip[sn].sentTo == old(chip[sn].sentTo)
        invariant chip[sn].sr == old(chip[sn].sr) && chip[sn].kind == old(chip[sn].kind)
        invariant old(chip[sn].packets) <= chip[sn].packets
        invariant chip[sn].sends == old(chip[sn].sends) && (old(OneOut(chip[sn])) ==> OneOut(chip[sn]))
        decreases |script|
      {
        ThisGood(latched, chip, h, sn);
        DatagramNotPre(chip[sn]);
        ghost var s := chip[sn];
        Poll(sn);
        ThisGood(latched, chip, h, sn);
        SettledDrift(s, chip[sn]);
        DatagramStays(s, chip[sn]);
        var irq := chip[sn].irq;
        if irq.sendOk || irq.timeout {
          DatagramNotPre(chip[sn]);
          ghost var s1 := chip[sn];
          Poll(sn);
          ThisGood(latched, chip, h, sn);
          SettledDrift(s1, chip[sn]);
          DatagramStays(s1, chip[sn]);
          var cleared := if irq.sendOk then chip[sn].irq.(sendOk := false) else chip[sn].irq.(timeout := false);
          IrqOfDatagram(latched, chip[sn], cleared, IsSet(h.sending, sn), h.remained[sn], h.log[sn]);
          Write(sn, chip[sn].(irq := cleared));
          AllGood(latched, chip, h, sn);
          return Done(if irq.sendOk then SOCK_OK else SOCKERR_TIMEOUT), irq;
        }
        if script == [] {
          return Running, irq;
        }
      }
    }

    /** Writes registers of an open datagram socket, behind whatever the chip does first. */
    method SetEnds(sn: nat, port: Option<word>, dip4: Option<seq<byte>>, dip6: Option<seq<byte>>)
      requires sn < SOCKETS && Valid() && IsDatagram(chip[sn].kind)
      modifies this`chip, this`script
      ensures Apart(old(chip), chip, sn)
      ensures Valid() && SameSocket(old(chip[sn]), chip[sn])
      ensures old(Fsr(chip[sn].tx)) <= Fsr(chip[sn].tx)
      ensures chip[sn].ends.dport == (if port.Some? then port.value else old(chip[sn].ends.dport))
      ensures chip[sn].ends.dip4 == (if dip4.Some? then dip4.value else old(chip[sn].ends.dip4))
      ensures chip[sn].ends.dip6 == (if dip6.Some? then dip6.value else old(chip[sn].ends.dip6))
      ensures old(chip[sn].packets) <= chip[sn].packets
    {
      hide Inv, Linked, Clean, Drift, GoodAt, LinkedAt, Apart, OthersGood, PreConnection, IsDatagram;
      ApartChain(chip, sn);
      ThisGood(latched, chip, H(), sn);
      DatagramNotPre(chip[sn]);
      ghost var s := chip[sn];
      Poll(sn);
      ChipLength(latched, chip, H(), SOCKETS);
      DatagramDrift(s, chip[sn]);
      DatagramStays(s, chip[sn]);
      ThisGood(latched, chip, H(), sn);
      FsrGrows(s, chip[sn]);
      SettledDrift(s, chip[sn]);
      var ends := chip[sn].ends;
      WriteEnds(sn, Endpoint(ends.port, if dip4.Some? then dip4.value else ends.dip4,
                             if dip6.Some? then dip6.value else ends.dip6,
                             if port.Some? then port.value else ends.dport));
    }

    /** Checks the arguments of `sendto` and writes the destination registers. */
    method SetDestination(sn: nat, addr: seq<byte>, port: word, addrlen: byte)
      returns (code: int, command: Command)
      requires sn < SOCKETS && Valid() && IsDatagram(chip[sn].kind)
      requires addrlen == 4 || addrlen == 16 ==> |addr| == addrlen
      modifies this`chip, this`script
      ensures Apart(old(chip), chip, sn)
      ensures Valid() && SameSocket(old(chip[sn]), chip[sn])
      ensures old(Fsr(chip[sn].tx)) <= Fsr(chip[sn].tx)
      ensures code == SendToError(chip[sn].mr, addrlen, port) && IsSend(command)
      ensures code == 0 && chip[sn].mr != MACRAW ==> Destination(chip[sn].ends, command).addr == addr
      ensures code == 0 && HasPort(chip[sn].mr) ==> chip[sn].ends.dport == port && port != 0
      ensures old(chip[sn].packets) <= chip[sn].packets
    {
      hide Inv, Linked, Clean, Drift, GoodAt, LinkedAt, Apart, OthersGood, IsDatagram;
      ApartChain(chip, sn);
      ChipLength(latched, chip, H(), SOCKETS);
      code, command := 0, Command.Send;
      var tmp := chip[sn].mr;
      if tmp != MACRAW {
        if addrlen == 16 {
          if tmp / 8 % 2 == 0 {
            return SOCKERR_SOCKMODE, command;
          }
          command := Send6;
          SetEnds(sn, None, None, Some(addr));
        } else if addrlen == 4 {
          if tmp == UDP6 || tmp == IPRAW6 {
            return SOCKERR_SOCKMODE, command;
          }
          SetEnds(sn, None, Some(addr), None);
        } else {
          return SOCKERR_IPINVALID, command;
        }
      }
      if HasPort(tmp) {
        if port == 0 {
          return SOCKERR_PORTZERO, command;
        }
        SetEnds(sn, Some(port), None, None);
      }
    }

    /** `sendto`.  A successful call hands over exactly one datagram, with the first n bytes of
        `buf` to the given address and port; so does a call that times out, which only says
        that it was not confirmed.  Any other call hands over nothing.  If all earlier SENDs had
        been confirmed, the SENDOK that a successful call sees is its own. */
    method SendTo(sn: nat, buf: seq<byte>, addr: seq<byte>, port: word, addrlen: byte)
      returns (r: Ret, sent: bool, ghost seen: Irq)
      requires sn < SOCKETS && |buf| < WORD && Valid() && IsDatagram(chip[sn].kind)
      requires addrlen == 4 || addrlen == 16 ==> |addr| == addrlen
      modifies this`chip, this`script, this`log
      ensures Apart(old(chip), chip, sn)
      ensures Isolated(old(H()), H(), sn) && Others(sn)
      ensures r.Done? ==> Valid()
      ensures sent ==>
                var n, mode := old(SendLimit(sn, buf)), old(chip[sn].mr);
                && (r == Done(n) || r == Done(SOCKERR_TIMEOUT) || r == Running)
                && (r == Done(n) ==> seen.sendOk)
                && chip[sn].sends == old(chip[sn].sends) + 1
                && (r == Done(SOCKERR_TIMEOUT) ==> !seen.sendOk && seen.timeout)
                && log[sn].accepted == old(log[sn].accepted) + buf[..n]
                && exists d: Datagram ::
                     && chip[sn].sentTo == old(chip[sn].sentTo) + [d] && d.payload == buf[..n]
                     && (mode != MACRAW ==> d.addr == addr)
                     && (HasPort(mode) ==> d.port == port && port != 0)
      ensures r.Done? && !sent ==>
                && log == old(log) && chip[sn].sentTo == old(chip[sn].sentTo)
                && (|| (r.code == SendToError(old(chip[sn].mr), addrlen, port) && r.code != 0)
                    || (r.code == SOCKERR_SOCKCLOSED && chip[sn].sr == Closed)
                    || (&& r.code == SOCK_BUSY && IsSet(sockIoMode, sn)
                        && (|| old(SendLimit(sn, buf)) > old(Fsr(chip[sn].tx))
                            || Crossed(old(Fsr(chip[sn].tx)), Fsr(chip[sn].tx)))))
      ensures SendToError(old(chip[sn].mr), addrlen, port) != 0 ==> r.Done? && !sent && r.code < 0
      ensures r.Done? && r.code != SOCKERR_TIMEOUT && old(Settled(chip[sn])) ==> Settled(chip[sn])
      ensures r.Running? && !sent ==>
                || chip[sn].tx.committed == log[sn].accepted
                || chip[sn].tx.committed == log[sn].accepted + buf[..old(SendLimit(sn, buf))]
      ensures chip[sn].kind == old(chip[sn].kind)
      ensures r.Done? ==> chip[sn].sr == old(chip[sn].sr)
      ensures old(chip[sn].packets) <= chip[sn].packets
      ensures r.Done? ==> log[sn] == old(log[sn]).(accepted := log[sn].accepted)
      ensures r.Running? ==> script == []
      ensures r.Running? && !sent && IsSet(sockIoMode, sn) ==> chip[sn].cr != Idle
      ensures sent && r.Running? && chip[sn].cr == Idle ==> !seen.sendOk && !seen.timeout
      ensures !sent && r.Running? && chip[sn].cr == Idle ==>
                || old(SendLimit(sn, buf)) > old(Fsr(chip[sn].tx))
                || Crossed(old(Fsr(chip[sn].tx)), Fsr(chip[sn].tx))
    {
      hide Inv, Linked, Clean, Drift, Grew, GoodAt, LinkedAt, IsSet, Fsr, Isolated, Coherent, OthersGood,
        SendToError, PortOk, HasPort, IsDatagram, IsStream, Apart, PreConnection, Shape, DatagramStatus,
        Settled, OneOut;
      ApartChain(chip, sn);
      ChipLength(latched, chip, H(), SOCKETS);
      ghost var h, s := H(), chip[sn];
      NothingChanged(h, sn);
      ThisGood(latched, chip, h, sn);
      LinkedFacts(s, IsSet(h.sending, sn), h.remained[sn], log[sn]);
      DatagramNotPre(s);
      sent, seen := false, s.irq;
      var code, command := SetDestination(sn, addr, port, addrlen);
      ThisGood(latched, chip, h, sn);
      ghost var s1 := chip[sn];
      DatagramNotPre(s1);
      if code != 0 {
        RefusalIsNegative(s.mr, addrlen, port);
        return Done(code), sent, seen;
      }
      var len := if |buf| > |chip[sn].tx.mem| then |chip[sn].tx.mem| else |buf|;
      var g := AwaitRoom(sn, len);
      ThisGood(latched, chip, h, sn);
      ghost var s2 := chip[sn];
      DatagramDrift(s1, s2);
      SettledDrift(s1, s2);
      CommittedIsAccepted(latched, chip, h, sn);
      if !g.Pass? {
        r := if g.Broken? then Done(SOCKERR_SOCKCLOSED) else if g.WouldBlock? then Done(SOCK_BUSY)
             else Running;
        return;
      }
      var done := IssueDatagram(sn, buf[..len], command);
      if !done {
        return Running, sent, seen;
      }
      sent := true;
      ghost var d := Datagram(Destination(s2.ends, command).addr, s2.ends.dport, buf[..len]);
      r, seen := AwaitSent(sn);
      ThisGood(latched, chip, H(), sn);
      assert chip[sn].sentTo == s.sentTo + [d];
      if r == Done(SOCK_OK) {
        r := Done(len);
      }
    }

    /** `getSn_RX_RSR` read on its own, between two calls. */
    method PendingSize(sn: nat) returns (size: word)
      requires sn < SOCKETS && Valid()
      modifies this`chip, this`script
      ensures Apart(old(chip), chip, sn)
      ensures Valid() && Drift(old(chip[sn]), chip[sn])
      ensures size <= |Pending(chip[sn])| <= |chip[sn].rx.mem| <= 16384
      ensures old(chip[sn].rx.arrived) <= chip[sn].rx.arrived
      ensures Tells(|old(Pending(chip[sn]))|, size, |Pending(chip[sn])|)
      ensures chip[sn].rx.arrived == old(chip[sn].rx.arrived) ==> size == |Pending(chip[sn])|
    {
      hide Inv, Linked, Clean, Drift, Grew, GoodAt, LinkedAt, IsSet, Rsr, Pending, Apart;
      ApartChain(chip, sn);
      ghost var h, s := H(), chip[sn];
      ThisGood(latched, chip, h, sn);
      IsGood(latched, chip, h, sn);
      LinkedFacts(s, IsSet(h.sending, sn), h.remained[sn], h.log[sn]);
      ghost var when;
      size, when := ReadRxRsr(sn);
      WhatGood(latched, chip, h, sn);
      AllGood(latched, chip, h, sn);
      ThisGood(latched, chip, h, sn);
      PendingIsRsr(s);
      PendingIsRsr(chip[sn]);
      PendingStays(s, chip[sn]);
      ArrivedStays(s, chip[sn]);
    }

    /** A peek is under way: `s1` is the socket when bytes were first found pending, and
        `text` is what is pending now. */
    ghost predicate Peeking(sn: nat, s0: Sock, s1: Sock, text: seq<byte>)
      reads this
    {
      && Valid() && sn < |chip| == SOCKETS && Inv(s0) && Inv(s1) && s1.rx.rd == s1.rx.done
      && Drift(s0, s1) && Drift(s1, chip[sn]) && |Pending(s1)| > 0
      && s1.rx.arrived <= chip[sn].rx.arrived && Inv(chip[sn]) && text == Pending(chip[sn])
    }

    lemma PeekFacts(sn: nat, s0: Sock, s1: Sock, text: seq<byte>)
      requires Peeking(sn, s0, s1, text)
      ensures Valid() && sn < |chip| && Drift(s0, chip[sn]) && text == Pending(chip[sn])
    {
      hide Inv, Drift, Pending, OthersGood;
      DriftTransitive(s0, s1, chip[sn]);
    }

    lemma PeekBegins(sn: nat, s0: Sock)
      requires sn < SOCKETS && Valid() && sn < |chip| && |Pending(chip[sn])| > 0
      requires Inv(s0) && Drift(s0, chip[sn])
      ensures Peeking(sn, s0, chip[sn], Pending(chip[sn]))
    {
      hide Inv, Linked, Drift, Clean, Pending, OthersGood, IsSet;
      ThisGood(latched, chip, H(), sn);
      LinkedFacts(chip[sn], IsSet(sockIsSending, sn), sockRemainedSize[sn], log[sn]);
      StillGrew(chip[sn]);
    }

    /** Reads Sn_RX_RD, where the pending bytes begin. */
    method PeekPointer(sn: nat, ghost s0: Sock, ghost s1: Sock, ghost text: seq<byte>)
      returns (rxPtr: nat, ghost more: seq<byte>)
      requires sn < SOCKETS && Peeking(sn, s0, s1, text)
      modifies this`chip, this`script
      ensures Apart(old(chip), chip, sn)
      ensures Peeking(sn, s0, s1, more) && text <= more && rxPtr == RxAddress(s1.rx.rd, sn)
    {
      hide Inv, Linked, Clean, Drift, Grew, GoodAt, LinkedAt, IsSet, Pending, OthersGood, RxAddress, PortOk,
        Apart;
      ApartChain(chip, sn);
      ghost var s2 := chip[sn];
      Poll(sn);
      ThisGood(latched, chip, H(), sn);
      more := Pending(chip[sn]);
      PeekGoesOn(s1, s2, chip[sn]);
      PendingGrows(s1, chip[sn]);
      rxPtr := RxAddress(chip[sn].rx.rd, sn);
    }

    /** Reads pending byte `i`. */
    method PeekByte(sn: nat, rxPtr: nat, ghost i: nat, ghost s0: Sock, ghost s1: Sock, ghost text: seq<byte>)
      returns (b: byte, ghost more: seq<byte>)
      requires sn < SOCKETS && Peeking(sn, s0, s1, text) && i < |text|
      requires rxPtr == RxAddress(s1.rx.rd, sn) + 256 * i
      modifies this`chip, this`script
      ensures Apart(old(chip), chip, sn)
      ensures Peeking(sn, s0, s1, more) && text <= more && b == more[i]
    {
      hide Inv, Linked, Clean, Drift, Grew, GoodAt, LinkedAt, IsSet, Rsr, Cell, Pending, OthersGood, Wrap,
        RxAddress, Offset, OffsetInc, Block, PortOk, Apart;
      ApartChain(chip, sn);
      ghost var s2 := chip[sn];
      Poll(sn);
      ThisGood(latched, chip, H(), sn);
      more := Pending(chip[sn]);
      PeekGoesOn(s1, s2, chip[sn]);
      PeekedByte(s1, chip[sn], i, sn, rxPtr);
      b := chip[sn].rx.mem[Cell(Offset(rxPtr), 0, |chip[sn].rx.mem|)];
    }

    /** Reads the pending size again. */
    method PeekSize(sn: nat, ghost s0: Sock, ghost s1: Sock, ghost text: seq<byte>)
      returns (size: word, ghost more: seq<byte>)
      requires sn < SOCKETS && Peeking(sn, s0, s1, text)
      modifies this`chip, this`script
      ensures Apart(old(chip), chip, sn)
      ensures Peeking(sn, s0, s1, more) && text <= more
      ensures size <= |more| <= 16384 && Tells(|text|, size, |more|)
      ensures chip[sn].rx.arrived == s0.rx.arrived ==> size == |more|
    {
      hide Inv, Linked, Clean, Drift, Grew, GoodAt, LinkedAt, IsSet, Rsr, Pending, OthersGood, PortOk, Apart,
        Tells;
      ApartChain(chip, sn);
      ghost var s2 := chip[sn];
      size := PendingSize(sn);
      ThisGood(latched, chip, H(), sn);
      more := Pending(chip[sn]);
      PeekGoesOn(s1, s2, chip[sn]);
      NothingNew(s0, s1, s2, chip[sn]);
    }

    /** The loop of `peeksockmsg`. */
    method PeekLoop(sn: nat, submsg: seq<byte>, ghost s0: Sock, ghost s1: Sock, ghost start: seq<byte>)
      returns (r: int, ghost seen: nat, ghost text: seq<byte>)
      requires sn < SOCKETS && 0 < |submsg| < WORD && Peeking(sn, s0, s1, start) && s1 == chip[sn]
      modifies this`chip, this`script
      ensures Apart(old(chip), chip, sn)
      ensures Valid() && sn < |chip| && Drift(s0, chip[sn]) && text == Pending(chip[sn])
      ensures seen <= |text| && r == Scan(text[..seen], submsg, 0, 0) && r >= -1
      ensures r == -1 ==> seen >= |start| || Crossed(|start|, |text|)
      ensures r == -1 && chip[sn].rx.arrived == s0.rx.arrived ==> seen == |text|
    {
      hide Inv, Drift, Scan, Tracks, Searched, Pending, OthersGood, Wrap, RxAddress, Offset, Block, Peeking,
        Apart;
      ApartChain(chip, sn);
      PeekFacts(sn, s0, s1, start);
      text := start;
      var rxPtr;
      rxPtr, text := PeekPointer(sn, s0, s1, text);
      PeekFacts(sn, s0, s1, text);
      var size, i, subIdx := 0, 0, 0;
      SearchStarts(text, submsg);
      ghost var before := text;
      size, text := PeekSize(sn, s0, s1, text);
      SearchGrows(before, text, 0, submsg, 0);
      BelowMeans(|start|, |before|, size, |text|, |text|, size + 1);
      PeekFacts(sn, s0, s1, text);
      while i < size
        invariant Apart(old(chip), chip, sn)
        invariant Peeking(sn, s0, s1, text) && size <= |text| <= 16384
        invariant subIdx <= i <= |text| && subIdx < |submsg| && Searched(text, i, submsg, subIdx)
        invariant rxPtr == RxAddress(s1.rx.rd, sn) + 256 * i
        invariant sn < |chip| && (chip[sn].rx.arrived == s0.rx.arrived ==> size == |text|)
        invariant |start| <= |text| && (|start| < size + 1 || Crossed(|start|, |text|))
        decreases 16384 - i
      {
        before := text;
        var b;
        b, text := PeekByte(sn, rxPtr, i, s0, s1, text);
        PeekFacts(sn, s0, s1, text);
        SearchStep(before, text, i, submsg, subIdx);
        if b == submsg[subIdx] {
          subIdx := subIdx + 1;
          if subIdx == |submsg| {
            return i + 1 - subIdx, i + 1, text;
          }
        } else {
          subIdx := 0;
        }
        rxPtr := OffsetInc(rxPtr);
        i := i + 1;
        before := text;
        size, text := PeekSize(sn, s0, s1, text);
        PeekFacts(sn, s0, s1, text);
        SearchGrows(before, text, i, submsg, subIdx);
        BelowMeans(|start|, |before|, size, |text|, |text|, size + 1);
      }
      PeekFacts(sn, s0, s1, text);
      SearchGrows(text, text, i, submsg, subIdx);
      r, seen := -1, i;
    }

    /** `peeksockmsg`: looks for a byte pattern among the pending bytes without taking any.
        The first `seen` pending bytes have been looked at, and those are all of them if
        nothing arrives meanwhile. */
    method Peek(sn: nat, submsg: seq<byte>) returns (r: int, ghost seen: nat)
      requires sn < SOCKETS && |submsg| < WORD && Valid()
      modifies this`chip, this`script
      ensures Apart(old(chip), chip, sn)
      ensures Valid() && Drift(old(chip[sn]), chip[sn])
      ensures seen <= |Pending(chip[sn])|
      ensures submsg != [] ==> r == Scan(Pending(chip[sn])[..seen], submsg, 0, 0)
      ensures submsg == [] ==> r == -1
      ensures r >= 0 ==> OccursAt(Pending(chip[sn]), submsg, r)
      ensures r < 0 ==> r == -1
      ensures r == -1 && submsg != [] && chip[sn].rx.arrived == old(chip[sn].rx.arrived) ==>
                seen == |Pending(chip[sn])|
      ensures r == -1 && submsg != [] ==>
                seen >= |old(Pending(chip[sn]))| || Crossed(|old(Pending(chip[sn]))|, |Pending(chip[sn])|)
      ensures submsg != [] && (Spaced(Pending(chip[sn]), submsg) || Constant(submsg)) ==>
                && Leftmost(Pending(chip[sn])[..seen], submsg, r)
                && (r >= 0 || seen == |Pending(chip[sn])| ==> Leftmost(Pending(chip[sn]), submsg, r))
    {
      hide Inv, Linked, Clean, Drift, Grew, GoodAt, LinkedAt, IsSet, Rsr, Scan, OccursAt, Pending, OthersGood,
        PortOk, Apart, Spaced, Constant, Leftmost;
      ApartChain(chip, sn);
      ThisGood(latched, chip, H(), sn);
      ghost var s0 := chip[sn];
      var size := PendingSize(sn);
      ThisGood(latched, chip, H(), sn);
      NothingSeen(Pending(chip[sn]), submsg);
      WhereFound(Pending(chip[sn]), 0, submsg);
      PendingIsRsr(s0);
      if size == 0 || submsg == [] {
        return -1, 0;
      }
      PeekBegins(sn, s0);
      ghost var text;
      r, seen, text := PeekLoop(sn, submsg, s0, chip[sn], Pending(chip[sn]));
      FoundInPrefix(text, seen, submsg);
      WhereFound(text, seen, submsg);
    }
  }
}
