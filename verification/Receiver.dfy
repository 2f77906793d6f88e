/** A client of the datagram half of the socket API that puts the packets together again. */
module Receiver {
  import opened Ring
  import opened Chip
  import opened SocketApi
  import opened Bits
  import opened SocketRings

  /** A call of the client: `recvfrom` with a buffer of `len` bytes, or `sendto`. */
  datatype Call =
    | Fetch(len: nat)
    | Reply(buf: seq<byte>, addr: seq<byte>, port: word, addrlen: byte)

  predicate Acceptable(c: Call) {
    c.Reply? ==> |c.buf| < WORD && (c.addrlen == 4 || c.addrlen == 16 ==> |c.addr| == c.addrlen)
  }

  /** What has come of a packet: the address and port of the first call, and all the parts. */
  datatype Reception = Reception(addr: seq<byte>, port: word, parts: seq<seq<byte>>)

  function Joined(parts: seq<seq<byte>>): seq<byte> {
    if parts == [] then [] else Joined(parts[..|parts| - 1]) + parts[|parts| - 1]
  }

  /** Everything of packet `p` has come but the last `left` bytes of its payload. */
  predicate Shows(r: Reception, mode: byte, p: Packet, left: nat) {
    && left <= |p.payload| && Joined(r.parts) == p.payload[..|p.payload| - left]
    && r.addr == p.addr && r.port == if HasPort(mode) then p.port else 0
  }

  /** The receptions are the packets from the `k`-th on, one for one and each of them whole. */
  predicate Whole(rs: seq<Reception>, mode: byte, packets: seq<Packet>, k: nat) {
    forall i | 0 <= i < |rs| :: k + i < |packets| && Shows(rs[i], mode, packets[k + i], 0)
  }

  /** Between two calls: if the driver is inside a packet, `part` is what has come of it. */
  ghost predicate Collecting(d: Driver, sn: nat, part: Reception)
    reads d
  {
    && d.Valid() && sn < SOCKETS == |d.chip| == |d.log| == |d.sockRemainedSize| && IsDatagram(d.chip[sn].kind)
    && var k, left := |d.log[sn].done|, d.sockRemainedSize[sn];
    && (left > 0 ==> k < |d.chip[sn].packets| && Shows(part, d.chip[sn].kind, d.chip[sn].packets[k], left))
  }

  lemma JoinedMore(parts: seq<seq<byte>>, data: seq<byte>)
    ensures Joined(parts + [data]) == Joined(parts) + data
  {
    assert (parts + [data])[..|parts|] == parts;
  }

  /** The next fragment of the packet shows that much more of it. */
  lemma ShowsMore(r: Reception, mode: byte, p: Packet, from: int, len: nat, data: seq<byte>, left: nat)
    requires IsFragment(p, from, len, data, left) && Shows(r, mode, p, |p.payload| - from)
    ensures Shows(r.(parts := r.parts + [data]), mode, p, left)
  {
    JoinedMore(r.parts, data);
    assert p.payload[..from] + p.payload[from..from + |data|] == p.payload[..from + |data|];
  }

  /** The parts of all receptions together. */
  function Parts(rs: seq<Reception>): nat {
    if rs == [] then 0 else Parts(rs[..|rs| - 1]) + |rs[|rs| - 1].parts|
  }

  /** The parts of the packet inside which the driver is. */
  function Open(left: nat, part: Reception): nat {
    if left > 0 then |part.parts| else 0
  }

  function Fetches(calls: seq<Call>): nat {
    if calls == [] then 0 else Fetches(calls[..|calls| - 1]) + if calls[|calls| - 1].Fetch? then 1 else 0
  }

  /** One `recvfrom`, with both pointers given.  `got` says that it returned a part; if it did not
      although the socket is open, the socket is non-blocking and nothing was found pending. */
  method FetchOnce(d: Driver, sn: nat, len: nat, part: Reception)
    returns (r: Ret, got: bool, whole: seq<Reception>, next: Reception)
    requires Collecting(d, sn, part)
    modifies d
    ensures Apart(old(d.chip), d.chip, sn)
    ensures Isolated(old(d.H()), d.H(), sn) && d.Others(sn)
    ensures |d.chip| == |d.log| == SOCKETS && d.chip[sn].kind == old(d.chip[sn].kind)
    ensures old(d.chip[sn].packets) <= d.chip[sn].packets
    ensures Whole(whole, d.chip[sn].kind, d.chip[sn].packets, |old(d.log[sn].done)|)
    ensures r.Done? ==> Collecting(d, sn, next) && |d.log[sn].done| == |old(d.log[sn].done)| + |whole|
    ensures r.Done? && old(d.chip[sn].sr) == Closed ==> d.chip[sn].sr == Closed
    ensures IsSet(d.sockIoMode, sn) ==> old(IsSet(d.sockIoMode, sn))
    ensures r.Done? && !got && d.chip[sn].sr != Closed ==>
              && old(IsSet(d.sockIoMode, sn)) && old(d.sockRemainedSize[sn]) == 0
              && (|| old(Rsr(d.chip[sn].rx)) == 0
                  || Crossed(old(Rsr(d.chip[sn].rx)), Rsr(d.chip[sn].rx)))
    ensures r.Done? ==>
              Parts(whole) + Open(d.sockRemainedSize[sn], next)
              == Open(old(d.sockRemainedSize[sn]), part) + if got then 1 else 0
    ensures r.Running? ==> d.script == []
  {
    hide Inv, PortOk, Isolated, OthersGood, Apart, Crossed, Settled, LinkedAt, IsFragment, IsSet;
    ChipLength(d.latched, d.chip, d.H(), SOCKETS);
    whole, next := [], part;
    ghost var k, left, mode := |d.log[sn].done|, d.sockRemainedSize[sn], d.chip[sn].kind;
    var first := d.sockRemainedSize[sn] == 0;
    var data, addr, port;
    r, data, addr, port, got := d.RecvFrom(sn, len, true, true);
    ChipLength(d.latched, d.chip, d.H(), sn);
    if got {
      ghost var p := d.chip[sn].packets[k];
      next := if first then Reception(addr, port, []) else part;
      ShowsMore(next, mode, p, if left == 0 then 0 else |p.payload| - left, len, data, d.sockRemainedSize[sn]);
      next := next.(parts := next.parts + [data]);
      whole := if d.sockRemainedSize[sn] == 0 then [next] else [];
      assert [next][..0] == [];
    }
  }

  lemma {:induction false} PartsMore(rs: seq<Reception>, more: seq<Reception>)
    ensures Parts(rs + more) == Parts(rs) + Parts(more)
  {
    if more == [] {
      assert rs + more == rs;
    } else {
      var front, last := more[..|more| - 1], more[|more| - 1];
      PartsMore(rs, front);
      assert (rs + more)[..|rs + more| - 1] == rs + front;
    }
  }

  lemma OneFetchMore(calls: seq<Call>, i: nat)
    requires i < |calls|
    ensures Fetches(calls[..i + 1]) == Fetches(calls[..i]) + if calls[i].Fetch? then 1 else 0
  {
    assert calls[..i + 1][..i] == calls[..i];
  }

  lemma WholeMore(rs: seq<Reception>, more: seq<Reception>, mode: byte, packets: seq<Packet>,
                  packets': seq<Packet>, k: nat)
    requires Whole(rs, mode, packets, k) && packets <= packets' && Whole(more, mode, packets', k + |rs|)
    ensures Whole(rs + more, mode, packets', k)
  {
    hide Shows;
    forall i | 0 <= i < |rs + more|
      ensures k + i < |packets'| && Shows((rs + more)[i], mode, packets'[k + i], 0)
    {
      if i < |rs| {
        assert Shows(rs[i], mode, packets[k + i], 0);
      } else {
        var j := i - |rs|;
        assert Shows(more[j], mode, packets'[k + |rs| + j], 0);
      }
    }
  }

  /** One `sendto`: it does not disturb a packet that is being read. */
  method ReplyOnce(d: Driver, sn: nat, c: Call, ghost part: Reception) returns (r: Ret)
    requires Collecting(d, sn, part) && c.Reply? && Acceptable(c)
    modifies d
    ensures Apart(old(d.chip), d.chip, sn)
    ensures Isolated(old(d.H()), d.H(), sn) && d.Others(sn)
    ensures |d.chip| == |d.log| == SOCKETS && d.chip[sn].kind == old(d.chip[sn].kind)
    ensures old(d.chip[sn].packets) <= d.chip[sn].packets
    ensures r.Done? ==> Collecting(d, sn, part) && d.log[sn].done == old(d.log[sn].done)
    ensures r.Done? ==> d.chip[sn].sr == old(d.chip[sn].sr)
    ensures d.sockIoMode == old(d.sockIoMode) && d.sockRemainedSize == old(d.sockRemainedSize)
    ensures r.Running? ==> d.script == []
  {
    hide Inv, PortOk, Isolated, OthersGood, Apart, Crossed, Settled, LinkedAt, Shows;
    var sent;
    ghost var seen;
    r, sent, seen := d.SendTo(sn, c.buf, c.addr, c.port, c.addrlen);
    ChipLength(d.latched, d.chip, d.H(), sn);
  }

  /** Any calls in any order and for every behaviour of the chip: the receptions completed are
      the packets that come next, each with its address, its port and its whole payload, and
      what has come of the packet after them is all of it but what remains.  While the socket
      stays open every `recvfrom` brings one part, but for the `empty` ones of a non-blocking
      socket that find nothing. */
  method Collect(d: Driver, sn: nat, calls: seq<Call>, begun: Reception)
    returns (r: Ret, whole: seq<Reception>, part: Reception, empty: nat)
    requires Collecting(d, sn, begun) && forall c | c in calls :: Acceptable(c)
    modifies d
    ensures Apart(old(d.chip), d.chip, sn)
    ensures Isolated(old(d.H()), d.H(), sn) && d.Others(sn)
    ensures |d.chip| == |d.log| == SOCKETS && d.chip[sn].kind == old(d.chip[sn].kind)
    ensures old(d.chip[sn].packets) <= d.chip[sn].packets
    ensures Whole(whole, d.chip[sn].kind, d.chip[sn].packets, |old(d.log[sn].done)|)
    ensures r.Done? ==> Collecting(d, sn, part) && |d.log[sn].done| == |old(d.log[sn].done)| + |whole|
    ensures r.Done? && d.chip[sn].sr != Closed ==>
              && Parts(whole) + Open(d.sockRemainedSize[sn], part) + empty
                 == Open(old(d.sockRemainedSize[sn]), begun) + Fetches(calls)
              && (!old(IsSet(d.sockIoMode, sn)) ==> empty == 0)
    ensures r.Running? ==> d.script == []
  {
    hide Inv, PortOk, Isolated, OthersGood, Apart, Crossed, Settled, LinkedAt, Shows, IsSet;
    ApartChain(d.chip, sn);
    ghost var h, k := d.H(), |d.log[sn].done|;
    NothingChanged(h, sn);
    ThisGood(d.latched, d.chip, h, sn);
    whole, part, empty := [], begun, 0;
    for i := 0 to |calls|
      invariant Apart(old(d.chip), d.chip, sn)
      invariant Collecting(d, sn, part) && d.Others(sn) && Isolated(h, d.H(), sn)
      invariant d.chip[sn].kind == old(d.chip[sn].kind) && old(d.chip[sn].packets) <= d.chip[sn].packets
      invariant Whole(whole, d.chip[sn].kind, d.chip[sn].packets, k) && |d.log[sn].done| == k + |whole|
      invariant IsSet(d.sockIoMode, sn) ==> old(IsSet(d.sockIoMode, sn))
      invariant d.chip[sn].sr != Closed ==>
                  && Parts(whole) + Open(d.sockRemainedSize[sn], part) + empty
                     == Open(old(d.sockRemainedSize[sn]), begun) + Fetches(calls[..i])
                  && (!old(IsSet(d.sockIoMode, sn)) ==> empty == 0)
    {
      ghost var h1, packets := d.H(), d.chip[sn].packets;
      OneFetchMore(calls, i);
      var got, more := false, [];
      if calls[i].Fetch? {
        r, got, more, part := FetchOnce(d, sn, calls[i].len, part);
        empty := if got then empty else empty + 1;
      } else {
        r := ReplyOnce(d, sn, calls[i], part);
      }
      IsolatedTransitive(h, h1, d.H(), sn);
      WholeMore(whole, more, d.chip[sn].kind, packets, d.chip[sn].packets, k);
      PartsMore(whole, more);
      whole := whole + more;
      if r.Running? {
        return;
      }
    }
    assert calls[..|calls|] == calls;
    r := Done(|calls|);
  }
}
