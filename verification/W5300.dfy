/** The W5300 moves data through sixteen-bit FIFO registers and keeps two size registers in
    one word. */
module W5300 {
  import opened DoubleRead
  import opened Options
  import opened Ring
  import opened Bits

  const SOCKETS: nat := 8

  /** The words that carry `data`; the byte behind an odd number of bytes is `pad`. */
  function Pack(data: seq<byte>, pad: byte): (r: seq<word>)
    ensures |r| == (|data| + 1) / 2
  {
    if data == [] then []
    else if |data| == 1 then [Pair(data[0], pad)]
    else [Pair(data[0], data[1])] + Pack(data[2..], pad)
  }

  /** The first `len` bytes of the words. */
  function Unpack(words: seq<word>, len: nat): (r: seq<byte>)
    requires len <= 2 * |words|
    ensures |r| == len
  {
    seq(len, i requires 0 <= i < len => if i % 2 == 0 then words[i / 2] / 256 else words[i / 2] % 256)
  }

  lemma {:induction false} PackedWord(data: seq<byte>, pad: byte, k: nat)
    requires 2 * k < |data|
    ensures Pack(data, pad)[k] == Pair(data[2 * k], if 2 * k + 1 < |data| then data[2 * k + 1] else pad)
    decreases |data|
  {
    if k > 0 {
      PackedWord(data[2..], pad, k - 1);
    }
  }

  lemma PairParts(hi: byte, lo: byte)
    ensures 0 <= Pair(hi, lo) < WORD && Pair(hi, lo) / 256 == hi && Pair(hi, lo) % 256 == lo
  {
  }

  /** Byte `i` is half of word `i / 2`. */
  lemma PackedByte(data: seq<byte>, pad: byte, i: nat)
    requires i < |data|
    ensures data[i] == if i % 2 == 0 then Pack(data, pad)[i / 2] / 256 else Pack(data, pad)[i / 2] % 256
  {
    var k := i / 2;
    assert i == 2 * k + i % 2;
    PackedWord(data, pad, k);
    hide Pack, Pair;
    PairParts(data[2 * k], if 2 * k + 1 < |data| then data[2 * k + 1] else pad);
  }

  /** Taking the words apart again gives back the bytes, for every length. */
  lemma UnpackPack(data: seq<byte>, pad: byte)
    ensures Unpack(Pack(data, pad), |data|) == data
    ensures |data| % 2 == 1 ==> Pack(data, pad)[|data| / 2] % 256 == pad
  {
    hide Pack, Pair;
    forall i | 0 <= i < |data|
      ensures Unpack(Pack(data, pad), |data|)[i] == data[i]
    {
      PackedByte(data, pad, i);
    }
    if |data| % 2 == 1 {
      PackedWord(data, pad, |data| / 2);
      PairParts(data[|data| - 1], pad);
    }
  }

  lemma {:induction false} PackSnoc(data: seq<byte>, i: nat, pad: byte)
    requires i % 2 == 0 && i < |data|
    ensures var end := if i + 2 <= |data| then i + 2 else |data|;
            Pack(data[..end], pad)
            == Pack(data[..i], pad) + [Pair(data[i], if i + 1 < |data| then data[i + 1] else pad)]
    decreases i
  {
    var end := if i + 2 <= |data| then i + 2 else |data|;
    if i > 0 {
      PackSnoc(data[2..], i - 2, pad);
      assert data[2..][..i - 2] == data[..i][2..];
      assert data[2..][..end - 2] == data[..end][2..];
    } else {
      assert data[..0] == [];
    }
  }

  lemma UnpackSnoc(words: seq<word>, i: nat)
    requires i < 2 * |words|
    ensures Unpack(words, i + 1)
            == Unpack(words, i) + [if i % 2 == 0 then words[i / 2] / 256 else words[i / 2] % 256]
  {
  }

  lemma UnpackPrefix(words: seq<word>, n: nat, len: nat)
    requires n <= |words| && len <= 2 * n
    ensures Unpack(words[..n], len) == Unpack(words, len)
  {
  }

  /** One byte, if `sock_pack_info & 0x02` says so. */
  function KeptBack(packInfo: byte): (k: nat)
    ensures k == if And(packInfo, 0x02) != 0 then 1 else 0
  {
    SecondBit(packInfo);
    if packInfo / 2 % 2 == 1 then 1 else 0
  }

  lemma SecondBit(a: nat)
    ensures And(a, 0x02) != 0 <==> a / 2 % 2 == 1
  {
    AndHalves(a, 2);
    AndHalves(a / 2, 1);
    AndZero(a / 2 / 2);
  }

  /** `getSn_RX_RSR`: the repeated reading, and one byte more when `packInfo` says that a byte
      of the last word has been kept back. */
  method GetRxRsr(values: seq<nat>, packInfo: byte) returns (r: Option<nat>, used: nat)
    requires Growing(values)
    ensures r.Some? && (forall i | 0 <= i < |values| :: values[i] <= 0x1_0000) ==>
              r.value >= KeptBack(packInfo) && WasTrue(values, used, r.value - KeptBack(packInfo))
    ensures r.Some? && 2 <= used <= |values| && values[0] == values[used - 1] < 0xFFFF_FFFF ==>
              r.value == values[0] + KeptBack(packInfo)
    ensures r.Some? ==> 2 <= used <= |values|
    ensures r.Some? ==>
              var first := if used < 4 then 1 else Reading(values, used - 4, 0x1_0000);
              && r.value == (first + KeptBack(packInfo)) % 0x1_0000_0000
              && Reading(values, used - 2, 0x1_0000) == first
    ensures r.None? ==> |values| < 4 * (Growth(values) + 1)
  {
    hide Reading, WasTrue, Crosses;
    r, used := ReadRepeated(values, 0x1_0000, 1);
    if forall i | 0 <= i < |values| :: values[i] <= 0x1_0000 {
      NeverCrosses(values, 0x1_0000, 1);
    }
    if r.Some? {
      r := Some((r.value + KeptBack(packInfo)) % 0x1_0000_0000);
    }
  }

  class Chip {
    /** TMS01R to TMS67R and RMS01R to RMS67R. */
    var tms: seq<word>
    var rms: seq<word>
    /** What has gone through the transmit FIFO of a socket, and what waits in its receive
        FIFO. */
    var txFifo: seq<word>
    var rxFifo: seq<word>
    var sockRemainedByte: byte

    constructor ()
      ensures Valid() && txFifo == [] && rxFifo == []
    {
      tms, rms := [0, 0, 0, 0], [0, 0, 0, 0];
      txFifo, rxFifo, sockRemainedByte := [], [], 0;
    }

    ghost predicate Valid()
      reads this
    {
      |tms| == |rms| == SOCKETS / 2
    }

    /** `getTMSR` */
    function GetTmsr(sn: nat): byte
      requires Valid() && sn < SOCKETS
      reads this
    {
      if sn % 2 == 1 then tms[sn / 2] % 256 else tms[sn / 2] / 256
    }

    /** `setTMSR`: the size of one socket reads back as written, and every other socket keeps
        its size, the neighbour in the same word included. */
    method SetTmsr(sn: nat, tmsr: byte)
      requires Valid() && sn < SOCKETS
      modifies `tms
      ensures Valid() && GetTmsr(sn) == tmsr
      ensures forall k: nat | k < SOCKETS && k != sn :: GetTmsr(k) == old(GetTmsr(k))
    {
      var tmem := tms[sn / 2];
      if sn % 2 == 1 {
        tmem := tmem - tmem % 256 + tmsr;
      } else {
        tmem := tmem % 256 + tmsr * 256;
      }
      tms := tms[sn / 2 := tmem];
    }

    /** `getRMSR` */
    function GetRmsr(sn: nat): byte
      requires Valid() && sn < SOCKETS
      reads this
    {
      if sn % 2 == 1 then rms[sn / 2] % 256 else rms[sn / 2] / 256
    }

    /** `setRMSR` */
    method SetRmsr(sn: nat, rmsr: byte)
      requires Valid() && sn < SOCKETS
      modifies `rms
      ensures Valid() && GetRmsr(sn) == rmsr
      ensures forall k: nat | k < SOCKETS && k != sn :: GetRmsr(k) == old(GetRmsr(k))
    {
      var rmem := rms[sn / 2];
      if sn % 2 == 1 {
        rmem := rmem - rmem % 256 + rmsr;
      } else {
        rmem := rmem % 256 + rmsr * 256;
      }
      rms := rms[sn / 2 := rmem];
    }

    /** `wiz_send_data`; `behind` is the byte that follows the caller's in memory. */
    method WizSendData(wizdata: seq<byte>, behind: byte)
      modifies `txFifo
      ensures txFifo == old(txFifo) + Pack(wizdata, behind)
    {
      var i := 0;
      while i < |wizdata|
        invariant i % 2 == 0 && i <= |wizdata| + 1
        invariant txFifo == old(txFifo) + Pack(wizdata[..if i <= |wizdata| then i else |wizdata|], behind)
      {
        PackSnoc(wizdata, i, behind);
        txFifo := txFifo + [Pair(wizdata[i], if i + 1 < |wizdata| then wizdata[i + 1] else behind)];
        i := i + 2;
      }
      assert wizdata[..|wizdata|] == wizdata;
    }

    /** `wiz_recv_data`: the bytes of the next words; of a word that is used by half the other
        byte is kept. */
    method WizRecvData(len: nat) returns (wizdata: seq<byte>)
      requires (len + 1) / 2 <= |rxFifo|
      modifies `rxFifo, `sockRemainedByte
      ensures rxFifo == old(rxFifo)[(len + 1) / 2..]
      ensures wizdata == Unpack(old(rxFifo)[..(len + 1) / 2], len)
      ensures len == 0 ==> sockRemainedByte == old(sockRemainedByte)
      ensures len > 0 ==> sockRemainedByte == old(rxFifo)[(len - 1) / 2] % 256
    {
      wizdata := [];
      if len == 0 {
        return;
      }
      hide Unpack;
      var rd: word := 0;
      ghost var words, used := rxFifo, 0;
      UnpackPrefix(words, (len + 1) / 2, len);
      for i := 0 to len
        invariant |wizdata| == i && used == (i + 1) / 2 <= |words| && rxFifo == words[used..]
        invariant used > 0 ==> rd == words[used - 1]
        invariant wizdata == Unpack(words, i)
      {
        UnpackSnoc(words, i);
        if i % 2 == 0 {
          assert i / 2 == used && (i + 2) / 2 == used + 1;
          rd := rxFifo[0];
          rxFifo := rxFifo[1..];
          wizdata := wizdata + [rd / 256];
          used := used + 1;
        } else {
          assert i / 2 == used - 1 && (i + 2) / 2 == used;
          wizdata := wizdata + [rd % 256];
        }
      }
      assert (len - 1) / 2 == used - 1;
      sockRemainedByte := rd % 256;
    }
  }
}
