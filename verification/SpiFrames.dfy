/** What the buffer writes of three chips put on the SPI bus, and what the chip makes of it. */
module SpiFrames {
  import opened Ring

  const WRITE_OP: byte := 0xF0
  const W5200_WRITE: byte := 0x80

  /** The chips, with the two layouts the W5100S knows. */
  datatype Layout = W5100 | W5100S | W5100SAs5500 | W5200

  type Frame = seq<byte>

  /** The bytes ahead of the data of a frame that writes `len` bytes from `addr` on. */
  function Head(layout: Layout, addr: word, len: word): (h: Frame)
    ensures |h| == if layout.W5200? then 4 else 3
    ensures var opcode := h[if layout.W5100SAs5500? || layout.W5200? then 2 else 0];
            if layout.W5200? then opcode >= 0x80 else opcode == 0xF0
  {
    match layout
    case W5100 => [WRITE_OP, addr / 256, addr % 256]
    case W5100S => [WRITE_OP, addr / 256, addr % 256]
    case W5100SAs5500 => [addr / 256, addr % 256, WRITE_OP]
    case W5200 => [addr / 256, addr % 256, W5200_WRITE + len / 256 % 128, len % 256]
  }

  // ---------------------------------------------------------------------- the chip's side

  /** Bytes stored one after the other; the address wraps in sixteen bits. */
  function StoreAt(mem: seq<byte>, addr: word, data: seq<byte>): (r: seq<byte>)
    requires |mem| == WORD
    ensures |r| == WORD
    decreases |data|
  {
    if data == [] then mem else StoreAt(mem[addr := data[0]], Wrap(addr + 1), data[1..])
  }

  lemma StoreOne(mem: seq<byte>, addr: word, b: byte)
    requires |mem| == WORD
    ensures StoreAt(mem, addr, [b]) == mem[addr := b]
  {
    assert [b][1..] == [];
  }

  /** What one frame does to the memory.  A W5200 frame writes as many bytes as its length
      field says, as far as they are there; the other chips write all that follow. */
  function Decode(layout: Layout, mem: seq<byte>, f: Frame): (r: seq<byte>)
    requires |mem| == WORD
    ensures |r| == WORD
  {
    match layout
    case W5100 =>
      if |f| == 4 && f[0] == WRITE_OP then StoreAt(mem, Pair(f[1], f[2]), f[3..]) else mem
    case W5100S =>
      if |f| >= 3 && f[0] == WRITE_OP then StoreAt(mem, Pair(f[1], f[2]), f[3..]) else mem
    case W5100SAs5500 =>
      if |f| >= 3 && f[2] == WRITE_OP then StoreAt(mem, Pair(f[0], f[1]), f[3..]) else mem
    case W5200 =>
      if |f| >= 4 && f[2] >= W5200_WRITE then
        var n := Pair(f[2] % 128, f[3]);
        StoreAt(mem, Pair(f[0], f[1]), if n <= |f| - 4 then f[4..4 + n] else f[4..])
      else mem
  }

  function DecodeAll(layout: Layout, mem: seq<byte>, frames: seq<Frame>): (r: seq<byte>)
    requires |mem| == WORD
    ensures |r| == WORD
    decreases |frames|
  {
    if frames == [] then mem else DecodeAll(layout, Decode(layout, mem, frames[0]), frames[1..])
  }

  lemma DecodeNone(layout: Layout, mem: seq<byte>)
    requires |mem| == WORD
    ensures DecodeAll(layout, mem, []) == mem
  {
  }

  /** One frame more is decoded behind the others. */
  lemma {:induction false} DecodeSnoc(layout: Layout, mem: seq<byte>, frames: seq<Frame>, f: Frame)
    requires |mem| == WORD
    ensures DecodeAll(layout, mem, frames + [f]) == Decode(layout, DecodeAll(layout, mem, frames), f)
    decreases |frames|
  {
    hide Decode;
    if frames == [] {
      assert [f][1..] == [];
    } else {
      assert (frames + [f])[1..] == frames[1..] + [f];
      DecodeSnoc(layout, Decode(layout, mem, frames[0]), frames[1..], f);
    }
  }

  // ----------------------------------------------------------------------- the host's side

  /** One frame for `data`, as `WIZCHIP_WRITE` sends it for a single byte. */
  function Burst(layout: Layout, addr: word, data: seq<byte>): Frame
    requires |data| < WORD
  {
    Head(layout, addr, |data|) + data
  }

  /** The frames of one `WIZCHIP_WRITE` per byte at consecutive addresses. */
  function Singles(layout: Layout, addr: word, data: seq<byte>): (r: seq<Frame>)
    ensures |r| == |data|
    decreases |data|
  {
    if data == [] then [] else [Burst(layout, addr, data[..1])] + Singles(layout, Wrap(addr + 1), data[1..])
  }

  lemma DecodeBurst(layout: Layout, mem: seq<byte>, addr: word, data: seq<byte>)
    requires |mem| == WORD && |data| < WORD
    requires layout.W5100? ==> |data| == 1
    requires layout.W5200? ==> |data| < 0x8000
    ensures Decode(layout, mem, Burst(layout, addr, data)) == StoreAt(mem, addr, data)
  {
    if layout.W5200? {
      DecodeLong(mem, addr, data, |data|);
      assert data[..|data|] == data;
    } else {
      DecodeShort(layout, mem, addr, data);
    }
  }

  lemma DecodeShort(layout: Layout, mem: seq<byte>, addr: word, data: seq<byte>)
    requires |mem| == WORD && |data| < WORD && !layout.W5200?
    requires layout.W5100? ==> |data| == 1
    ensures Decode(layout, mem, Burst(layout, addr, data)) == StoreAt(mem, addr, data)
  {
    hide StoreAt;
    var h, f := Head(layout, addr, |data|), Burst(layout, addr, data);
    assert f[0] == h[0] && f[1] == h[1] && f[2] == h[2];
    assert f[3..] == data;
    assert Pair(addr / 256, addr % 256) == addr;
  }

  lemma DecodeLong(mem: seq<byte>, addr: word, data: seq<byte>, n: nat)
    requires |mem| == WORD && n <= |data| < WORD && n == |data| % 0x8000
    ensures Decode(W5200, mem, Burst(W5200, addr, data)) == StoreAt(mem, addr, data[..n])
  {
    hide StoreAt;
    var f, len := Burst(W5200, addr, data), |data|;
    LengthBits(len);
    assert f[0] == addr / 256 && f[1] == addr % 256 && f[2] == W5200_WRITE + len / 256 % 128 && f[3] == len % 256;
    assert Pair(f[0], f[1]) == addr;
    hide Head, Pair;
    assert f[4..4 + n] == data[..n];
  }

  /** The two length bytes of a W5200 frame hold the length in fifteen bits. */
  lemma LengthBits(len: word)
    ensures Pair((W5200_WRITE + len / 256 % 128) % 128, len % 256) == len % 0x8000
  {
    var hi := len / 256;
    assert len == 256 * hi + len % 256;
    assert hi == 128 * (hi / 128) + hi % 128;
    ModUnique(len, hi / 128, 256 * (hi % 128) + len % 256, 0x8000);
  }

  lemma {:induction false} DecodeSingles(layout: Layout, mem: seq<byte>, addr: word, data: seq<byte>)
    requires |mem| == WORD && |data| < WORD
    ensures DecodeAll(layout, mem, Singles(layout, addr, data)) == StoreAt(mem, addr, data)
    decreases |data|
  {
    if data != [] {
      var one, rest := data[..1], data[1..];
      DecodeBurst(layout, mem, addr, one);
      hide Decode, Burst;
      var after := StoreAt(mem, addr, one);
      assert after == mem[addr := data[0]];
      DecodeSingles(layout, after, Wrap(addr + 1), rest);
      assert Singles(layout, addr, data)[1..] == Singles(layout, Wrap(addr + 1), rest);
    }
  }

  /** A burst frame leaves the memory as one single write per byte does, on the W5200 for
      fewer than 2^15 bytes. */
  lemma BurstIsSingles(layout: Layout, mem: seq<byte>, addr: word, data: seq<byte>)
    requires |mem| == WORD && |data| < WORD && !layout.W5100?
    requires layout.W5200? ==> |data| < 0x8000
    ensures Decode(layout, mem, Burst(layout, addr, data))
            == DecodeAll(layout, mem, Singles(layout, addr, data))
  {
    DecodeBurst(layout, mem, addr, data);
    DecodeSingles(layout, mem, addr, data);
  }

  /** From 2^15 bytes on the W5200 is told too small a length: it stores that many bytes and
      none of the others, so a byte that differs from what stands in the memory is lost. */
  lemma LongBurstIsCut(mem: seq<byte>, addr: word, data: seq<byte>)
    requires |mem| == WORD && 0x8000 <= |data| < WORD
    ensures Decode(W5200, mem, Burst(W5200, addr, data)) == StoreAt(mem, addr, data[..|data| - 0x8000])
  {
    DecodeLong(mem, addr, data, |data| - 0x8000);
  }

  /** What has been stored: byte `i` stands `i` cells behind the address, and every cell that
      is not reached keeps its value. */
  lemma {:induction false} StoredCells(mem: seq<byte>, addr: word, data: seq<byte>, j: nat)
    requires |mem| == WORD && |data| <= WORD && j < WORD
    ensures var i := Ahead(j, addr);
            StoreAt(mem, addr, data)[j] == if i < |data| then data[i] else mem[j]
    decreases |data|
  {
    AheadStep(j, addr);
    hide Ahead, Wrap;
    if data != [] {
      StoredCells(mem[addr := data[0]], Wrap(addr + 1), data[1..], j);
    }
  }

  lemma AheadStep(j: word, addr: word)
    ensures Ahead(j, addr) == 0 <==> j == addr
    ensures Ahead(j, Wrap(addr + 1)) == if j == addr then WORD - 1 else Ahead(j, addr) - 1
  {
  }

  // --------------------------------------------------------------------------------- the bus

  /** The SPI bus; deselecting the chip ends a frame. */
  class Spi {
    var frames: seq<Frame>
    var current: Frame
    /** Whether a `_write_burst` callback is registered. */
    const hasBurst: bool

    constructor (hasBurst: bool)
      ensures frames == [] && current == [] && this.hasBurst == hasBurst
    {
      frames, current, this.hasBurst := [], [], hasBurst;
    }

    method Deselect()
      modifies this
      ensures current == [] && frames == old(frames) + (if old(current) == [] then [] else [old(current)])
    {
      if current != [] {
        frames := frames + [current];
      }
      current := [];
    }

    method WriteByte(b: byte)
      modifies `current
      ensures current == old(current) + [b]
    {
      current := current + [b];
    }

    method WriteBurst(data: seq<byte>)
      modifies `current
      ensures current == old(current) + data
    {
      current := current + data;
    }

    /** `WIZCHIP_WRITE` of every chip: one frame for one byte. */
    method WizchipWrite(layout: Layout, addr: word, b: byte)
      requires current == []
      modifies this
      ensures current == [] && frames == old(frames) + [Burst(layout, addr, [b])]
    {
      if layout.W5200? {
        WriteByte(addr / 256);
        WriteByte(addr % 256);
        WriteByte(W5200_WRITE);
        WriteByte(1);
        WriteByte(b);
      } else if layout.W5100? || !hasBurst {
        WriteByte(if layout.W5100SAs5500? then addr / 256 else WRITE_OP);
        WriteByte(if layout.W5100SAs5500? then addr % 256 else addr / 256);
        WriteByte(if layout.W5100SAs5500? then WRITE_OP else addr % 256);
        WriteByte(b);
      } else {
        WriteBurst(if layout.W5100SAs5500? then [addr / 256, addr % 256, WRITE_OP, b]
                   else [WRITE_OP, addr / 256, addr % 256, b]);
      }
      assert current == Burst(layout, addr, [b]);
      Deselect();
    }

    /** `WIZCHIP_WRITE_BUF` of the W5100: a frame for each byte. */
    method WriteBufW5100(addr: word, buf: seq<byte>)
      requires current == [] && |buf| < WORD
      modifies this
      ensures current == [] && frames == old(frames) + Singles(W5100, addr, buf)
    {
      for i := 0 to |buf|
        invariant current == [] && frames == old(frames) + Singles(W5100, addr, buf[..i])
      {
        WriteByte(WRITE_OP);
        WriteByte(Wrap(addr + i) / 256);
        WriteByte(Wrap(addr + i) % 256);
        WriteByte(buf[i]);
        assert current == Burst(W5100, Wrap(addr + i), [buf[i]]);
        Deselect();
        SinglesSnoc(W5100, addr, buf[..i], buf[i]);
        assert buf[..i] + [buf[i]] == buf[..i + 1];
      }
      assert buf[..|buf|] == buf;
    }

    /** `WIZCHIP_WRITE_BUF` of the W5100S: the same bytes whether they go out one by one or
        through the burst callback. */
    method WriteBufW5100S(as5500: bool, addr: word, buf: seq<byte>)
      requires current == [] && |buf| < WORD
      modifies this
      ensures current == [] &&
              frames == old(frames) + [Burst(if as5500 then W5100SAs5500 else W5100S, addr, buf)]
    {
      if !hasBurst {
        WriteByte(if as5500 then addr / 256 else WRITE_OP);
        WriteByte(if as5500 then addr % 256 else addr / 256);
        WriteByte(if as5500 then WRITE_OP else addr % 256);
        ghost var head := current;
        for i := 0 to |buf|
          invariant current == head + buf[..i] && frames == old(frames)
        {
          WriteByte(buf[i]);
        }
      } else {
        var spiData := if as5500 then [addr / 256, addr % 256, WRITE_OP] else [WRITE_OP, addr / 256, addr % 256];
        WriteBurst(spiData);
        WriteBurst(buf);
      }
      assert current == Burst(if as5500 then W5100SAs5500 else W5100S, addr, buf);
      Deselect();
    }

    /** `WIZCHIP_WRITE_BUF` of the W5200: the length goes ahead of the data, in fifteen bits. */
    method WriteBufW5200(addr: word, buf: seq<byte>)
      requires current == [] && |buf| < WORD
      modifies this
      ensures current == [] && frames == old(frames) + [Burst(W5200, addr, buf)]
    {
      var len := |buf|;
      WriteByte(addr / 256);
      WriteByte(addr % 256);
      WriteByte(W5200_WRITE + len / 256 % 128);
      WriteByte(len % 256);
      ghost var head := current;
      for i := 0 to len
        invariant current == head + buf[..i] && frames == old(frames)
      {
        WriteByte(buf[i]);
      }
      assert current == Burst(W5200, addr, buf);
      Deselect();
    }
  }

  lemma {:induction false} SinglesSnoc(layout: Layout, addr: word, data: seq<byte>, b: byte)
    ensures Singles(layout, addr, data + [b])
            == Singles(layout, addr, data) + [Burst(layout, Wrap(addr + |data|), [b])]
    decreases |data|
  {
    hide Burst;
    if data == [] {
      assert (data + [b])[..1] == [b];
    } else {
      assert (data + [b])[1..] == data[1..] + [b] && (data + [b])[..1] == data[..1];
      SinglesSnoc(layout, Wrap(addr + 1), data[1..], b);
      WrapAdd(addr + 1, |data| - 1);
    }
  }
}
