/** Sixteen-bit pointers and the ring memories they address.

    A socket buffer of the chip is a ring whose size divides 2^16.  The host and the chip
    keep free-running 16-bit pointers into it; the cell a pointer selects is the pointer
    modulo the ring size. */
module Ring {

  type byte = x: int | 0 <= x < 256

  const WORD: nat := 0x1_0000

  /** A value of a `uint16_t` variable or of a two-byte register. */
  type word = x: int | 0 <= x < 0x1_0000

  /** Buffer sizes a size register can be set to: 0, 1, 2, 4, 8 and 16 KB. */
  predicate RingSize(n: int) {
    n == 0 || n == 1024 || n == 2048 || n == 4096 || n == 8192 || n == 16384
  }

  /** The `uint16_t` value of a count. */
  function Wrap(n: int): word { n % WORD }

  /** Two bytes, the upper one first, as a number. */
  function Pair(hi: int, lo: int): int { hi * 256 + lo }

  /** `uint16_t` subtraction: how far `a` is ahead of `b`. */
  function Ahead(a: int, b: int): word {
    Wrap(a - b)
  }

  /** The ring cell of byte `i` counted from pointer `p`. */
  function Cell(p: nat, i: nat, size: nat): (c: nat)
    requires size > 0
    ensures c < size
  {
    (p + i) % size
  }

  /** The `n` bytes of ring `mem` from pointer `p` on. */
  function RingRead(mem: seq<byte>, p: nat, n: nat): (r: seq<byte>)
    requires n <= |mem|
    ensures |r| == n
  {
    seq(n, i requires 0 <= i < n => mem[Cell(p, i, |mem|)])
  }

  /** Ring `mem` after `data` has been stored from pointer `p` on. */
  function RingWrite(mem: seq<byte>, p: nat, data: seq<byte>): (r: seq<byte>)
    requires |data| <= |mem|
    ensures |r| == |mem|
  {
    seq(|mem|, j requires 0 <= j < |mem| =>
      var i := (j - p) % |mem|;
      if i < |data| then data[i] else mem[j])
  }

  lemma MulNonneg(a: int, b: int)
    requires a >= 0 && b >= 0
    ensures a * b >= 0
  {
  }

  lemma ProductGap(m: int, q: int, d: int, g: int)
    requires m * q == m * d + g && -m < g < m
    ensures g == 0
  {
    var e := q - d;
    assert m * e == m * q - m * d;
    if e > 0 {
      assert m * e == m + m * (e - 1);
      MulNonneg(m, e - 1);
    } else if e < 0 {
      assert m * -e == m + m * (-e - 1);
      MulNonneg(m, -e - 1);
    }
  }

  /** Euclidean remainders are unique. */
  lemma ModUnique(x: int, q: int, r: int, m: int)
    requires 0 <= r < m && x == m * q + r
    ensures x % m == r
  {
    var d, s := x / m, x % m;
    assert x == m * d + s && 0 <= s < m;
    ProductGap(m, q, d, s - r);
  }

  /** Counting back from a cell to the pointer gives the byte's index. */
  lemma CellBack(p: nat, i: nat, size: nat)
    requires i < size
    ensures Cell(p, i, size) < size
    ensures (Cell(p, i, size) - p) % size == i
  {
    var q := (p + i) / size;
    assert p + i == size * q + (p + i) % size;
    assert size * -q == -(size * q);
    ModUnique(Cell(p, i, size) - p, -q, i, size);
  }

  /** Bytes less than a ring apart lie in different cells. */
  lemma CellDistinct(p: nat, i: nat, j: nat, size: nat)
    requires i < j < i + size
    ensures Cell(p, i, size) != Cell(p, j, size)
  {
    CellBack(p + i, 0, size);
    CellBack(p + i, j - i, size);
    assert Cell(p + i, 0, size) == Cell(p, i, size);
    assert Cell(p + i, j - i, size) == Cell(p, j, size);
  }

  /** A pointer that has wrapped at 2^16 still selects the same cells. */
  lemma CellWrap(p: nat, i: nat, size: nat)
    requires RingSize(size) && size > 0
    ensures Cell(Wrap(p), i, size) == Cell(p, i, size)
  {
    var q, x := p / WORD, p % WORD + i;
    var d, s := x / size, x % size;
    var laps := if size == 1024 then 64 else if size == 2048 then 32
                else if size == 4096 then 16 else if size == 8192 then 8 else 4;
    assert x == size * d + s;
    assert WORD == size * laps;
    assert p + i == size * laps * q + size * d + s;
    assert size * laps * q + size * d == size * (laps * q + d);
    ModUnique(p + i, laps * q + d, s, size);
  }

  /** Two 16-bit pointers into one stream are as far apart as the stream positions. */
  lemma AheadOfOrigin(origin: nat, x: nat, y: nat)
    requires y <= x < y + WORD
    ensures Ahead(Wrap(origin + x), Wrap(origin + y)) == x - y
  {
  }

  /** Storing `data` at pointer `p` puts byte `i` in cell `p + i` and touches no other cell. */
  lemma RingWriteCells(mem: seq<byte>, p: nat, data: seq<byte>)
    requires |data| <= |mem|
    ensures forall i {:trigger Cell(p, i, |mem|)} | 0 <= i < |mem| ::
              RingWrite(mem, p, data)[Cell(p, i, |mem|)]
              == if i < |data| then data[i] else mem[Cell(p, i, |mem|)]
  {
    forall i {:trigger Cell(p, i, |mem|)} | 0 <= i < |mem|
      ensures RingWrite(mem, p, data)[Cell(p, i, |mem|)]
              == if i < |data| then data[i] else mem[Cell(p, i, |mem|)]
    {
      CellBack(p, i, |mem|);
    }
  }

  /** Reading a span back returns what was stored there, wherever the pointer stands. */
  lemma ReadBack(mem: seq<byte>, p: nat, data: seq<byte>)
    requires |data| <= |mem|
    ensures RingRead(RingWrite(mem, p, data), p, |data|) == data
  {
    RingWriteCells(mem, p, data);
  }

  lemma WrapAdd(n: int, k: int)
    ensures Wrap(Wrap(n) + k) == Wrap(n + k)
  {
  }

  lemma WrapWord(p: word)
    ensures Wrap(p) == p
  {
  }

  /** A pointer is its distance ahead of another one, added to it. */
  lemma WrapAhead(p: word, n: int)
    ensures p == Wrap(n + Ahead(p, Wrap(n)))
  {
  }

  /** Going `k` cells on from byte `n` leads to byte `i`, possibly once round the ring. */
  lemma SameCell(origin: nat, n: nat, k: nat, i: nat, size: nat)
    requires size > 0 && (n + k == i || n + k == i + size)
    ensures Cell(origin + n, k, size) == Cell(origin, i, size)
  {
    if n + k == i + size {
      var x := origin + i;
      assert x == size * (x / size) + x % size;
      assert size * (x / size + 1) == size * (x / size) + size;
      ModUnique(x + size, x / size + 1, x % size, size);
    }
  }
}
