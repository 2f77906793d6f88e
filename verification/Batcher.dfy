/** The register tests group short registers into batches: their table indices are collected
    in a fixed array until enough bytes are together. */
module Batcher {

  /** A line of the register table; `rw` is 0 for a read-only register and 2 for one that is
      written and read back. */
  datatype Register = Register(rw: nat, mask: nat, len: nat)

  /** One access: a batch of short registers, or one long register. */
  datatype Access = Interval(indices: seq<nat>) | Buffer(index: nat)

  const SAVED: nat := 16

  /** Whether a pass looks at a register. */
  predicate Picked(r: Register, writing: bool) {
    if writing then r.rw == 2 && r.mask == 0 else r.rw == 0
  }

  predicate Short(r: Register) { r.len < 4 }

  /** The indices below `n` of the short registers of a pass, in table order. */
  function Shorts(table: seq<Register>, writing: bool, n: nat): (r: seq<nat>)
    requires n <= |table|
  {
    if n == 0 then [] else
      Shorts(table, writing, n - 1)
      + if Picked(table[n - 1], writing) && Short(table[n - 1]) then [n - 1] else []
  }

  function Longs(table: seq<Register>, writing: bool, n: nat): (r: seq<nat>)
    requires n <= |table|
  {
    if n == 0 then [] else
      Longs(table, writing, n - 1)
      + if Picked(table[n - 1], writing) && !Short(table[n - 1]) then [n - 1] else []
  }

  predicate Ascending(s: seq<nat>) {
    forall i, j | 0 <= i < j < |s| :: s[i] < s[j]
  }

  lemma {:induction false} ShortsOnce(table: seq<Register>, writing: bool, n: nat)
    requires n <= |table|
    ensures Ascending(Shorts(table, writing, n))
    ensures forall i: nat ::
              i in Shorts(table, writing, n) <==> i < n && Picked(table[i], writing) && Short(table[i])
  {
    hide Picked, Short;
    if n > 0 {
      ShortsOnce(table, writing, n - 1);
      AscendingEnd(Shorts(table, writing, n - 1), n - 1);
      hide Ascending;
    }
  }

  lemma {:induction false} LongsOnce(table: seq<Register>, writing: bool, n: nat)
    requires n <= |table|
    ensures Ascending(Longs(table, writing, n))
    ensures forall i: nat ::
              i in Longs(table, writing, n) <==> i < n && Picked(table[i], writing) && !Short(table[i])
  {
    hide Picked, Short;
    if n > 0 {
      LongsOnce(table, writing, n - 1);
      AscendingEnd(Longs(table, writing, n - 1), n - 1);
      hide Ascending;
    }
  }

  /** Both lists are in table order without repetition, and together they hold exactly the
      registers of the pass. */
  lemma EachOnce(table: seq<Register>, writing: bool, n: nat)
    requires n <= |table|
    ensures Ascending(Shorts(table, writing, n)) && Ascending(Longs(table, writing, n))
    ensures forall i: nat ::
              i in Shorts(table, writing, n) <==> i < n && Picked(table[i], writing) && Short(table[i])
    ensures forall i: nat ::
              i in Longs(table, writing, n) <==> i < n && Picked(table[i], writing) && !Short(table[i])
  {
    ShortsOnce(table, writing, n);
    LongsOnce(table, writing, n);
    hide Shorts, Longs, Ascending, Picked, Short;
  }

  lemma AscendingEnd(s: seq<nat>, last: nat)
    requires Ascending(s) && forall i: nat | i in s :: i < last
    ensures Ascending(s + [last])
  {
    assert forall k | 0 <= k < |s| :: s[k] in s;
  }

  /** The short registers accessed, in order. */
  function Batched(accesses: seq<Access>): seq<nat> {
    if accesses == [] then [] else
      var last := accesses[|accesses| - 1];
      Batched(accesses[..|accesses| - 1]) + if last.Interval? then last.indices else []
  }

  /** The long registers accessed, in order. */
  function Buffered(accesses: seq<Access>): seq<nat> {
    if accesses == [] then [] else
      var last := accesses[|accesses| - 1];
      Buffered(accesses[..|accesses| - 1]) + if last.Buffer? then [last.index] else []
  }

  lemma OneMoreAccess(accesses: seq<Access>, a: Access)
    ensures Batched(accesses + [a]) == Batched(accesses) + if a.Interval? then a.indices else []
    ensures Buffered(accesses + [a]) == Buffered(accesses) + if a.Buffer? then [a.index] else []
  {
    assert (accesses + [a])[..|accesses|] == accesses;
  }

  /** The bytes of a list of registers. */
  function Bytes(table: seq<Register>, indices: seq<nat>): nat {
    if indices == [] then 0 else
      var last := indices[|indices| - 1];
      Bytes(table, indices[..|indices| - 1]) + if last < |table| then table[last].len else 0
  }

  lemma {:induction false} BytesAtLeast(table: seq<Register>, indices: seq<nat>)
    requires forall i | i in indices :: i < |table| && table[i].len > 0
    ensures |indices| <= Bytes(table, indices)
  {
    if indices != [] {
      var before, last := indices[..|indices| - 1], indices[|indices| - 1];
      assert forall i | i in before :: i in indices;
      assert last in indices;
      BytesAtLeast(table, before);
    }
  }

  lemma BytesOneMore(table: seq<Register>, indices: seq<nat>, i: nat)
    requires i < |table|
    ensures Bytes(table, indices + [i]) == Bytes(table, indices) + table[i].len
  {
    assert (indices + [i])[..|indices|] == indices;
  }

  /** What is left over when a list of registers is grouped from the front and a group ends as
      soon as it has more than 14 bytes. */
  function Rest(table: seq<Register>, indices: seq<nat>): (r: seq<nat>)
    ensures Bytes(table, r) <= 14
  {
    if indices == [] then [] else
      var more := Rest(table, indices[..|indices| - 1]) + [indices[|indices| - 1]];
      if Bytes(table, more) > 14 then [] else more
  }

  lemma RestOneMore(table: seq<Register>, indices: seq<nat>, i: nat)
    ensures var more := Rest(table, indices) + [i];
            Rest(table, indices + [i]) == if Bytes(table, more) > 14 then [] else more
  {
    assert (indices + [i])[..|indices|] == indices;
  }

  lemma RestOfNone(table: seq<Register>)
    ensures Rest(table, []) == []
  {
  }

  /** A group that its last register has brought to more than 14 bytes. */
  predicate Full(table: seq<Register>, group: seq<nat>) {
    group != [] && Bytes(table, group[..|group| - 1]) <= 14 < Bytes(table, group)
  }

  function Concat(groups: seq<seq<nat>>): seq<nat> {
    if groups == [] then [] else Concat(groups[..|groups| - 1]) + groups[|groups| - 1]
  }

  predicate AllFull(table: seq<Register>, groups: seq<seq<nat>>) {
    forall g | g in groups :: Full(table, g)
  }

  /** The beginning of a list has no more bytes than the list. */
  lemma {:induction false} BytesOfFront(table: seq<Register>, s: seq<nat>, n: nat)
    requires n <= |s|
    ensures Bytes(table, s[..n]) <= Bytes(table, s)
    decreases |s|
  {
    if n < |s| {
      BytesOfFront(table, s[..|s| - 1], n);
      assert s[..|s| - 1][..n] == s[..n];
    } else {
      assert s[..n] == s;
    }
  }

  /** A full group behind a list that leaves nothing leaves nothing. */
  lemma {:induction false} FullLeavesNothing(table: seq<Register>, front: seq<nat>, group: seq<nat>, n: nat)
    requires Rest(table, front) == [] && Full(table, group) && n <= |group|
    ensures Rest(table, front + group[..n]) == if n == |group| then [] else group[..n]
  {
    hide Rest, Bytes;
    if n > 0 {
      var before, i := group[..n - 1], group[n - 1];
      FullLeavesNothing(table, front, group, n - 1);
      RestOneMore(table, front + before, i);
      assert before + [i] == group[..n];
      assert front + before + [i] == front + group[..n];
      if n < |group| {
        BytesOfFront(table, group[..|group| - 1], n);
        assert group[..|group| - 1][..n] == group[..n];
      } else {
        assert group[..n] == group;
      }
    } else {
      assert front + group[..0] == front;
    }
  }

  lemma {:induction false} GroupsLeaveNothing(table: seq<Register>, groups: seq<seq<nat>>)
    requires AllFull(table, groups)
    ensures Rest(table, Concat(groups)) == []
  {
    RestOfNone(table);
    hide Rest, Bytes;
    if groups != [] {
      var front, last := groups[..|groups| - 1], groups[|groups| - 1];
      assert forall g | g in front :: g in groups;
      assert last in groups;
      GroupsLeaveNothing(table, front);
      FullLeavesNothing(table, Concat(front), last, |last|);
      assert last[..|last|] == last;
    }
  }

  /** A list is a part that leaves nothing, followed by what is left. */
  lemma {:induction false} RestIsEnd(table: seq<Register>, s: seq<nat>) returns (front: seq<nat>)
    ensures s == front + Rest(table, s) && Rest(table, front) == []
  {
    front := [];
    if s != [] {
      var before := RestIsEnd(table, s[..|s| - 1]);
      front := if Rest(table, s) == [] then s else before;
    }
  }

  lemma OneGroupMore(table: seq<Register>, groups: seq<seq<nat>>, group: seq<nat>)
    requires AllFull(table, groups) && Full(table, group)
    ensures AllFull(table, groups + [group]) && Concat(groups + [group]) == Concat(groups) + group
  {
    hide Full;
    assert (groups + [group])[..|groups|] == groups;
  }

  /** A register that leaves nothing behind it ends a group. */
  lemma LastGroup(table: seq<Register>, before: seq<nat>, last: nat)
    requires Rest(table, before + [last]) == []
    ensures Full(table, Rest(table, before) + [last])
  {
    RestOneMore(table, before, last);
    hide Rest, Bytes;
    assert (Rest(table, before) + [last])[..|Rest(table, before)|] == Rest(table, before);
  }

  lemma {:induction false} GroupsOf(table: seq<Register>, s: seq<nat>) returns (groups: seq<seq<nat>>)
    requires Rest(table, s) == []
    ensures Concat(groups) == s && AllFull(table, groups)
    decreases |s|
  {
    groups := [];
    if s != [] {
      hide Rest, Bytes, Full, Concat, AllFull;
      var before, last := s[..|s| - 1], s[|s| - 1];
      assert s == before + [last];
      var front := RestIsEnd(table, before);
      var rest := Rest(table, before);
      LastGroup(table, before, last);
      var g := GroupsOf(table, front);
      OneGroupMore(table, g, rest + [last]);
      groups := g + [rest + [last]];
      assert front + (rest + [last]) == front + rest + [last];
    }
  }

  /** Nothing is left over exactly when the list falls into groups that are all full. */
  lemma NothingLeft(table: seq<Register>, s: seq<nat>)
    ensures Rest(table, s) == [] <==> exists groups :: Concat(groups) == s && AllFull(table, groups)
  {
    if Rest(table, s) == [] {
      var groups := GroupsOf(table, s);
    }
    forall groups | Concat(groups) == s && AllFull(table, groups)
      ensures Rest(table, s) == []
    {
      GroupsLeaveNothing(table, groups);
    }
  }

  /** Every batch fits the array of 16 indices. */
  predicate GoodBatches(accesses: seq<Access>) {
    forall k | 0 <= k < |accesses| && accesses[k].Interval? :: 0 < |accesses[k].indices| < SAVED
  }

  predicate Known(table: seq<Register>, saved: seq<nat>) {
    forall k | k in saved :: k < |table| && table[k].len > 0
  }

  lemma KnownOneMore(table: seq<Register>, saved: seq<nat>, n: nat)
    requires Known(table, saved) && n < |table| && table[n].len > 0
    ensures Known(table, saved + [n]) && Known(table, [])
  {
  }

  lemma GoodOneMore(accesses: seq<Access>, indices: seq<nat>)
    requires GoodBatches(accesses) && 0 < |indices| < SAVED
    ensures GoodBatches(accesses + [Interval(indices)])
  {
  }

  /** What stands between a pass and the registers below `n`. */
  predicate Progress(table: seq<Register>, writing: bool, n: nat, accesses: seq<Access>, saved: seq<nat>)
    requires n <= |table|
  {
    && Batched(accesses) + saved == Shorts(table, writing, n)
    && Buffered(accesses) == Longs(table, writing, n)
    && GoodBatches(accesses)
    && Known(table, saved)
    && saved == Rest(table, Shorts(table, writing, n))
    && Bytes(table, saved) <= 14
    && (Batched(accesses) == [] || Bytes(table, Shorts(table, writing, n)) > 14)
  }

  lemma ListsStep(table: seq<Register>, writing: bool, n: nat)
    requires n < |table| && Picked(table[n], writing) && Short(table[n])
    ensures Shorts(table, writing, n + 1) == Shorts(table, writing, n) + [n]
    ensures Longs(table, writing, n + 1) == Longs(table, writing, n)
  {
  }

  /** There is room for one more index, and the lists grow by it. */
  lemma OneMore(table: seq<Register>, writing: bool, n: nat, accesses: seq<Access>, saved: seq<nat>)
    requires n < |table| && Progress(table, writing, n, accesses, saved)
    requires Picked(table[n], writing) && Short(table[n]) && table[n].len > 0
    ensures |saved| < SAVED - 1 && Bytes(table, saved + [n]) == Bytes(table, saved) + table[n].len
    ensures Batched(accesses) + (saved + [n]) == Shorts(table, writing, n + 1)
    ensures Longs(table, writing, n + 1) == Longs(table, writing, n)
    ensures Bytes(table, Shorts(table, writing, n)) <= Bytes(table, Shorts(table, writing, n + 1))
    ensures Bytes(table, saved + [n]) <= Bytes(table, Shorts(table, writing, n + 1))
    ensures Rest(table, Shorts(table, writing, n + 1))
            == if Bytes(table, saved + [n]) > 14 then [] else saved + [n]
  {
    hide Rest, Bytes, Shorts, Longs, Batched, Buffered;
    var before := Shorts(table, writing, n);
    ListsStep(table, writing, n);
    BytesAtLeast(table, saved);
    BytesOneMore(table, saved, n);
    BytesOneMore(table, before, n);
    RestOneMore(table, before, n);
    assert Batched(accesses) + (saved + [n]) == before + [n];
    BytesOfEnd(table, Batched(accesses), saved + [n]);
  }

  /** A short register is saved, or completes a batch. */
  lemma Saved(table: seq<Register>, writing: bool, n: nat, accesses: seq<Access>, saved: seq<nat>)
    requires n < |table| && Progress(table, writing, n, accesses, saved)
    requires Picked(table[n], writing) && Short(table[n]) && table[n].len > 0
    ensures var more := saved + [n];
            && |saved| < SAVED - 1 && Bytes(table, more) == Bytes(table, saved) + table[n].len
            && if Bytes(table, more) > 14 then Progress(table, writing, n + 1, accesses + [Interval(more)], [])
               else Progress(table, writing, n + 1, accesses, more)
  {
    var more := saved + [n];
    OneMore(table, writing, n, accesses, saved);
    OneMoreAccess(accesses, Interval(more));
    assert Bytes(table, []) == 0;
    KnownOneMore(table, saved, n);
    GoodOneMore(accesses, more);
    hide Bytes, Shorts, Longs, Batched, Buffered, Picked, Short, Known, GoodBatches;
    if Bytes(table, more) > 14 {
      assert Batched(accesses + [Interval(more)]) + [] == Shorts(table, writing, n + 1);
    }
  }

  /** The end of a list has no more bytes than the list. */
  lemma {:induction false} BytesOfEnd(table: seq<Register>, front: seq<nat>, end: seq<nat>)
    ensures Bytes(table, end) <= Bytes(table, front + end)
    decreases |end|
  {
    if end != [] {
      BytesOfEnd(table, front, end[..|end| - 1]);
      assert (front + end)[..|front + end| - 1] == front + end[..|end| - 1];
    }
  }

  lemma Skipped(table: seq<Register>, writing: bool, n: nat, accesses: seq<Access>, saved: seq<nat>)
    requires n < |table| && Progress(table, writing, n, accesses, saved)
    ensures !Picked(table[n], writing) ==> Progress(table, writing, n + 1, accesses, saved)
    ensures Picked(table[n], writing) && !Short(table[n]) ==>
              Progress(table, writing, n + 1, accesses + [Buffer(n)], saved)
  {
    OneMoreAccess(accesses, Buffer(n));
    assert !(Picked(table[n], writing) && Short(table[n])) ==>
             Shorts(table, writing, n + 1) == Shorts(table, writing, n);
    assert !(Picked(table[n], writing) && !Short(table[n])) ==>
             Longs(table, writing, n + 1) == Longs(table, writing, n);
    hide Bytes, Shorts, Longs, Batched, Buffered, Picked, Short;
  }

  /** One pass over the table.  The batches hold fewer than 16 indices each, and together with
      the long registers and what is `left` over they are exactly the registers of the pass,
      each once and in table order.  The writing pass flushes what is left over; the reading
      pass does not, so these registers, up to 14 bytes of them, are never read. */
  method Pass(table: seq<Register>, writing: bool) returns (accesses: seq<Access>, ghost left: seq<nat>)
    requires forall i | 0 <= i < |table| :: table[i].len > 0
    ensures Batched(accesses) + left == Shorts(table, writing, |table|)
    ensures Buffered(accesses) == Longs(table, writing, |table|)
    ensures GoodBatches(accesses)
    ensures left == if writing then [] else Rest(table, Shorts(table, writing, |table|))
    ensures Bytes(table, left) <= 14
    ensures !writing && Bytes(table, Shorts(table, writing, |table|)) <= 14 ==> Batched(accesses) == []
  {
    hide Progress, Bytes;
    var saved := new nat[SAVED];
    var index, count := 0, 0;
    accesses := [];
    NothingYet(table, writing);
    assert saved[..0] == [];
    for i := 0 to |table|
      invariant index < SAVED == saved.Length && count == Bytes(table, saved[..index])
      invariant Progress(table, writing, i, accesses, saved[..index])
    {
      Skipped(table, writing, i, accesses, saved[..index]);
      if Picked(table[i], writing) {
        if Short(table[i]) {
          ghost var before := saved[..index];
          Saved(table, writing, i, accesses, before);
          saved[index] := i;
          index := index + 1;
          count := count + table[i].len;
          assert saved[..index] == before + [i];
          if count > 14 {
            accesses := accesses + [Interval(saved[..index])];
            index, count := 0, 0;
            NothingYet(table, writing);
            assert saved[..0] == [];
          }
        } else {
          accesses := accesses + [Buffer(i)];
        }
      }
    }
    left := saved[..index];
    AtTheEnd(table, writing, accesses, left);
    if writing && index > 0 {
      accesses := accesses + [Interval(saved[..index])];
      left := [];
    }
  }

  lemma NothingYet(table: seq<Register>, writing: bool)
    ensures Progress(table, writing, 0, [], []) && Bytes(table, []) == 0
  {
  }

  lemma AtTheEnd(table: seq<Register>, writing: bool, accesses: seq<Access>, left: seq<nat>)
    requires Progress(table, writing, |table|, accesses, left) && |left| < SAVED
    ensures Batched(accesses) + left == Shorts(table, writing, |table|)
    ensures Buffered(accesses) == Longs(table, writing, |table|)
    ensures GoodBatches(accesses) && Bytes(table, left) <= 14 && Bytes(table, []) == 0
    ensures left == Rest(table, Shorts(table, writing, |table|))
    ensures Bytes(table, Shorts(table, writing, |table|)) <= 14 ==> Batched(accesses) == []
    ensures left != [] ==>
              var all := accesses + [Interval(left)];
              && GoodBatches(all) && Batched(all) + [] == Shorts(table, writing, |table|)
              && Buffered(all) == Longs(table, writing, |table|)
  {
    NothingYet(table, writing);
    hide Rest, Bytes, Shorts, Longs, Batched, Buffered, GoodBatches, Known;
    OneMoreAccess(accesses, Interval(left));
    if left != [] {
      GoodOneMore(accesses, left);
      assert Batched(accesses) + left + [] == Batched(accesses) + left;
    }
  }

  // ------------------------------------------------------- the common registers of the W6300

  const COMMON_0: seq<Register> := [
    Register(0, 0, 2), Register(0, 0, 2), Register(0, 0, 1), Register(1, 0, 1), Register(2, 129, 1),
    Register(0, 0, 2), Register(1, 0, 1), Register(0, 0, 1), Register(0, 0, 1), Register(2, 151, 1),
    Register(1, 0, 1), Register(2, 0, 1), Register(2, 0, 1)]

  const COMMON_1: seq<Register> := [
    Register(1, 0, 1), Register(2, 3, 1), Register(3, 0, 1), Register(0, 0, 1), Register(2, 31, 1),
    Register(2, 0, 2), Register(0, 0, 2), Register(3, 0, 1), Register(2, 1, 1), Register(0, 0, 1),
    Register(2, 41, 1), Register(2, 15, 1), Register(2, 15, 1)]

  const COMMON_2: seq<Register> := [
    Register(2, 55, 1), Register(2, 129, 1), Register(2, 0, 1), Register(2, 0, 1), Register(2, 0, 6),
    Register(2, 0, 2), Register(2, 0, 2), Register(2, 0, 6), Register(2, 0, 4), Register(2, 0, 4),
    Register(2, 0, 4), Register(2, 0, 16), Register(2, 0, 16)]

  const COMMON_3: seq<Register> := [
    Register(2, 0, 16), Register(2, 0, 16), Register(2, 0, 16), Register(2, 0, 4), Register(0, 0, 6),
    Register(2, 0, 2), Register(2, 0, 2), Register(0, 0, 4), Register(0, 0, 2), Register(0, 0, 16),
    Register(0, 0, 2), Register(2, 0, 2), Register(0, 0, 1)]

  const COMMON_4: seq<Register> := [
    Register(0, 0, 1), Register(0, 0, 4), Register(0, 0, 4), Register(0, 0, 16), Register(2, 31, 1),
    Register(1, 0, 1), Register(1, 0, 1), Register(1, 0, 1), Register(2, 0, 2), Register(2, 0, 1),
    Register(2, 0, 2), Register(2, 0, 1), Register(2, 0, 1)]

  function CommonTable(): (t: seq<Register>)
    ensures |t| == 65
  {
    COMMON_0 + COMMON_1 + COMMON_2 + COMMON_3 + COMMON_4
  }

  /** Between two short registers of the reading pass nothing is added. */
  lemma {:induction false} NoneBetween(table: seq<Register>, a: nat, b: nat)
    requires a <= b <= |table|
    requires forall i | a <= i < b :: !(Picked(table[i], false) && Short(table[i]))
    ensures Shorts(table, false, b) == Shorts(table, false, a)
    decreases b
  {
    if a < b {
      NoneBetween(table, a, b - 1);
    }
  }

  /** The reading pass comes to register `i` behind the `a`-th. */
  lemma NextShort(table: seq<Register>, a: nat, i: nat, rest: seq<nat>)
    requires a <= i < |table| && Picked(table[i], false) && Short(table[i])
    requires forall k | a <= k < i :: !(Picked(table[k], false) && Short(table[k]))
    requires Rest(table, Shorts(table, false, a)) == rest
    ensures var more := rest + [i];
            Rest(table, Shorts(table, false, i + 1)) == if Bytes(table, more) > 14 then [] else more
    ensures Bytes(table, rest + [i]) == Bytes(table, rest) + table[i].len && Bytes(table, []) == 0
  {
    NoneBetween(table, a, i);
    BytesOneMore(table, rest, i);
    RestOneMore(table, Shorts(table, false, i), i);
  }

  lemma CommonAt(i: nat)
    requires i < 65
    ensures CommonTable()[i]
            == if i < 13 then COMMON_0[i] else if i < 26 then COMMON_1[i - 13]
               else if i < 39 then COMMON_2[i - 26] else if i < 52 then COMMON_3[i - 39]
               else COMMON_4[i - 52]
  {
  }

  predicate ReadAsShort(i: nat) {
    i < 3 || i == 5 || i == 7 || i == 8 || i == 16 || i == 19 || i == 22 || i == 47 || i == 49 || i == 51 || i == 52
  }

  function CommonLen(i: nat): nat {
    if i == 2 || i == 7 || i == 8 || i == 16 || i == 22 || i > 50 then 1 else 2
  }

  lemma CommonShorts(i: nat)
    requires i < 65
    ensures var r := CommonTable()[i];
            && (Picked(r, false) && Short(r) <==> ReadAsShort(i)) && (ReadAsShort(i) ==> r.len == CommonLen(i))
  {
    CommonAt(i);
    hide CommonTable;
  }

  /** The reading pass comes to register `i`, with `rest` saved since register `a`. */
  lemma CommonNext(a: nat, i: nat, rest: seq<nat>, bytes: nat, more: seq<nat>)
    requires a <= i < 65 && ReadAsShort(i) && forall k: nat | a <= k < i :: !ReadAsShort(k)
    requires CommonSaved(a, rest, bytes) && more == rest + [i]
    ensures var now := bytes + CommonLen(i);
            if now > 14 then CommonSaved(i + 1, [], 0) else CommonSaved(i + 1, more, now)
  {
    hide Rest, Shorts, Bytes, CommonTable, Picked, Short, ReadAsShort;
    var t := CommonTable();
    forall k: nat | k < 65
      ensures Picked(t[k], false) && Short(t[k]) <==> ReadAsShort(k)
      ensures ReadAsShort(k) ==> t[k].len == CommonLen(k)
    {
      CommonShorts(k);
    }
    NextShort(t, a, i, rest);
  }

  predicate CommonSaved(n: nat, rest: seq<nat>, bytes: nat) {
    && n <= 65 && Rest(CommonTable(), Shorts(CommonTable(), false, n)) == rest
    && Bytes(CommonTable(), rest) == bytes
  }

  lemma CommonBegins()
    ensures CommonSaved(0, [], 0)
  {
    hide CommonTable;
    NothingYet(CommonTable(), false);
  }

  /** Of the common registers of the W6300 the reading pass never reads numbers 49, 51 and 52. */
  lemma CommonNeverRead()
    ensures Rest(CommonTable(), Shorts(CommonTable(), false, 65)) == [49, 51, 52]
  {
    hide Rest, Shorts, Bytes, CommonTable, Picked, Short, CommonSaved;
    CommonBegins();
    CommonNext(0, 0, [], 0, [0]);
    CommonNext(1, 1, [0], 2, [0, 1]);
    CommonNext(2, 2, [0, 1], 4, [0, 1, 2]);
    CommonNext(3, 5, [0, 1, 2], 5, [0, 1, 2, 5]);
    CommonNext(6, 7, [0, 1, 2, 5], 7, [0, 1, 2, 5, 7]);
    CommonNext(8, 8, [0, 1, 2, 5, 7], 8, [0, 1, 2, 5, 7, 8]);
    CommonNext(9, 16, [0, 1, 2, 5, 7, 8], 9, [0, 1, 2, 5, 7, 8, 16]);
    CommonNext(17, 19, [0, 1, 2, 5, 7, 8, 16], 10, [0, 1, 2, 5, 7, 8, 16, 19]);
    CommonNext(20, 22, [0, 1, 2, 5, 7, 8, 16, 19], 12, [0, 1, 2, 5, 7, 8, 16, 19, 22]);
    CommonNext(23, 47, [0, 1, 2, 5, 7, 8, 16, 19, 22], 13, [0, 1, 2, 5, 7, 8, 16, 19, 22, 47]);
    CommonNext(48, 49, [], 0, [49]);
    CommonNext(50, 51, [49], 2, [49, 51]);
    CommonNext(52, 52, [49, 51], 3, [49, 51, 52]);
    CommonEnds();
  }

  lemma CommonEnds()
    requires CommonSaved(53, [49, 51, 52], 4)
    ensures Rest(CommonTable(), Shorts(CommonTable(), false, 65)) == [49, 51, 52]
  {
    hide Rest, Shorts, Bytes, CommonTable, Picked, Short;
    var t := CommonTable();
    forall k: nat | 53 <= k < 65
      ensures !(Picked(t[k], false) && Short(t[k]))
    {
      CommonShorts(k);
    }
    NoneBetween(t, 53, 65);
  }
  // ----------------------------------------------------- the registers of a socket of the W6300

  const SOCKET_0: seq<Register> := [
    Register(2, 0, 1), Register(2, 3, 1), Register(3, 0, 1), Register(0, 31, 1), Register(2, 31, 1),
    Register(1, 31, 1), Register(0, 0, 1), Register(0, 7, 1), Register(2, 0, 1), Register(2, 0, 1),
    Register(2, 0, 1), Register(2, 0, 2), Register(2, 0, 2), Register(2, 0, 2), Register(2, 0, 6)]

  const SOCKET_1: seq<Register> := [
    Register(2, 0, 4), Register(2, 0, 16), Register(2, 0, 2), Register(2, 3, 1), Register(2, 0, 2),
    Register(2, 0, 1), Register(2, 0, 1), Register(2, 31, 1), Register(0, 0, 2), Register(0, 0, 2),
    Register(2, 0, 2), Register(2, 31, 1), Register(0, 0, 2), Register(2, 0, 2), Register(0, 0, 2)]

  function SocketTable(): (t: seq<Register>)
    ensures |t| == 30
  {
    SOCKET_0 + SOCKET_1
  }

  predicate SocketRead(i: nat) { i == 3 || i == 6 || i == 7 || i == 23 || i == 24 || i == 27 || i == 29 }

  lemma SocketAt(i: nat)
    requires i < 30
    ensures var r := SocketTable()[i];
            (Picked(r, false) <==> SocketRead(i)) && (SocketRead(i) ==> r.len == if i < 8 then 1 else 2)
  {
    assert SocketTable()[i] == if i < 15 then SOCKET_0[i] else SOCKET_1[i - 15];
  }

  /** The reading pass has come to register `n` without reading any; `saved` waits. */
  predicate SocketSaved(n: nat, saved: seq<nat>, bytes: nat) {
    && n <= 30 && Shorts(SocketTable(), false, n) == saved == Rest(SocketTable(), saved)
    && Longs(SocketTable(), false, n) == [] && Bytes(SocketTable(), saved) == bytes
  }

  lemma {:induction false} NoLongBetween(table: seq<Register>, a: nat, b: nat)
    requires a <= b <= |table|
    requires forall i | a <= i < b :: !(Picked(table[i], false) && !Short(table[i]))
    ensures Longs(table, false, b) == Longs(table, false, a)
    decreases b
  {
    if a < b {
      NoLongBetween(table, a, b - 1);
    }
  }

  lemma SocketNext(a: nat, i: nat, saved: seq<nat>, bytes: nat, more: seq<nat>)
    requires a <= i < 30 && SocketRead(i) && forall k: nat | a <= k < i :: !SocketRead(k)
    requires SocketSaved(a, saved, bytes) && bytes < 13 && more == saved + [i]
    ensures SocketSaved(i + 1, more, bytes + if i < 8 then 1 else 2)
  {
    hide Rest, Bytes, SocketTable, SocketRead, Picked;
    var t := SocketTable();
    forall k: nat | k < 30
      ensures Picked(t[k], false) <==> SocketRead(k)
      ensures SocketRead(k) ==> t[k].len == if k < 8 then 1 else 2
    {
      SocketAt(k);
    }
    NextShort(t, a, i, saved);
    NoneBetween(t, a, i);
    NoLongBetween(t, a, i + 1);
  }

  /** Of the registers of a socket the reading pass reads none: the seven it picks are short
      and have eleven bytes. */
  lemma SocketNeverRead()
    ensures var t := SocketTable();
            && Shorts(t, false, 30) == [3, 6, 7, 23, 24, 27, 29] && Longs(t, false, 30) == []
            && Rest(t, Shorts(t, false, 30)) == Shorts(t, false, 30) && Bytes(t, Shorts(t, false, 30)) == 11
  {
    hide Rest, Shorts, Longs, Bytes, SocketTable, SocketSaved;
    SocketBegins();
    SocketNext(0, 3, [], 0, [3]);
    SocketNext(4, 6, [3], 1, [3, 6]);
    SocketNext(7, 7, [3, 6], 2, [3, 6, 7]);
    SocketNext(8, 23, [3, 6, 7], 3, [3, 6, 7, 23]);
    SocketNext(24, 24, [3, 6, 7, 23], 5, [3, 6, 7, 23, 24]);
    SocketNext(25, 27, [3, 6, 7, 23, 24], 7, [3, 6, 7, 23, 24, 27]);
    SocketNext(28, 29, [3, 6, 7, 23, 24, 27], 9, [3, 6, 7, 23, 24, 27, 29]);
    SocketIs([3, 6, 7, 23, 24, 27, 29], 11);
  }

  lemma SocketBegins()
    ensures SocketSaved(0, [], 0)
  {
    hide SocketTable;
    NothingYet(SocketTable(), false);
  }

  lemma SocketIs(saved: seq<nat>, bytes: nat)
    requires SocketSaved(30, saved, bytes)
    ensures var t := SocketTable();
            && Shorts(t, false, 30) == saved == Rest(t, saved) && Longs(t, false, 30) == []
            && Bytes(t, saved) == bytes
  {
    hide SocketTable, Rest, Shorts, Longs, Bytes;
  }

  // --------------------------------------------------------------------------- the writing pass

  const COMMON_WRITTEN: seq<nat> := [
    11, 12, 18, 28, 29, 31, 32, 44, 45, 50, 60, 61, 62, 63, 64]
  const COMMON_LONG: seq<nat> := [
    30, 33, 34, 35, 36, 37, 38, 39, 40, 41, 42]
  const SOCKET_WRITTEN: seq<nat> := [
    0, 8, 9, 10, 11, 12, 13, 17, 19, 20, 21, 25, 28]
  const SOCKET_LONG: seq<nat> := [
    14, 15, 16]

  /** Lists in ascending order are told by their elements. */
  lemma {:induction false} AscendingSame(a: seq<nat>, b: seq<nat>)
    requires Ascending(a) && Ascending(b) && forall i: nat :: i in a <==> i in b
    ensures a == b
  {
    Inhabited(a);
    Inhabited(b);
    if a != [] {
      hide Ascending;
      var front, back := a[..|a| - 1], b[..|b| - 1];
      var x, y := a[|a| - 1], b[|b| - 1];
      assert x in a && y in b;
      LastOut(a, y);
      LastOut(b, x);
      forall i: nat
        ensures i in front <==> i in back
      {
        LastOut(a, i);
        LastOut(b, i);
      }
      AscendingSame(front, back);
      assert a == front + [x] && b == back + [y];
    }
  }

  lemma Inhabited(s: seq<nat>)
    ensures s != [] ==> exists i: nat :: i in s
  {
    if s != [] {
      assert s[0] in s;
    }
  }

  lemma LastOut(s: seq<nat>, i: nat)
    requires Ascending(s) && s != []
    ensures i in s[..|s| - 1] <==> i in s && i != s[|s| - 1]
    ensures Ascending(s[..|s| - 1]) && (i in s ==> i <= s[|s| - 1])
  {
    assert s == s[..|s| - 1] + [s[|s| - 1]];
  }

  lemma CommonWrites(i: nat)
    requires i < 65
    ensures var r := CommonTable()[i];
            && (Picked(r, true) && Short(r) <==> i in COMMON_WRITTEN)
            && (Picked(r, true) && !Short(r) <==> i in COMMON_LONG)
  {
    CommonAt(i);
    hide CommonTable;
  }

  lemma SocketWrites(i: nat)
    requires i < 30
    ensures var r := SocketTable()[i];
            && (Picked(r, true) && Short(r) <==> i in SOCKET_WRITTEN)
            && (Picked(r, true) && !Short(r) <==> i in SOCKET_LONG)
  {
    assert SocketTable()[i] == if i < 15 then SOCKET_0[i] else SOCKET_1[i - 15];
    hide SocketTable;
  }

  /** The registers of the W6300 the writing pass goes through: those that can be written and
      read back and have no mask. */
  lemma TableWritten()
    ensures Shorts(CommonTable(), true, 65) == COMMON_WRITTEN && Longs(CommonTable(), true, 65) == COMMON_LONG
    ensures Shorts(SocketTable(), true, 30) == SOCKET_WRITTEN && Longs(SocketTable(), true, 30) == SOCKET_LONG
  {
    hide Shorts, Longs, CommonTable, SocketTable, Picked, Short;
    EachOnce(CommonTable(), true, 65);
    EachOnce(SocketTable(), true, 30);
    forall i: nat | i < 65
      ensures var r := CommonTable()[i];
              && (Picked(r, true) && Short(r) <==> i in COMMON_WRITTEN)
              && (Picked(r, true) && !Short(r) <==> i in COMMON_LONG)
    {
      CommonWrites(i);
    }
    forall i: nat | i < 30
      ensures var r := SocketTable()[i];
              && (Picked(r, true) && Short(r) <==> i in SOCKET_WRITTEN)
              && (Picked(r, true) && !Short(r) <==> i in SOCKET_LONG)
    {
      SocketWrites(i);
    }
    AscendingSame(Shorts(CommonTable(), true, 65), COMMON_WRITTEN);
    AscendingSame(Longs(CommonTable(), true, 65), COMMON_LONG);
    AscendingSame(Shorts(SocketTable(), true, 30), SOCKET_WRITTEN);
    AscendingSame(Longs(SocketTable(), true, 30), SOCKET_LONG);
  }
}
