/** The pattern search of `peeksockmsg`: one pass over the pending bytes that starts the
    pattern again after a mismatch, without looking at the mismatching byte again. */
module PeekScan {
  import opened Ring

  /** The search from byte `i` on, with the first `k` bytes of the pattern matched. */
  function Scan(text: seq<byte>, sub: seq<byte>, i: nat, k: nat): int
    requires k < |sub|
    decreases |text| - i
  {
    if i >= |text| then -1
    else if text[i] == sub[k] then
      if k + 1 == |sub| then i - k else Scan(text, sub, i + 1, k + 1)
    else Scan(text, sub, i + 1, 0)
  }

  predicate OccursAt(text: seq<byte>, sub: seq<byte>, r: int) {
    0 <= r && r + |sub| <= |text| && text[r..r + |sub|] == sub
  }

  /** The last `k` bytes before `i` match the beginning of the pattern. */
  predicate Matched(text: seq<byte>, sub: seq<byte>, i: nat, k: nat) {
    k <= i <= |text| && k < |sub| && text[i - k..i] == sub[..k]
  }

  lemma MatchOne(text: seq<byte>, sub: seq<byte>, i: nat, k: nat)
    requires Matched(text, sub, i, k) && i < |text| && text[i] == sub[k]
    ensures text[i - k..i + 1] == sub[..k + 1]
  {
    assert text[i - k..i + 1] == text[i - k..i] + [text[i]];
    assert sub[..k + 1] == sub[..k] + [sub[k]];
  }

  /** A result is where the pattern occurs, for every text and pattern. */
  lemma {:induction false} ScanIsSound(text: seq<byte>, sub: seq<byte>, i: nat, k: nat)
    requires Matched(text, sub, i, k)
    ensures var r := Scan(text, sub, i, k); r == -1 || OccursAt(text, sub, r)
    decreases |text| - i
  {
    if i < |text| {
      if text[i] == sub[k] {
        MatchOne(text, sub, i, k);
        if k + 1 < |sub| {
          ScanIsSound(text, sub, i + 1, k + 1);
        }
      } else {
        ScanIsSound(text, sub, i + 1, 0);
      }
    }
  }

  /** Two occurrences of the first pattern byte are at least a pattern length apart. */
  predicate Spaced(text: seq<byte>, sub: seq<byte>) {
    |sub| > 0 &&
    forall i, j | 0 <= i < j < |text| && text[i] == sub[0] && text[j] == sub[0] :: i + |sub| <= j
  }

  predicate Constant(sub: seq<byte>) {
    forall i | 0 <= i < |sub| :: sub[i] == sub[0]
  }

  ghost predicate Leftmost(text: seq<byte>, sub: seq<byte>, r: int) {
    if r == -1 then forall q :: !OccursAt(text, sub, q)
    else OccursAt(text, sub, r) && forall q | q < r :: !OccursAt(text, sub, q)
  }

  /** After a mismatch nothing is lost by starting behind the mismatching byte. */
  lemma NothingSkipped(text: seq<byte>, sub: seq<byte>, i: nat, k: nat, q: int)
    requires Matched(text, sub, i, k) && i < |text| && text[i] != sub[k]
    requires Spaced(text, sub) || Constant(sub)
    requires i - k <= q <= i
    ensures !OccursAt(text, sub, q)
  {
    OccurrenceByte(text, sub, q, 0);
    OccurrenceByte(text, sub, q, i - q);
    if q != i - k {
      assert text[i - k] == text[i - k..i][0] == sub[0];
    }
  }

  lemma OccurrenceByte(text: seq<byte>, sub: seq<byte>, q: int, t: int)
    ensures OccursAt(text, sub, q) && 0 <= t < |sub| ==> text[q + t] == sub[t]
  {
    if OccursAt(text, sub, q) && 0 <= t < |sub| {
      assert text[q..q + |sub|][t] == sub[t];
    }
  }

  lemma {:induction false} ScanIsLeftmost(text: seq<byte>, sub: seq<byte>, i: nat, k: nat)
    requires Matched(text, sub, i, k) && (Spaced(text, sub) || Constant(sub))
    requires forall q | q < i - k :: !OccursAt(text, sub, q)
    ensures Leftmost(text, sub, Scan(text, sub, i, k))
    decreases |text| - i
  {
    ScanIsSound(text, sub, i, k);
    if i < |text| {
      if text[i] == sub[k] {
        MatchOne(text, sub, i, k);
        if k + 1 < |sub| {
          ScanIsLeftmost(text, sub, i + 1, k + 1);
        }
      } else {
        forall q | q < i + 1
          ensures !OccursAt(text, sub, q)
        {
          if i - k <= q {
            NothingSkipped(text, sub, i, k, q);
          }
        }
        ScanIsLeftmost(text, sub, i + 1, 0);
      }
    }
  }

  /** Whatever is pending: the result is the leftmost occurrence, and -1 means none, when the
      first pattern byte never recurs within a pattern length. */
  lemma SpacedIsLeftmost(text: seq<byte>, sub: seq<byte>)
    requires Spaced(text, sub)
    ensures Leftmost(text, sub, Scan(text, sub, 0, 0))
  {
    ScanIsLeftmost(text, sub, 0, 0);
  }

  /** While the pattern bytes keep matching the search advances through them. */
  lemma {:induction false} ScanRun(text: seq<byte>, sub: seq<byte>, i: nat, k: nat, n: nat)
    requires k + n < |sub| && i + n <= |text| && text[i..i + n] == sub[k..k + n]
    ensures Scan(text, sub, i, k) == Scan(text, sub, i + n, k + n)
    decreases n
  {
    if n > 0 {
      assert text[i] == text[i..i + n][0] == sub[k..k + n][0] == sub[k];
      assert text[i + 1..i + n] == text[i..i + n][1..] == sub[k..k + n][1..] == sub[k + 1..k + n];
      ScanRun(text, sub, i + 1, k + 1, n - 1);
    }
  }

  /** Too few bytes are left to complete the pattern. */
  lemma {:induction false} ScanTooShort(text: seq<byte>, sub: seq<byte>, i: nat, k: nat)
    requires k < |sub| && i <= |text| && |text| - i + k < |sub|
    ensures Scan(text, sub, i, k) == -1
    decreases |text| - i
  {
    if i < |text| {
      if text[i] == sub[k] {
        ScanTooShort(text, sub, i + 1, k + 1);
      } else {
        ScanTooShort(text, sub, i + 1, 0);
      }
    }
  }

  /** A pattern with two different bytes is missed behind one extra copy of its first byte. */
  lemma VariedPatternIsMissed(sub: seq<byte>)
    requires |sub| > 0 && !Constant(sub)
    ensures OccursAt([sub[0]] + sub, sub, 1) && Scan([sub[0]] + sub, sub, 0, 0) == -1
  {
    var text := [sub[0]] + sub;
    assert text[1..] == sub;
    var j :| 0 <= j < |sub| && sub[j] != sub[0];
    var d := FirstChange(sub, j);
    // The text starts with d + 1 copies of the first byte, the pattern with d of them.
    assert text[..d] == sub[..d];
    ScanRun(text, sub, 0, 0, d);
    assert text[d] == sub[d - 1] == sub[0];
    ScanTooShort(text, sub, d + 1, 0);
  }

  /** The first byte that differs from byte 0. */
  lemma {:induction false} FirstChange(sub: seq<byte>, j: nat) returns (d: nat)
    requires j < |sub| && sub[j] != sub[0]
    ensures 0 < d <= j && sub[d] != sub[0]
    ensures forall i | 0 <= i < d :: sub[i] == sub[0]
  {
    if i :| 0 <= i < j && sub[i] != sub[0] {
      d := FirstChange(sub, i);
    } else {
      d := j;
    }
  }

  /** The search finds the leftmost occurrence in every text exactly when all bytes of the
      pattern are the same. */
  lemma CompleteIffConstant(sub: seq<byte>)
    requires |sub| > 0
    ensures (forall text: seq<byte> :: Leftmost(text, sub, Scan(text, sub, 0, 0))) <==> Constant(sub)
  {
    if Constant(sub) {
      forall text: seq<byte>
        ensures Leftmost(text, sub, Scan(text, sub, 0, 0))
      {
        ScanIsLeftmost(text, sub, 0, 0);
      }
    } else {
      VariedPatternIsMissed(sub);
      var text := [sub[0]] + sub;
      assert !Leftmost(text, sub, Scan(text, sub, 0, 0));
    }
  }

  /** Having read `pre`, the search stands at `k` matched bytes, whatever follows. */
  ghost predicate Tracks(pre: seq<byte>, sub: seq<byte>, k: nat) {
    k < |sub| && forall t: seq<byte> | pre <= t :: Scan(t, sub, 0, 0) == Scan(t, sub, |pre|, k)
  }

  lemma TracksStep(pre: seq<byte>, b: byte, sub: seq<byte>, k: nat)
    requires Tracks(pre, sub, k)
    ensures b != sub[k] ==> Tracks(pre + [b], sub, 0)
    ensures b == sub[k] && k + 1 < |sub| ==> Tracks(pre + [b], sub, k + 1)
    ensures b == sub[k] && k + 1 == |sub| ==> Scan(pre + [b], sub, 0, 0) == |pre| - k
    ensures Scan(pre, sub, 0, 0) == -1
  {
    forall t: seq<byte> | pre + [b] <= t
      ensures Scan(t, sub, 0, 0) == Scan(t, sub, |pre|, k) && t[|pre|] == b
    {
      assert pre <= t;
    }
    assert Scan(pre, sub, 0, 0) == Scan(pre, sub, |pre|, k);
    if b == sub[k] && k + 1 == |sub| {
      assert pre + [b] <= pre + [b];
    }
  }

  /** The search of a text that is a prefix of what is pending finds only what is pending. */
  lemma FoundInPrefix(text: seq<byte>, n: nat, sub: seq<byte>)
    requires n <= |text| && |sub| > 0
    ensures var r := Scan(text[..n], sub, 0, 0); r == -1 || OccursAt(text, sub, r)
  {
    var r := Scan(text[..n], sub, 0, 0);
    ScanIsSound(text[..n], sub, 0, 0);
    if r != -1 {
      assert text[..n][r..r + |sub|] == text[r..r + |sub|];
    }
  }

  /** A pattern for which the search is complete is found leftmost in the whole text, if it is
      found in the part that has been searched or that part is the whole. */
  lemma LeftmostInPrefix(text: seq<byte>, n: nat, sub: seq<byte>)
    requires n <= |text| && |sub| > 0 && (Spaced(text, sub) || Constant(sub))
    ensures var r := Scan(text[..n], sub, 0, 0);
            Leftmost(text[..n], sub, r) && (r != -1 || n == |text| ==> Leftmost(text, sub, r))
  {
    var pre := text[..n];
    var r := Scan(pre, sub, 0, 0);
    ScanIsLeftmost(pre, sub, 0, 0);
    hide Scan;
    if r != -1 {
      forall q | q < r
        ensures !OccursAt(text, sub, q)
      {
        assert OccursAt(text, sub, q) ==> OccursAt(pre, sub, q) by {
          if OccursAt(text, sub, q) {
            assert text[..n][q..q + |sub|] == text[q..q + |sub|];
          }
        }
      }
      FoundInPrefix(text, n, sub);
    } else if n == |text| {
      assert pre == text;
    }
  }

  /** The first `i` bytes of a text that may still grow have been searched. */
  ghost predicate Searched(text: seq<byte>, i: nat, sub: seq<byte>, k: nat) {
    k <= i <= |text| && k < |sub| && Tracks(text[..i], sub, k)
  }

  lemma SearchStarts(text: seq<byte>, sub: seq<byte>)
    requires sub != []
    ensures Searched(text, 0, sub, 0)
  {
  }

  /** The text has grown and its next byte has been looked at. */
  lemma SearchStep(text: seq<byte>, more: seq<byte>, i: nat, sub: seq<byte>, k: nat)
    requires Searched(text, i, sub, k) && text <= more && i < |text|
    ensures more[i] != sub[k] ==> Searched(more, i + 1, sub, 0)
    ensures more[i] == sub[k] && k + 1 < |sub| ==> Searched(more, i + 1, sub, k + 1)
    ensures more[i] == sub[k] && k + 1 == |sub| ==> Scan(more[..i + 1], sub, 0, 0) == i - k
  {
    assert more[..i] == text[..i] && more[..i + 1] == more[..i] + [more[i]];
    TracksStep(more[..i], more[i], sub, k);
    hide Scan, Tracks;
  }

  lemma SearchGrows(text: seq<byte>, more: seq<byte>, i: nat, sub: seq<byte>, k: nat)
    requires Searched(text, i, sub, k) && text <= more
    ensures Searched(more, i, sub, k) && Scan(more[..i], sub, 0, 0) == -1
  {
    assert more[..i] == text[..i];
    TracksStep(more[..i], 0, sub, k);
    hide Scan, Tracks;
  }
}
