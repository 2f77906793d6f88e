/** Decimal numbers as `printf("%d")` writes them and `atoi` reads them, and texts cut at a
    separator. */
module Decimal {

  predicate IsDigit(c: char) { '0' <= c <= '9' }

  predicate AllDigits(s: string) { forall i | 0 <= i < |s| :: IsDigit(s[i]) }

  function DigitValue(c: char): nat {
    if IsDigit(c) then c as int - '0' as int else 0
  }

  function DigitChar(d: nat): (c: char)
    requires d < 10
    ensures IsDigit(c) && DigitValue(c) == d
  {
    '0' + d as char
  }

  /** The number a run of digits stands for. */
  function Value(s: string): nat {
    if s == [] then 0 else Value(s[..|s| - 1]) * 10 + DigitValue(s[|s| - 1])
  }

  /** `%d` for a number that is not negative. */
  function Digits(n: nat): (s: string)
    ensures |s| > 0 && AllDigits(s)
  {
    if n < 10 then [DigitChar(n)] else Digits(n / 10) + [DigitChar(n % 10)]
  }

  lemma {:induction false} ValueOfDigits(n: nat)
    ensures Value(Digits(n)) == n
  {
    if n < 10 {
      assert Digits(n)[..0] == [];
    } else {
      ValueOfDigits(n / 10);
      assert Digits(n)[..|Digits(n)| - 1] == Digits(n / 10);
    }
  }

  function Power10(k: nat): nat {
    if k == 0 then 1 else 10 * Power10(k - 1)
  }

  lemma {:induction false} DigitsLength(n: nat, k: nat)
    requires n < Power10(k) && k > 0
    ensures |Digits(n)| <= k
  {
    if n >= 10 {
      DigitsLength(n / 10, k - 1);
    }
  }

  /** More digits never make a smaller number. */
  lemma {:induction false} ValueGrows(p: string, s: string)
    requires p <= s
    ensures Value(p) <= Value(s)
    decreases |s|
  {
    if |p| < |s| {
      ValueGrows(p, s[..|s| - 1]);
    } else {
      assert p == s;
    }
  }

  // -------------------------------------------------------------------------------- `atoi`

  predicate IsSpace(c: char) { c == ' ' || 9 <= c as int <= 13 }

  function SkipSpaces(s: string): string {
    if s != [] && IsSpace(s[0]) then SkipSpaces(s[1..]) else s
  }

  function LeadingDigits(s: string): string {
    if s != [] && IsDigit(s[0]) then [s[0]] + LeadingDigits(s[1..]) else []
  }

  /** `atoi`, for numbers an `int` can hold. */
  function Atoi(s: string): int {
    var t := SkipSpaces(s);
    if t != [] && t[0] == '-' then var size: int := Value(LeadingDigits(t[1..])); -size
    else if t != [] && t[0] == '+' then Value(LeadingDigits(t[1..]))
    else Value(LeadingDigits(t))
  }

  lemma {:induction false} OnlyDigits(s: string)
    requires AllDigits(s)
    ensures LeadingDigits(s) == s
  {
    if s != [] {
      OnlyDigits(s[1..]);
      assert s == [s[0]] + s[1..];
    }
  }

  lemma {:induction false} SkipAll(space: string, s: string)
    requires (forall i | 0 <= i < |space| :: space[i] in " \t\n\r" || space[i] as int in {11, 12})
    requires s == [] || !IsSpace(s[0])
    ensures SkipSpaces(space + s) == s
  {
    if space == [] {
      assert space + s == s;
    } else {
      assert (space + s)[1..] == space[1..] + s;
      SkipAll(space[1..], s);
    }
  }

  lemma {:induction false} DigitsThen(digits: string, rest: string)
    requires AllDigits(digits) && (rest == [] || !IsDigit(rest[0]))
    ensures LeadingDigits(digits + rest) == digits
  {
    if digits == [] {
      assert digits + rest == rest;
    } else {
      assert (digits + rest)[1..] == digits[1..] + rest;
      DigitsThen(digits[1..], rest);
      assert digits == [digits[0]] + digits[1..];
    }
  }

  /** `atoi` steps over white space and one sign, and ends at the first character that is not a
      digit. */
  lemma AtoiOfText(space: string, sign: string, digits: string, rest: string)
    requires (forall i | 0 <= i < |space| :: space[i] in " \t\n\r" || space[i] as int in {11, 12})
    requires sign == "" || sign == "-" || sign == "+"
    requires AllDigits(digits) && (sign == "" ==> digits != []) && (rest == [] || !IsDigit(rest[0]))
    ensures Atoi(space + (sign + (digits + rest))) == if sign == "-" then -(Value(digits) as int) else Value(digits)
  {
    hide Value;
    var t := sign + (digits + rest);
    SkipAll(space, t);
    DigitsThen(digits, rest);
    if sign != "" {
      assert t[0] == sign[0] && t[1..] == digits + rest;
    } else {
      assert t == digits + rest && t[0] == digits[0];
    }
  }

  /** `atoi` reads back what `%d` wrote. */
  lemma AtoiOfDigits(n: nat)
    ensures Atoi(Digits(n)) == n
  {
    OnlyDigits(Digits(n));
    ValueOfDigits(n);
    assert IsDigit(Digits(n)[0]);
  }

  // ------------------------------------------------------------------ texts cut at a dot

  /** The runs between the dots of a text; there is one more run than there are dots. */
  function Split(s: string): (runs: seq<string>)
    ensures |runs| > 0
  {
    if s == [] then [""] else
      var runs, c := Split(s[..|s| - 1]), s[|s| - 1];
      if c == '.' then runs + [""] else runs[..|runs| - 1] + [runs[|runs| - 1] + [c]]
  }

  lemma {:induction false} NoDotNoSplit(s: string)
    requires '.' !in s
    ensures Split(s) == [s]
  {
    if s != [] {
      NoDotNoSplit(s[..|s| - 1]);
      assert s[..|s| - 1] + [s[|s| - 1]] == s;
    }
  }

  /** A run behind a dot is one more run. */
  lemma {:induction false} SplitBehindDot(s: string, t: string)
    requires '.' !in t
    ensures Split(s + "." + t) == Split(s) + [t]
    decreases |t|
  {
    var all := s + "." + t;
    if t == [] {
      assert all[..|all| - 1] == s;
    } else {
      var before := t[..|t| - 1];
      SplitBehindDot(s, before);
      assert all[..|all| - 1] == s + "." + before;
      assert before + [t[|t| - 1]] == t;
    }
  }

  /** Reading on only adds to the last run and appends runs behind it. */
  lemma {:induction false} SplitGrows(s: string, n: nat)
    requires n <= |s|
    ensures |Split(s[..n])| <= |Split(s)|
    ensures var last := |Split(s[..n])| - 1; Split(s[..n])[last] <= Split(s)[last]
    decreases |s|
  {
    if n == |s| {
      assert s[..n] == s;
    } else {
      var before := s[..|s| - 1];
      SplitGrows(before, n);
      assert before[..n] == s[..n];
    }
  }
}
