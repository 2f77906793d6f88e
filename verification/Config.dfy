/** The text form of the network configuration: how it is printed and how it is read back. */
module Config {
  import opened Ring
  import opened Decimal
  import opened Options

  // --------------------------------------------------------------------------- IP addresses

  predicate IsRun(run: string) { AllDigits(run) && |run| <= 3 && Value(run) <= 255 }

  /** The texts `is_ipaddr` accepts: 7 to 15 characters, runs of at most three digits with a
      value up to 255, and at most four dots.  It asks neither for four runs nor for runs
      that are not empty. */
  predicate IsIpText(text: string) {
    && 7 <= |text| <= 15
    && |Split(text)| <= 5
    && (forall run | run in Split(text) :: IsRun(run))
  }

  function Values(runs: seq<string>): (r: seq<nat>)
    ensures |r| == |runs|
  {
    seq(|runs|, i requires 0 <= i < |runs| => Value(runs[i]))
  }

  /** A run with one more character. */
  lemma LongerRun(run: string, c: char)
    requires IsRun(run)
    ensures IsRun(run + [c]) <==>
              IsDigit(c) && |run| < 3 && Wrap(Value(run) * 10 + DigitValue(c)) <= 255
    ensures IsDigit(c) ==> Value(run + [c]) == Wrap(Value(run) * 10 + DigitValue(c))
    ensures IsRun("") && Value("") == 0
  {
    LongerDigits(run, c);
    NothingIsRun();
    hide Value, AllDigits, IsDigit, DigitValue;
  }

  lemma NothingIsRun()
    ensures IsRun("") && Value("") == 0
  {
  }

  lemma LongerDigits(run: string, c: char)
    ensures Value(run + [c]) == Value(run) * 10 + DigitValue(c) && DigitValue(c) < 10
    ensures AllDigits(run + [c]) <==> AllDigits(run) && IsDigit(c)
  {
    var longer := run + [c];
    assert longer[..|run|] == run && longer[|run|] == c;
    hide Value;
    assert forall i | 0 <= i < |run| :: longer[i] == run[i];
  }

  /** A run is what `atoi` reads of it, and nothing reads as 0. */
  lemma AtoiOfRun(run: string)
    requires IsRun(run)
    ensures Atoi(run) == Value(run)
  {
    OnlyDigits(run);
    assert run != [] ==> IsDigit(run[0]);
  }

  lemma SplitStep(text: string, i: nat, runs: seq<string>, tmp: string)
    requires i < |text| && Split(text[..i]) == runs + [tmp]
    ensures Split(text[..i + 1]) ==
              if text[i] == '.' then runs + [tmp] + [""] else runs + [tmp + [text[i]]]
  {
    assert text[..i + 1][..i] == text[..i];
  }

  /** A run that is already wrong, or one too many, spoils the whole text. */
  lemma Spoilt(text: string, n: nat)
    requires n <= |text| && IsIpText(text)
    ensures |Split(text[..n])| <= 5 && IsRun(Split(text[..n])[|Split(text[..n])| - 1])
  {
    hide Split, Value, DigitValue;
    SplitGrows(text, n);
    var last := |Split(text[..n])| - 1;
    var p, s := Split(text[..n])[last], Split(text)[last];
    assert s in Split(text);
    ValueGrows(p, s);
    assert forall i | 0 <= i < |p| :: p[i] == s[i];
  }

  lemma ValuesStep(runs: seq<string>, run: string)
    ensures Values(runs + [run]) == Values(runs) + [Value(run)]
  {
  }

  /** `is_ipaddr`: accepts exactly the texts described above and returns the values of their
      runs.  The length is kept in a `uint8_t`. */
  method IsIpaddr(srcIp: string) returns (ok: bool, retIp: seq<nat>)
    ensures ok <==> IsIpText(srcIp[..|srcIp| % 256])
    ensures ok ==> retIp == Values(Split(srcIp[..|srcIp| % 256]))
  {
    hide Split, Values, Value, IsRun, Wrap, DigitValue, Atoi;
    retIp := [];
    var len := |srcIp| % 256;
    ghost var text := srcIp[..len];
    if len > 15 || len < 7 {
      return false, retIp;
    }
    var dotcnt, tval, tmp := 0, 0, "";
    ghost var runs: seq<string> := [];
    NothingSplit(text);
    for i := 0 to len
      invariant Split(text[..i]) == runs + [tmp] && dotcnt == |runs| <= 4
      invariant retIp == Values(runs) && tval == Value(tmp) && IsRun(tmp)
      invariant forall run | run in runs :: IsRun(run)
    {
      var c := srcIp[i];
      SplitStep(text, i, runs, tmp);
      LongerRun(tmp, c);
      if IsIpText(text) {
        Spoilt(text, i + 1);
      }
      if IsDigit(c) {
        tval := Wrap(tval * 10 + DigitValue(c));
        if tval > 255 {
          return false, retIp;
        }
        tmp := tmp + [c];
        if |tmp| > 3 {
          return false, retIp;
        }
      } else if c == '.' {
        dotcnt := dotcnt + 1;
        if dotcnt > 4 {
          return false, retIp;
        }
        AtoiOfRun(tmp);
        ValuesStep(runs, tmp);
        retIp := retIp + [Atoi(tmp)];
        runs := runs + [tmp];
        tval, tmp := 0, "";
      } else {
        return false, retIp;
      }
    }
    assert text[..len] == text;
    AtoiOfRun(tmp);
    ValuesStep(runs, tmp);
    retIp := retIp + [Atoi(tmp)];
    ok := true;
  }

  lemma NothingSplit(text: string)
    ensures Split(text[..0]) == [""] && Values([]) == [] && IsRun("") && Value("") == 0
  {
    assert text[..0] == "";
  }

  // -------------------------------------------------------------------- the printed address

  type Ip = s: seq<byte> | |s| == 4 witness [0, 0, 0, 0]

  /** `%d.%d.%d.%d` */
  function Dotted(ip: Ip): string {
    Digits(ip[0]) + "." + Digits(ip[1]) + "." + Digits(ip[2]) + "." + Digits(ip[3])
  }

  lemma DigitsAreRun(b: byte)
    ensures IsRun(Digits(b)) && Value(Digits(b)) == b && 1 <= |Digits(b)| <= 3
    ensures '.' !in Digits(b) && ',' !in Digits(b)
  {
    ValueOfDigits(b);
    assert Power10(1) == 10 && Power10(2) == 100 && Power10(3) == 1000;
    DigitsLength(b, 3);
  }

  lemma FourRuns(a: string, b: string, c: string, d: string)
    requires '.' !in a && '.' !in b && '.' !in c && '.' !in d
    ensures Split(a + "." + b + "." + c + "." + d) == [a, b, c, d]
  {
    NoDotNoSplit(a);
    SplitBehindDot(a, b);
    SplitBehindDot(a + "." + b, c);
    SplitBehindDot(a + "." + b + "." + c, d);
    hide Split;
    assert [a] + [b] + [c] + [d] == [a, b, c, d];
  }

  /** A printed address is accepted and reads back as itself. */
  lemma DottedIsIp(ip: Ip)
    ensures IsIpText(Dotted(ip)) && |Dotted(ip)| <= 15 && Values(Split(Dotted(ip))) == ip
    ensures Dotted(ip) != [] && ',' !in Dotted(ip)
  {
    var a, b, c, d := Digits(ip[0]), Digits(ip[1]), Digits(ip[2]), Digits(ip[3]);
    forall k | 0 <= k < 4
      ensures IsRun(Digits(ip[k])) && Value(Digits(ip[k])) == ip[k] && 1 <= |Digits(ip[k])| <= 3
      ensures '.' !in Digits(ip[k]) && ',' !in Digits(ip[k])
    {
      DigitsAreRun(ip[k]);
    }
    hide Digits, Value, IsRun, Split;
    FourRuns(a, b, c, d);
    assert |Dotted(ip)| == |a| + |b| + |c| + |d| + 3;
    assert ',' !in Dotted(ip);
    assert Values([a, b, c, d]) == [ip[0], ip[1], ip[2], ip[3]];
    assert ip == [ip[0], ip[1], ip[2], ip[3]];
  }

  lemma ThreeDigits()
    ensures |Digits(255)| == 3
  {
    assert |Digits(25)| == 2;
  }

  /** The test is wider than it is meant: "255.255", with a single dot, is accepted ... */
  lemma AcceptsOneDot()
    ensures var text := Digits(255) + "." + Digits(255);
            && IsIpText(text) && Split(text) == [Digits(255), Digits(255)]
            && FourBytes(Values(Split(text))) == [255, 255, 0, 0]
  {
    hide Split, Value, IsRun, Digits;
    var s := Digits(255);
    ThreeDigits();
    DigitsAreRun(255);
    NoDotNoSplit(s);
    SplitBehindDot(s, s);
    assert [s] + [s] == [s, s];
    ValueOfDigits(255);
    assert Values([s, s]) == [255, 255];
  }

  /** ... and so is a text with four. */
  lemma AcceptsFourDots()
    ensures IsIpText("1.1.1.1.1") && Split("1.1.1.1.1") == ["1", "1", "1", "1", "1"]
  {
    var s := "1";
    assert s[..0] == "";
    assert IsRun(s);
    FourRuns(s, s, s, s);
    var front := s + "." + s + "." + s + "." + s;
    SplitBehindDot(front, s);
    hide Split, Value, IsRun;
    assert front + "." + s == "1.1.1.1.1";
    assert [s, s, s, s] + [s] == ["1", "1", "1", "1", "1"];
  }

  // ------------------------------------------------------------------------------- fields

  /** The settings that travel in one line of text. */
  datatype Settings = Settings(localIp: Ip, localPort: word, remoteIp: Ip, remotePort: word,
                               subnet: Ip, gateway: Ip, dns: Ip)

  /** What `get_network_config` prints, from field `k` on and without the end of the line. */
  function Printed(c: Settings, k: nat): string
    requires k <= 6
    decreases 6 - k
  {
    match k
    case 0 => Dotted(c.localIp) + ", " + Printed(c, 1)
    case 1 => Digits(c.localPort) + ", " + Printed(c, 2)
    case 2 => Dotted(c.remoteIp) + ", " + Printed(c, 3)
    case 3 => Digits(c.remotePort) + ", " + Printed(c, 4)
    case 4 => Dotted(c.subnet) + ", " + Printed(c, 5)
    case 5 => Dotted(c.gateway) + ", " + Printed(c, 6)
    case _ => Dotted(c.dns)
  }

  /** Where the text stands after a field: the token, or the text running out, in which case
      the original reads on behind its end. */
  datatype Field = Field(token: string, rest: string) | RunsOut

  /** The first place from `i` on without a comma. */
  function Skip(text: string, i: nat): (j: nat)
    requires i <= |text|
    ensures i <= j <= |text|
    decreases |text| - i
  {
    if i < |text| && text[i] == ',' then Skip(text, i + 1) else i
  }

  /** The first comma from `i` on, or the end of the text. */
  function Until(text: string, i: nat): (j: nat)
    requires i <= |text|
    ensures i <= j <= |text|
    decreases |text| - i
  {
    if i < |text| && text[i] != ',' then Until(text, i + 1) else i
  }

  /** `strtok` with ',' followed by the step over the token, the comma and a space.  The step
      starts at the beginning of the text, so commas ahead of the token, which `strtok` skips,
      make it fall short; the end of the token is the end of what can be read then. */
  function Cut(text: string): Field {
    var start := Skip(text, 0);
    var end := Until(text, start);
    var next := end - start + 2;
    if start == |text| then RunsOut
    else if next <= end then Field(text[start..end], text[next..end])
    else if next <= |text| then Field(text[start..end], text[next..])
    else RunsOut
  }

  method NextField(text: string) returns (f: Field)
    ensures f == Cut(text)
  {
    var start := 0;
    while start < |text| && text[start] == ','
      invariant start <= |text| && Skip(text, start) == Skip(text, 0)
    {
      start := start + 1;
    }
    if start == |text| {
      return RunsOut;
    }
    var end := start;
    while end < |text| && text[end] != ','
      invariant start <= end <= |text| && Until(text, end) == Until(text, start)
    {
      end := end + 1;
    }
    var token := text[start..end];
    var next := |token| + 2;
    f := if next <= end then Field(token, text[next..end])
         else if next <= |text| then Field(token, text[next..])
         else RunsOut;
  }

  /** A token ends at the first comma. */
  lemma {:induction false} UntilComma(text: string, i: nat, end: nat)
    requires i <= end < |text| && text[end] == ',' && forall k | i <= k < end :: text[k] != ','
    ensures Until(text, i) == end
    decreases end - i
  {
    if i < end {
      UntilComma(text, i + 1, end);
    }
  }

  lemma {:induction false} UntilEnd(text: string, i: nat)
    requires i <= |text| && forall k | i <= k < |text| :: text[k] != ','
    ensures Until(text, i) == |text|
    decreases |text| - i
  {
    if i < |text| {
      UntilEnd(text, i + 1);
    }
  }

  /** Commas ahead of a token are skipped. */
  lemma {:induction false} SkipCommas(text: string, i: nat, n: nat)
    requires i <= n < |text| && text[n] != ',' && forall k | i <= k < n :: text[k] == ','
    ensures Skip(text, i) == n
    decreases n - i
  {
    if i < n {
      SkipCommas(text, i + 1, n);
    }
  }

  /** What is cut from a text with a token between the commas at its start and the next comma or
      the end of the text: the token, and what lies two characters and its length behind the start
      of the text, up to the end of the token if that is further on. */
  lemma CutIs(text: string, start: nat, end: nat)
    requires start < end <= |text| && (end == |text| || text[end] == ',')
    requires (forall k | 0 <= k < start :: text[k] == ',') && forall k | start <= k < end :: text[k] != ','
    ensures var next := end - start + 2;
            Cut(text) == if next <= end then Field(text[start..end], text[next..end])
                         else if next <= |text| then Field(text[start..end], text[next..]) else RunsOut
  {
    SkipCommas(text, 0, start);
    if end == |text| {
      UntilEnd(text, start);
    } else {
      UntilComma(text, start, end);
    }
  }

  /** Cutting at a comma drops the character behind the comma, whatever it is: of a line without
      blanks the next field is read without its first character. */
  lemma CutDropsNext(token: string, x: char, rest: string)
    requires token != [] && ',' !in token
    ensures Cut(token + [',', x] + rest) == Field(token, rest)
  {
    var text := token + [',', x] + rest;
    assert forall k | 0 <= k < |token| :: text[k] == token[k] && token[k] in token;
    CutIs(text, 0, |token|);
    hide Cut;
    assert text[..|token|] == token && text[|token| + 2..] == rest;
  }

  /** Cutting at a comma and stepping over a space leads from one printed field to the next. */
  lemma CutPrinted(token: string, rest: string)
    requires token != [] && ',' !in token
    ensures Cut(token + ", " + rest) == Field(token, rest)
  {
    CutDropsNext(token, ' ', rest);
  }

  /** A port printed right behind the comma loses its first digit. */
  lemma WithoutBlank(ip: Ip, port: nat, rest: string)
    ensures var text := Dotted(ip) + "," + Digits(port) + "," + rest;
            && FieldAt(text, 0) == Field(Dotted(ip), Digits(port)[1..] + "," + rest)
            && Head(text, 0) == Some(Address(ip))
  {
    hide Dotted, Split, Values, IsIpText, Octet, Digits, Atoi;
    DottedIsIp(ip);
    PrintedIpReads(ip);
    PortDigits(port);
    var digits := Digits(port);
    CutDropsNext(Dotted(ip), digits[0], digits[1..] + "," + rest);
    hide Cut;
    assert Dotted(ip) + "," + digits + "," + rest == Dotted(ip) + [',', digits[0]] + (digits[1..] + "," + rest);
  }

  function Octet(ip: seq<nat>, k: nat): byte {
    if k < |ip| then ip[k] % 256 else 0
  }

  /** The four bytes of the caller's array, which starts out as zeros. */
  function FourBytes(ip: seq<nat>): Ip {
    [Octet(ip, 0), Octet(ip, 1), Octet(ip, 2), Octet(ip, 3)]
  }

  lemma PrintedIpReads(ip: Ip)
    ensures FourBytes(Values(Split(Dotted(ip)))) == ip
    ensures Dotted(ip)[..|Dotted(ip)| % 256] == Dotted(ip)
  {
    DottedIsIp(ip);
    hide Split, Values, Dotted;
    assert ip == [ip[0], ip[1], ip[2], ip[3]];
  }

  datatype ConfigEnd = Success | ParamInvalid | Overrun

  // ------------------------------------------------------------------------ a line of text

  /** One field of the settings. */
  datatype Item = Address(ip: Ip) | Port(port: word)

  /** Field `k` of the settings, in the order of the line. */
  function ItemOf(c: Settings, k: nat): Item
    requires k < 7
  {
    match k
    case 0 => Address(c.localIp)
    case 1 => Port(c.localPort)
    case 2 => Address(c.remoteIp)
    case 3 => Port(c.remotePort)
    case 4 => Address(c.subnet)
    case 5 => Address(c.gateway)
    case _ => Address(c.dns)
  }

  predicate IsPort(k: nat) { k == 1 || k == 3 }

  function With(c: Settings, k: nat, item: Item): Settings
    requires k < 7 && item.Port? == IsPort(k)
  {
    match k
    case 0 => c.(localIp := item.ip)
    case 1 => c.(localPort := item.port)
    case 2 => c.(remoteIp := item.ip)
    case 3 => c.(remotePort := item.port)
    case 4 => c.(subnet := item.ip)
    case 5 => c.(gateway := item.ip)
    case _ => c.(dns := item.ip)
  }

  /** The part of an address text `is_ipaddr` looks at. */
  function Visible(token: string): string { token[..|token| % 256] }

  /** What field `k` is read as, or that it is refused. */
  function ReadItem(token: string, k: nat): (r: Option<Item>)
    ensures r.Some? ==> r.value.Port? == IsPort(k)
  {
    if IsPort(k) then
      if 0 <= Atoi(token) <= 65535 then Some(Port(Atoi(token))) else None
    else
      if IsIpText(Visible(token)) then Some(Address(FourBytes(Values(Split(Visible(token)))))) else None
  }

  /** The text of field `k` and what follows it; the last field is the rest of the line. */
  function FieldAt(text: string, k: nat): Field {
    if k < 6 then Cut(text) else Field(text, [])
  }

  /** What the first field of a text is read as, if it is accepted. */
  function Head(text: string, k: nat): (r: Option<Item>)
    ensures r.Some? ==> r.value.Port? == IsPort(k)
  {
    match FieldAt(text, k)
    case RunsOut => None
    case Field(token, _) => ReadItem(token, k)
  }

  /** How many fields a text yields from field `k` on, before the first one that is refused. */
  function Taken(text: string, k: nat): (n: nat)
    requires k <= 7
    ensures k + n <= 7
    decreases 7 - k
  {
    if k == 7 || Head(text, k).None? then 0 else 1 + Taken(FieldAt(text, k).rest, k + 1)
  }

  /** What field `i` of a text that starts with field `k` is read as. */
  function ItemAt(text: string, k: nat, i: nat): Item
    requires k <= 7 && k <= i < k + Taken(text, k)
    decreases 7 - k
  {
    if i == k then Head(text, k).value else ItemAt(FieldAt(text, k).rest, k + 1, i)
  }

  function Outcome(text: string, k: nat): ConfigEnd
    requires k <= 7
    decreases 7 - k
  {
    if k == 7 then Success
    else if FieldAt(text, k).RunsOut? then Overrun
    else if Head(text, k).None? then ParamInvalid
    else Outcome(FieldAt(text, k).rest, k + 1)
  }

  /** The settings after a text has been read from field `k` on: each field is entered as soon
      as it has been read. */
  function Applied(c: Settings, text: string, k: nat): Settings
    requires k <= 7
    decreases 7 - k
  {
    if k == 7 || Head(text, k).None? then c
    else Applied(With(c, k, Head(text, k).value), FieldAt(text, k).rest, k + 1)
  }

  /** A line is accepted exactly when all its fields are.  Of a line that is refused, the fields
      ahead of the faulty one are in the settings and the others are as they were. */
  lemma {:induction false} RefusedLine(c: Settings, text: string, k: nat, i: nat)
    requires k <= 7 && i < 7
    ensures Outcome(text, k) == Success <==> Taken(text, k) == 7 - k
    ensures ItemOf(Applied(c, text, k), i)
            == if k <= i < k + Taken(text, k) then ItemAt(text, k, i) else ItemOf(c, i)
    decreases 7 - k
  {
    hide Head, FieldAt;
    if k < 7 && Head(text, k).Some? {
      NoneWithoutField(text, k);
      RefusedLine(With(c, k, Head(text, k).value), FieldAt(text, k).rest, k + 1, i);
    } else if k < 7 {
      NoneWithoutField(text, k);
    }
  }

  lemma NoneWithoutField(text: string, k: nat)
    ensures FieldAt(text, k).RunsOut? ==> Head(text, k).None?
  {
  }

  /** A line leaves all settings as they are, whatever they are, exactly when its first field
      is refused. */
  lemma NothingTaken(text: string)
    ensures (forall c :: Applied(c, text, 0) == c) <==> Head(text, 0).None?
  {
    if Head(text, 0).Some? {
      var ip := Head(text, 0).value.ip;
      var other: Ip := [if ip[0] == 0 then 1 else 0, 0, 0, 0];
      var c := Settings(other, 0, other, 0, other, other, other);
      hide Head, FieldAt;
      RefusedLine(c, text, 0, 0);
      assert ItemOf(Applied(c, text, 0), 0) == Address(ip);
      assert Applied(c, text, 0) != c;
    }
  }

  /** A port that is too large is such a fault: the line is refused, and the local address it
      begins with is in the settings. */
  lemma WrongPortKeepsAddress(c: Settings, ip: Ip, port: nat, rest: string)
    requires port > 65535
    ensures var text := Dotted(ip) + ", " + (Digits(port) + ", " + rest);
            && Outcome(text, 0) == ParamInvalid && Taken(text, 0) == 1
            && Applied(c, text, 0) == c.(localIp := ip)
  {
    hide Dotted, Split, Values, IsIpText, Octet, Digits, Atoi;
    DottedIsIp(ip);
    PrintedIpReads(ip);
    PortDigits(port);
    var second := Digits(port) + ", " + rest;
    CutPrinted(Dotted(ip), second);
    CutPrinted(Digits(port), rest);
    hide Cut;
    assert Head(second, 1).None?;
  }

  lemma PortDigits(port: nat)
    ensures Atoi(Digits(port)) == port && Digits(port) != [] && ',' !in Digits(port)
  {
    AtoiOfDigits(port);
    assert AllDigits(Digits(port));
  }

  /** The printed text of field `k`. */
  function Shown(c: Settings, k: nat): string
    requires k < 7
  {
    match ItemOf(c, k)
    case Address(ip) => Dotted(ip)
    case Port(port) => Digits(port)
  }

  lemma PrintedStep(c: Settings, k: nat)
    requires k < 6
    ensures Printed(c, k) == Shown(c, k) + ", " + Printed(c, k + 1)
  {
    hide Dotted, Digits;
  }

  lemma ShownReads(c: Settings, k: nat)
    requires k < 7
    ensures ReadItem(Shown(c, k), k) == Some(ItemOf(c, k)) && Shown(c, k) != [] && ',' !in Shown(c, k)
  {
    hide Dotted, Split, Values, IsIpText, Octet, Digits, Atoi, FourBytes;
    match ItemOf(c, k)
    case Address(ip) =>
      DottedIsIp(ip);
      PrintedIpReads(ip);
    case Port(port) =>
      PortDigits(port);
  }

  /** Any line that can have been printed is accepted and read back as what it says. */
  lemma {:induction false} PrintedLineReads(before: Settings, c: Settings, k: nat)
    requires k <= 6 && forall i: nat | i < k :: ItemOf(before, i) == ItemOf(c, i)
    ensures Outcome(Printed(c, k), k) == Success && Applied(before, Printed(c, k), k) == c
    decreases 6 - k
  {
    hide Dotted, Digits, Cut, ReadItem, Printed;
    ShownReads(c, k);
    if k < 6 {
      PrintedStep(c, k);
      CutPrinted(Shown(c, k), Printed(c, k + 1));
      PrintedLineReads(With(before, k, ItemOf(c, k)), c, k + 1);
    } else {
      assert Printed(c, 6) == Shown(c, 6) by {
        LastPrinted(c);
      }
      AllItems(With(before, 6, ItemOf(c, 6)), c);
    }
  }

  lemma LastPrinted(c: Settings)
    ensures Printed(c, 6) == Shown(c, 6)
  {
  }

  lemma AllItems(a: Settings, b: Settings)
    requires forall i: nat | i < 7 :: ItemOf(a, i) == ItemOf(b, i)
    ensures a == b
  {
    assert ItemOf(a, 0) == ItemOf(b, 0) && ItemOf(a, 1) == ItemOf(b, 1) && ItemOf(a, 2) == ItemOf(b, 2);
    assert ItemOf(a, 3) == ItemOf(b, 3) && ItemOf(a, 4) == ItemOf(b, 4) && ItemOf(a, 5) == ItemOf(b, 5);
    assert ItemOf(a, 6) == ItemOf(b, 6);
  }

  /** One field of the line. */
  lemma LineStep(c: Settings, text: string, k: nat)
    requires k < 7
    ensures match FieldAt(text, k)
            case RunsOut => Applied(c, text, k) == c && Outcome(text, k) == Overrun
            case Field(token, rest) =>
              if ReadItem(token, k).None? then Applied(c, text, k) == c && Outcome(text, k) == ParamInvalid
              else && Applied(c, text, k) == Applied(With(c, k, ReadItem(token, k).value), rest, k + 1)
                   && Outcome(text, k) == Outcome(rest, k + 1)
  {
    hide FieldAt, ReadItem;
  }

  lemma LineEnd(c: Settings, text: string)
    ensures Applied(c, text, 7) == c && Outcome(text, 7) == Success
  {
  }

  /** `device_config` and the network registers of the chip (with the two static variables
      that stand in for registers). */
  class Device {
    var localIp: Ip
    var localPort: word
    var remoteIp: Ip
    var remotePort: word
    var subnet: Ip
    var gateway: Ip
    var dns: Ip

    var sipr: Ip
    var subr: Ip
    var gar: Ip
    var chipDns: Ip

    constructor ()
      ensures Line() == Settings([0, 0, 0, 0], 0, [0, 0, 0, 0], 0, [0, 0, 0, 0], [0, 0, 0, 0], [0, 0, 0, 0])
    {
      localIp, localPort, remoteIp, remotePort := [0, 0, 0, 0], 0, [0, 0, 0, 0], 0;
      subnet, gateway, dns := [0, 0, 0, 0], [0, 0, 0, 0], [0, 0, 0, 0];
      sipr, subr, gar, chipDns := [0, 0, 0, 0], [0, 0, 0, 0], [0, 0, 0, 0], [0, 0, 0, 0];
    }

    /** What `get_network_config` prints comes from the chip, except for the ports and the
        remote address. */
    function Line(): Settings
      reads this
    {
      Settings(sipr, localPort, remoteIp, remotePort, subr, gar, chipDns)
    }

    /** `get_network_config` */
    method GetNetworkConfig() returns (text: string)
      ensures text == Printed(Line(), 0)
    {
      text := Dotted(sipr) + ", " + Digits(localPort) + ", " + Dotted(remoteIp) + ", " + Digits(remotePort)
              + ", " + Dotted(subr) + ", " + Dotted(gar) + ", " + Dotted(chipDns);
      Unfolded(Line());
    }

    /** The settings in `device_config`. */
    function Conf(): Settings
      reads this
    {
      Settings(localIp, localPort, remoteIp, remotePort, subnet, gateway, dns)
    }

    /** An address field that has been cut out. */
    method ReadIp(token: string, ghost k: nat) returns (ok: bool, ret: Ip)
      requires !IsPort(k)
      ensures ReadItem(token, k) == if ok then Some(Address(ret)) else None
    {
      hide Split, Values, IsIpText, FourBytes;
      var octets;
      ok, octets := IsIpaddr(token);
      ret := FourBytes(octets);
    }

    /** A port field that has been cut out. */
    method ReadPort(token: string, ghost k: nat) returns (ok: bool, value: word)
      requires IsPort(k)
      ensures ReadItem(token, k) == if ok then Some(Port(value)) else None
    {
      hide Atoi;
      var number := Atoi(token);
      ok := 0 <= number <= 65535;
      value := if ok then number else 0;
    }

    /** The first four fields: both ends of the connection. */
    method SetEnds(rxData: string) returns (r: ConfigEnd, rest: string)
      modifies `localIp, `localPort, `remoteIp, `remotePort
      ensures Applied(old(Conf()), rxData, 0) == if r == Success then Applied(Conf(), rest, 4) else Conf()
      ensures Outcome(rxData, 0) == if r == Success then Outcome(rest, 4) else r
    {
      hide Cut, ReadItem, Applied, Outcome;
      var f, ok, ip, port;
      rest := rxData;
      LineStep(Conf(), rest, 0);
      f := NextField(rest);
      if f.RunsOut? {
        return Overrun, rest;
      }
      ok, ip := ReadIp(f.token, 0);
      if !ok {
        return ParamInvalid, rest;
      }
      localIp := ip;
      LineStep(Conf(), f.rest, 1);
      f := NextField(f.rest);
      if f.RunsOut? {
        return Overrun, rest;
      }
      ok, port := ReadPort(f.token, 1);
      if !ok {
        return ParamInvalid, rest;
      }
      localPort := port;
      LineStep(Conf(), f.rest, 2);
      f := NextField(f.rest);
      if f.RunsOut? {
        return Overrun, rest;
      }
      ok, ip := ReadIp(f.token, 2);
      if !ok {
        return ParamInvalid, rest;
      }
      remoteIp := ip;
      LineStep(Conf(), f.rest, 3);
      f := NextField(f.rest);
      if f.RunsOut? {
        return Overrun, rest;
      }
      ok, port := ReadPort(f.token, 3);
      if !ok {
        return ParamInvalid, rest;
      }
      remotePort := port;
      r, rest := Success, f.rest;
    }

    /** The other fields: subnet mask, gateway and, up to the end of the text, DNS server. */
    method SetRoutes(text: string) returns (r: ConfigEnd)
      modifies `subnet, `gateway, `dns
      ensures Applied(old(Conf()), text, 4) == Conf() && Outcome(text, 4) == r
    {
      hide Cut, ReadItem, Applied, Outcome;
      var f, ok, ip;
      LineStep(Conf(), text, 4);
      f := NextField(text);
      if f.RunsOut? {
        return Overrun;
      }
      ok, ip := ReadIp(f.token, 4);
      if !ok {
        return ParamInvalid;
      }
      subnet := ip;
      LineStep(Conf(), f.rest, 5);
      f := NextField(f.rest);
      if f.RunsOut? {
        return Overrun;
      }
      ok, ip := ReadIp(f.token, 5);
      if !ok {
        return ParamInvalid;
      }
      gateway := ip;
      LineStep(Conf(), f.rest, 6);
      ok, ip := ReadIp(f.rest, 6);
      if !ok {
        return ParamInvalid;
      }
      dns := ip;
      LineEnd(Conf(), []);
      r := Success;
    }

    /** `set_network_config`: any line `get_network_config` can have printed is read back, and
        both the configuration and the chip then hold exactly what it says.  A line that is
        refused leaves the chip alone, but the fields in front of the faulty one have
        already been taken over into the configuration. */
    method SetNetworkConfig(rxData: string) returns (r: ConfigEnd)
      modifies this
      ensures r == Outcome(rxData, 0) && Conf() == Applied(old(Conf()), rxData, 0)
      ensures forall c :: rxData == Printed(c, 0) ==> r == Success && Line() == c
      ensures r == Success ==> InStep()
      ensures r != Success ==>
                sipr == old(sipr) && subr == old(subr) && gar == old(gar) && chipDns == old(chipDns)
    {
      hide Printed, Applied, Outcome;
      ghost var before := Conf();
      var rest;
      r, rest := SetEnds(rxData);
      if r == Success {
        r := SetRoutes(rest);
      }
      if r == Success {
        sipr, subr, gar, chipDns := localIp, subnet, gateway, dns;
      }
      forall c | rxData == Printed(c, 0)
        ensures r == Success && Line() == c
      {
        PrintedLineReads(before, c, 0);
      }
    }

    /** The chip holds what the configuration says. */
    ghost predicate InStep()
      reads this
    {
      sipr == localIp && subr == subnet && gar == gateway && chipDns == dns
    }
  }

  lemma Unfolded(c: Settings)
    ensures Printed(c, 0) ==
              Dotted(c.localIp) + ", " + Digits(c.localPort) + ", " + Dotted(c.remoteIp) + ", "
              + Digits(c.remotePort) + ", " + Dotted(c.subnet) + ", " + Dotted(c.gateway) + ", " + Dotted(c.dns)
  {
    hide Dotted, Digits;
    var p5 := Dotted(c.gateway) + ", " + Dotted(c.dns);
    assert Printed(c, 5) == p5;
    var p3 := Digits(c.remotePort) + ", " + Dotted(c.subnet) + ", " + p5;
    assert Printed(c, 3) == Digits(c.remotePort) + ", " + Printed(c, 4) == p3;
    var p1 := Digits(c.localPort) + ", " + Dotted(c.remoteIp) + ", " + p3;
    assert Printed(c, 1) == Digits(c.localPort) + ", " + Printed(c, 2) == p1;
  }
}
