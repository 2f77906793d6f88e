/** The text form of a hardware address. */
module Mac {
  import opened Ring

  predicate IsHexDigit(c: char) { '0' <= c <= '9' || 'a' <= c <= 'f' || 'A' <= c <= 'F' }

  function ToUpper(c: char): char {
    if 'a' <= c <= 'z' then (c as int - 32) as char else c
  }

  /** The value `str_to_hex` gives a digit. */
  function HexValue(c: char): (v: int)
    ensures IsHexDigit(c) ==> 0 <= v < 16
  {
    var u := ToUpper(c);
    if u > '9' then u as int - 'A' as int + 10 else u as int - '0' as int
  }

  /** One digit as `%X` writes it. */
  function HexChar(v: nat): (c: char)
    requires v < 16
    ensures IsHexDigit(c) && HexValue(c) == v
  {
    if v < 10 then '0' + v as char else 'A' + (v - 10) as char
  }

  /** The digits in both cases, with their values, and the separators. */
  lemma HexDigits(c: char)
    ensures IsHexDigit(c) <==> c in "0123456789abcdef" || c in "0123456789ABCDEF"
    ensures forall i | 0 <= i < 16 :: HexValue("0123456789abcdef"[i]) == i == HexValue("0123456789ABCDEF"[i])
    ensures IsSeparator(c) <==> c as int in {0x00, 0x2D, 0x2E, 0x3A}
  {
    OneDigit("0123456789abcdef", "0123456789ABCDEF");
    if IsHexDigit(c) {
      assert c == "0123456789abcdef"[HexValue(c)] || c == "0123456789ABCDEF"[HexValue(c)];
    }
  }

  lemma OneDigit(lower: string, upper: string)
    requires lower == "0123456789abcdef" && upper == "0123456789ABCDEF"
    ensures forall i | 0 <= i < 16 ::
              && HexValue(lower[i]) == i == HexValue(upper[i]) && IsHexDigit(lower[i]) && IsHexDigit(upper[i])
  {
  }

  const NUL: char := 0 as char

  predicate IsSeparator(c: char) { c == NUL || c in ".:-" }

  /** The character at `i` of a C string: its end reads as NUL. */
  function CharAt(s: string, i: nat): char {
    if i < |s| then s[i] else NUL
  }

  /** The texts `is_macaddr` accepts: six pairs of hexadecimal digits with any of the three
      separators behind each of them but the last, behind which the text ends. */
  predicate IsMacText(s: string) {
    && |s| % 256 == 17
    && forall i | 0 <= i < 6 ::
         IsHexDigit(CharAt(s, 3 * i)) && IsHexDigit(CharAt(s, 3 * i + 1)) && IsSeparator(CharAt(s, 3 * i + 2))
  }

  type MacAddress = m: seq<byte> | |m| == 6 witness [0, 0, 0, 0, 0, 0]

  /** `%02X` */
  function HexPair(b: byte): (s: string)
    ensures |s| == 2
  {
    [HexChar(b / 16), HexChar(b % 16)]
  }

  /** `%02X:%02X:%02X:%02X:%02X:%02X` */
  function PrintedMac(m: MacAddress): string {
    HexPair(m[0]) + ":" + HexPair(m[1]) + ":" + HexPair(m[2]) + ":"
    + HexPair(m[3]) + ":" + HexPair(m[4]) + ":" + HexPair(m[5])
  }

  /** `is_hexstr` */
  method IsHexstr(s: string) returns (yes: bool)
    ensures yes <==> forall i | 0 <= i < |s| :: IsHexDigit(s[i])
  {
    for i := 0 to |s|
      invariant forall k | 0 <= k < i :: IsHexDigit(s[k])
    {
      if !IsHexDigit(s[i]) {
        return false;
      }
    }
    yes := true;
  }

  /** `str_to_hex` on one pair. */
  method StrToHex(s: string) returns (hex: byte)
    requires |s| == 2 && IsHexDigit(s[0]) && IsHexDigit(s[1])
    ensures hex == HexValue(s[0]) * 16 + HexValue(s[1])
  {
    var hn, ln := HexValue(s[0]), HexValue(s[1]);
    hex := hn * 16 + ln;
  }

  /** `is_macaddr` with the separators that `set_mac` passes. */
  method IsMacaddr(macstr: string) returns (ok: bool, mac: MacAddress)
    requires NUL !in macstr
    ensures ok <==> IsMacText(macstr)
    ensures ok ==> forall i | 0 <= i < 6 ::
              mac[i] == HexValue(CharAt(macstr, 3 * i)) * 16 + HexValue(CharAt(macstr, 3 * i + 1))
  {
    mac := [0, 0, 0, 0, 0, 0];
    if |macstr| % 256 != 17 {
      return false, mac;
    }
    for i := 0 to 6
      invariant forall k | 0 <= k < i ::
                  IsHexDigit(CharAt(macstr, 3 * k)) && IsHexDigit(CharAt(macstr, 3 * k + 1))
                  && IsSeparator(CharAt(macstr, 3 * k + 2))
      invariant forall k | 0 <= k < i ::
                  mac[k] == HexValue(CharAt(macstr, 3 * k)) * 16 + HexValue(CharAt(macstr, 3 * k + 1))
    {
      if !IsSeparator(CharAt(macstr, 3 * i + 2)) {
        return false, mac;
      }
      var pair := [CharAt(macstr, 3 * i), CharAt(macstr, 3 * i + 1)];
      var hex := IsHexstr(pair);
      if !hex {
        assert !(IsHexDigit(pair[0]) && IsHexDigit(pair[1]));
        return false, mac;
      }
      assert IsHexDigit(pair[0]) && IsHexDigit(pair[1]);
      var b := StrToHex(pair);
      mac := mac[i := b];
    }
    ok := true;
  }

  /** A printed address is accepted and reads back as itself. */
  lemma PrintedMacReads(m: MacAddress)
    ensures IsMacText(PrintedMac(m)) && NUL !in PrintedMac(m)
    ensures forall i | 0 <= i < 6 ::
              m[i] == HexValue(CharAt(PrintedMac(m), 3 * i)) * 16 + HexValue(CharAt(PrintedMac(m), 3 * i + 1))
  {
    var s := PrintedMac(m);
    forall i | 0 <= i < 6
      ensures CharAt(s, 3 * i) == HexChar(m[i] / 16) && CharAt(s, 3 * i + 1) == HexChar(m[i] % 16)
      ensures i < 5 ==> CharAt(s, 3 * i + 2) == ':'
    {
      PairAt(m, i);
    }
    assert forall k | 0 <= k < |s| :: IsHexDigit(s[k]) || s[k] == ':';
  }

  lemma PairAt(m: MacAddress, i: nat)
    requires i < 6
    ensures CharAt(PrintedMac(m), 3 * i) == HexChar(m[i] / 16)
    ensures CharAt(PrintedMac(m), 3 * i + 1) == HexChar(m[i] % 16)
    ensures i < 5 ==> CharAt(PrintedMac(m), 3 * i + 2) == ':'
    ensures |PrintedMac(m)| == 17
  {
    hide HexChar;
  }

  class Device {
    var shar: MacAddress

    constructor ()
      ensures shar == [0, 0, 0, 0, 0, 0]
    {
      shar := [0, 0, 0, 0, 0, 0];
    }

    /** `get_mac` */
    method GetMac() returns (text: string)
      ensures text == PrintedMac(shar) && NUL !in text
    {
      PrintedMacReads(shar);
      text := PrintedMac(shar);
    }

    /** `set_mac`: any text `get_mac` can have printed puts that address into the chip; a text
        that is refused changes nothing. */
    method SetMac(rxData: string, ghost m: MacAddress) returns (ok: bool)
      requires NUL !in rxData
      modifies this
      ensures ok <==> IsMacText(rxData)
      ensures rxData == PrintedMac(m) ==> ok && shar == m
      ensures ok ==> forall i | 0 <= i < 6 ::
                shar[i] == HexValue(CharAt(rxData, 3 * i)) * 16 + HexValue(CharAt(rxData, 3 * i + 1))
      ensures !ok ==> shar == old(shar)
    {
      PrintedMacReads(m);
      hide PrintedMac, HexValue, CharAt, IsMacText;
      var mac;
      ok, mac := IsMacaddr(rxData);
      if ok {
        shar := mac;
        assert rxData == PrintedMac(m) ==> mac == m;
      }
    }
  }
}
