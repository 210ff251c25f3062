/** Base64url of section 5 of RFC 4648, without padding. */
module Base64Url {

  type Byte = n: nat | n < 256
  type Sextet = n: nat | n < 64

  function Digit(n: Sextet): char {
    if n < 26 then 'A' + n as char
    else if n < 52 then 'a' + (n - 26) as char
    else if n < 62 then '0' + (n - 52) as char
    else if n == 62 then '-'
    else '_'
  }

  predicate InAlphabet(c: char) {
    'A' <= c <= 'Z' || 'a' <= c <= 'z' || '0' <= c <= '9' || c == '-' || c == '_'
  }

  function Value(c: char): Sextet
    requires InAlphabet(c)
  {
    if 'A' <= c <= 'Z' then (c - 'A') as nat
    else if 'a' <= c <= 'z' then (c - 'a') as nat + 26
    else if '0' <= c <= '9' then (c - '0') as nat + 52
    else if c == '-' then 62
    else 63
  }

  predicate AllInAlphabet(s: string) {
    forall i :: 0 <= i < |s| ==> InAlphabet(s[i])
  }

  /** Three bytes as four digits. */
  function Group(a: Byte, b: Byte, c: Byte): (s: string)
    ensures |s| == 4 && AllInAlphabet(s)
  {
    [Digit(a / 4), Digit(a % 4 * 16 + b / 16), Digit(b % 16 * 4 + c / 64), Digit(c % 64)]
  }

  function Encode(bytes: seq<Byte>): (s: string)
    ensures AllInAlphabet(s)
    ensures |s| == (|bytes| * 4 + 2) / 3
  {
    if |bytes| == 0 then ""
    else if |bytes| == 1 then Group(bytes[0], 0, 0)[..2]
    else if |bytes| == 2 then Group(bytes[0], bytes[1], 0)[..3]
    else Group(bytes[0], bytes[1], bytes[2]) + Encode(bytes[3..])
  }

  /** Bits that do not fill a byte are dropped, whatever they are. */
  function Decode(s: string): seq<Byte>
    requires AllInAlphabet(s)
  {
    if |s| <= 1 then []
    else
      var w, x := Value(s[0]), Value(s[1]);
      if |s| == 2 then [w * 4 + x / 16]
      else
        var y := Value(s[2]);
        if |s| == 3 then [w * 4 + x / 16, x % 16 * 16 + y / 4]
        else [w * 4 + x / 16, x % 16 * 16 + y / 4, y % 4 * 64 + Value(s[3])] + Decode(s[4..])
  }

  /** Table 2 of RFC 4648: capitals, small letters and digits in their order, then `-` and `_`. */
  lemma Alphabet(n: Sextet)
    ensures Digit(0) == 'A' && Digit(25) == 'Z' && Digit(26) == 'a' && Digit(51) == 'z'
    ensures Digit(52) == '0' && Digit(61) == '9' && Digit(62) == '-' && Digit(63) == '_'
    ensures n != 25 && n != 51 && n < 61 ==> Digit(n + 1) as int == Digit(n) as int + 1
  {
  }

  /** Three bytes and their four digits are the same 24 bits. */
  lemma GroupIsNumber(a: Byte, b: Byte, c: Byte)
    ensures var g := Group(a, b, c);
      ((Value(g[0]) * 64 + Value(g[1])) * 64 + Value(g[2])) * 64 + Value(g[3]) == (a * 256 + b) * 256 + c
  {
    GroupValues(a, b, c);
  }

  /** Test vectors of section 10 of RFC 4648. */
  lemma ShortVectors()
    ensures Encode([102]) == "Zg" && Encode([102, 111]) == "Zm8"
  {
  }

  lemma FooVector()
    ensures Encode([102, 111, 111]) == "Zm9v"
  {
    assert [102, 111, 111][3..] == [];
  }

  lemma SextetOfDigit(n: Sextet)
    ensures InAlphabet(Digit(n)) && Value(Digit(n)) == n
  {
  }

  lemma Regroup(a: Byte, b: Byte, c: Byte)
    ensures (a / 4) * 4 + (a % 4 * 16 + b / 16) / 16 == a
    ensures (a % 4 * 16 + b / 16) % 16 * 16 + (b % 16 * 4 + c / 64) / 4 == b
    ensures (b % 16 * 4 + c / 64) % 4 * 64 + c % 64 == c
  {
  }

  lemma GroupValues(a: Byte, b: Byte, c: Byte)
    ensures Value(Group(a, b, c)[0]) == a / 4 && Value(Group(a, b, c)[1]) == a % 4 * 16 + b / 16
    ensures Value(Group(a, b, c)[2]) == b % 16 * 4 + c / 64 && Value(Group(a, b, c)[3]) == c % 64
  {
    SextetOfDigit(a / 4);
    SextetOfDigit(a % 4 * 16 + b / 16);
    SextetOfDigit(b % 16 * 4 + c / 64);
    SextetOfDigit(c % 64);
  }

  lemma DecodeGroup(a: Byte, b: Byte, c: Byte, rest: string)
    requires AllInAlphabet(rest)
    ensures Decode(Group(a, b, c) + rest) == [a, b, c] + Decode(rest)
  {
    var s := Group(a, b, c) + rest;
    GroupValues(a, b, c);
    Regroup(a, b, c);
    assert s[4..] == rest;
  }

  /** A group cut short keeps the bytes it has. */
  lemma DecodeShort(a: Byte, b: Byte)
    ensures Decode(Group(a, 0, 0)[..2]) == [a] && Decode(Group(a, b, 0)[..3]) == [a, b]
  {
    GroupValues(a, 0, 0);
    GroupValues(a, b, 0);
    Regroup(a, 0, 0);
    Regroup(a, b, 0);
  }

  lemma EncodeShort(bytes: seq<Byte>)
    requires |bytes| == 1 || |bytes| == 2
    ensures Encode(bytes) == if |bytes| == 1 then Group(bytes[0], 0, 0)[..2] else Group(bytes[0], bytes[1], 0)[..3]
  {
  }

  lemma EncodeLong(bytes: seq<Byte>)
    requires |bytes| >= 3
    ensures Encode(bytes) == Group(bytes[0], bytes[1], bytes[2]) + Encode(bytes[3..])
  {
  }

  lemma ShortComesBack(bytes: seq<Byte>)
    requires |bytes| == 1 || |bytes| == 2
    ensures Decode(Encode(bytes)) == bytes
  {
    EncodeShort(bytes);
    DecodeShort(bytes[0], if |bytes| == 1 then 0 else bytes[1]);
    assert bytes == if |bytes| == 1 then [bytes[0]] else [bytes[0], bytes[1]];
  }

  lemma {:induction false} DecodeEncode(bytes: seq<Byte>)
    ensures Decode(Encode(bytes)) == bytes
  {
    if bytes == [] {
      assert Encode(bytes) == "" && Decode("") == [];
    } else if |bytes| < 3 {
      ShortComesBack(bytes);
    } else {
      EncodeLong(bytes);
      DecodeEncode(bytes[3..]);
      DecodeGroup(bytes[0], bytes[1], bytes[2], Encode(bytes[3..]));
      assert [bytes[0], bytes[1], bytes[2]] + bytes[3..] == bytes;
    }
  }

  /** What a lenient decoder looks at: characters outside both base64 alphabets are skipped,
      and `+` and `/` stand for `-` and `_`. */
  function Significant(s: string): (r: string)
    ensures AllInAlphabet(r)
  {
    if s == "" then ""
    else if InAlphabet(s[0]) then [s[0]] + Significant(s[1..])
    else if s[0] == '+' then "-" + Significant(s[1..])
    else if s[0] == '/' then "_" + Significant(s[1..])
    else Significant(s[1..])
  }

  lemma {:induction false} SignificantAlphabet(s: string)
    requires AllInAlphabet(s)
    ensures Significant(s) == s
  {
    if s != "" {
      assert forall i :: 0 <= i < |s[1..]| ==> s[1..][i] == s[i + 1];
      SignificantAlphabet(s[1..]);
      assert s == [s[0]] + s[1..];
    }
  }

  /** The same text in the alphabet of section 4 of RFC 4648. */
  function Standard(s: string): (r: string)
    ensures |r| == |s|
  {
    seq(|s|, i requires 0 <= i < |s| => if s[i] == '-' then '+' else if s[i] == '_' then '/' else s[i])
  }

  lemma {:induction false} BothAlphabets(s: string)
    requires AllInAlphabet(s)
    ensures Significant(Standard(s)) == s
  {
    if s != "" {
      assert InAlphabet(s[0]) && forall i :: 0 <= i < |s[1..]| ==> s[1..][i] == s[i + 1];
      assert Standard(s)[1..] == Standard(s[1..]);
      BothAlphabets(s[1..]);
      assert s == [s[0]] + s[1..];
    }
  }

  /** A character outside both alphabets changes nothing. */
  lemma {:induction false} OthersAreSkipped(s: string, i: nat, c: char)
    requires i <= |s| && !InAlphabet(c) && c != '+' && c != '/'
    ensures Significant(s[..i] + [c] + s[i..]) == Significant(s)
    decreases i
  {
    var t := s[..i] + [c] + s[i..];
    if i == 0 {
      assert t[1..] == s;
    } else {
      assert t[0] == s[0] && t[1..] == s[1..][..i - 1] + [c] + s[1..][i - 1..];
      OthersAreSkipped(s[1..], i - 1, c);
    }
  }
}
