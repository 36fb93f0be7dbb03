/**
 * How the mailer turns the composed message into the `raw` field of a
 * Gmail send request: `Buffer.from(email)` (UTF-8), `.toString('base64')`
 * (the alphabet and padding of section 4 of RFC 4648), then `+` to `-`,
 * `/` to `_` and the trailing `=` run removed, which is the URL-safe
 * alphabet of section 5 of RFC 4648 without padding.
 */
module Base64 {

  type byte = x: int | 0 <= x < 256

  // ---------------------------------------------------------------------
  // UTF-8
  // ---------------------------------------------------------------------

  /** The UTF-8 encoding of one Unicode scalar value. */
  function Utf8Char(c: char): (r: seq<byte>)
    ensures 1 <= |r| <= 4
    ensures (c as int < 0x80) <==> |r| == 1
  {
    var n := c as int;
    if n < 0x80 then [n]
    else if n < 0x800 then [0xC0 + n / 64, 0x80 + n % 64]
    else if n < 0x10000 then [0xE0 + n / 4096, 0x80 + (n / 64) % 64, 0x80 + n % 64]
    else [0xF0 + n / 262144, 0x80 + (n / 4096) % 64, 0x80 + (n / 64) % 64, 0x80 + n % 64]
  }

  /** `Buffer.from(s)`: the UTF-8 bytes of `s`, one character after another. */
  function Utf8(s: string): (r: seq<byte>)
    ensures |s| <= |r| <= 4 * |s|
  {
    if s == [] then [] else Utf8Char(s[0]) + Utf8(s[1..])
  }

  // ---------------------------------------------------------------------
  // The two alphabets
  // ---------------------------------------------------------------------

  /** The character for a 6-bit value in the alphabet of section 4 of RFC 4648. */
  function Sextet(n: nat): (c: char)
    requires n < 64
  {
    if n < 26 then ('A' as int + n) as char
    else if n < 52 then ('a' as int + n - 26) as char
    else if n < 62 then ('0' as int + n - 52) as char
    else if n == 62 then '+'
    else '/'
  }

  /** The 6-bit value of a character of the alphabet. */
  function SextetValue(c: char): (n: nat)
    ensures n < 64
  {
    if 'A' <= c <= 'Z' then c as int - 'A' as int
    else if 'a' <= c <= 'z' then c as int - 'a' as int + 26
    else if '0' <= c <= '9' then c as int - '0' as int + 52
    else if c == '+' then 62
    else 63
  }

  lemma SextetRoundTrip(n: nat)
    requires n < 64
    ensures SextetValue(Sextet(n)) == n
    ensures Sextet(n) != '='
  {
  }

  /** The substitution `+` to `-`, `/` to `_` of section 5 of RFC 4648. */
  function ToUrlChar(c: char): char {
    if c == '+' then '-' else if c == '/' then '_' else c
  }

  function FromUrlChar(c: char): char {
    if c == '-' then '+' else if c == '_' then '/' else c
  }

  function ToUrl(s: string): (r: string)
    ensures |r| == |s|
    ensures forall k :: 0 <= k < |s| ==> r[k] == ToUrlChar(s[k])
  {
    seq(|s|, k requires 0 <= k < |s| => ToUrlChar(s[k]))
  }

  function FromUrl(s: string): (r: string)
    ensures |r| == |s|
    ensures forall k :: 0 <= k < |s| ==> r[k] == FromUrlChar(s[k])
  {
    seq(|s|, k requires 0 <= k < |s| => FromUrlChar(s[k]))
  }

  // ---------------------------------------------------------------------
  // Encoding
  // ---------------------------------------------------------------------

  /** The four characters for three bytes. */
  function Quad(b0: byte, b1: byte, b2: byte): string {
    [Sextet(b0 / 4), Sextet((b0 % 4) * 16 + b1 / 16), Sextet((b1 % 16) * 4 + b2 / 64), Sextet(b2 % 64)]
  }

  /** Standard base64 without the trailing '=' characters. */
  function EncodeNoPad(b: seq<byte>): (r: string)
    ensures |r| == 4 * (|b| / 3) + (if |b| % 3 == 0 then 0 else |b| % 3 + 1)
    ensures '=' !in r
  {
    if |b| == 0 then ""
    else if |b| == 1 then [Sextet(b[0] / 4), Sextet((b[0] % 4) * 16)]
    else if |b| == 2 then [Sextet(b[0] / 4), Sextet((b[0] % 4) * 16 + b[1] / 16), Sextet((b[1] % 16) * 4)]
    else Quad(b[0], b[1], b[2]) + EncodeNoPad(b[3..])
  }

  /** `Buffer.toString('base64')`: section 4 of RFC 4648, padded with '='. */
  function Encode(b: seq<byte>): (r: string)
    ensures |r| % 4 == 0
  {
    var e := EncodeNoPad(b);
    var pad := Padding(|b|);
    PaddedLength(|b|, |e|, |pad|);
    e + pad
  }

  /** The '=' characters that complete the last group of four. */
  function Padding(n: nat): (r: string)
    ensures forall k :: 0 <= k < |r| ==> r[k] == '='
  {
    if n % 3 == 1 then "==" else if n % 3 == 2 then "=" else ""
  }

  lemma PaddedLength(n: nat, e: nat, p: nat)
    requires e == 4 * (n / 3) + (if n % 3 == 0 then 0 else n % 3 + 1)
    requires p == (if n % 3 == 1 then 2 else if n % 3 == 2 then 1 else 0)
    ensures (e + p) % 4 == 0
  {
    var k := n / 3;
    assert e + p == 4 * k || e + p == 4 * k + 4;
  }

  /** `.replace(/=+$/, '')`: drops the run of '=' at the end. */
  function StripTrailingPad(s: string): (r: string)
    ensures |r| <= |s| && r == s[..|r|]
    ensures r == [] || r[|r| - 1] != '='
    ensures forall k :: |r| <= k < |s| ==> s[k] == '='
  {
    if s != [] && s[|s| - 1] == '=' then StripTrailingPad(s[..|s| - 1]) else s
  }

  /** The `raw` field: UTF-8, base64, URL-safe characters, no padding. */
  function EncodeRaw(message: string): string {
    StripTrailingPad(ToUrl(Encode(Utf8(message))))
  }

  // ---------------------------------------------------------------------
  // Decoding, the partner of encoding
  // ---------------------------------------------------------------------

  /** Base64 without padding back to bytes, four characters at a time. */
  function DecodeNoPad(s: string): seq<byte>
  {
    if |s| < 2 then []
    else if |s| == 2 then
      [SextetValue(s[0]) * 4 + SextetValue(s[1]) / 16]
    else if |s| == 3 then
      var v0, v1, v2 := SextetValue(s[0]), SextetValue(s[1]), SextetValue(s[2]);
      [v0 * 4 + v1 / 16, (v1 % 16) * 16 + v2 / 4]
    else
      var v0, v1, v2, v3 := SextetValue(s[0]), SextetValue(s[1]), SextetValue(s[2]), SextetValue(s[3]);
      [v0 * 4 + v1 / 16, (v1 % 16) * 16 + v2 / 4, (v2 % 4) * 64 + v3] + DecodeNoPad(s[4..])
  }

  /** Decoding the unpadded URL-safe form, as the mail provider does with `raw`. */
  function DecodeRaw(raw: string): seq<byte> {
    DecodeNoPad(FromUrl(raw))
  }

  lemma Split16(x: nat, y: nat)
    requires y < 16
    ensures (x * 16 + y) / 16 == x && (x * 16 + y) % 16 == y
  {
  }

  lemma Split4(x: nat, y: nat)
    requires y < 4
    ensures (x * 4 + y) / 4 == x && (x * 4 + y) % 4 == y
  {
  }

  /** The first byte comes back from the first two sextets. */
  lemma FirstByte(b0: byte, y: nat)
    requires y < 16
    ensures (b0 / 4) * 4 + ((b0 % 4) * 16 + y) / 16 == b0
  {
    Split16(b0 % 4, y);
  }

  /** The second byte comes back from the second and third sextets. */
  lemma SecondByte(x: nat, b1: byte, z: nat)
    requires x < 4 && z < 4
    ensures (((x * 16 + b1 / 16) % 16) * 16 + ((b1 % 16) * 4 + z) / 4) == b1
  {
    Split16(x, b1 / 16);
    Split4(b1 % 16, z);
  }

  /** The third byte comes back from the third and fourth sextets. */
  lemma ThirdByte(x: nat, b2: byte)
    requires x < 16
    ensures ((x * 4 + b2 / 64) % 4) * 64 + b2 % 64 == b2
  {
    Split4(x, b2 / 64);
  }

  lemma QuadRoundTrip(b0: byte, b1: byte, b2: byte)
    ensures DecodeNoPad(Quad(b0, b1, b2)) == [b0, b1, b2]
  {
    var v0, v1, v2, v3 := b0 / 4, (b0 % 4) * 16 + b1 / 16, (b1 % 16) * 4 + b2 / 64, b2 % 64;
    SextetRoundTrip(v0);
    SextetRoundTrip(v1);
    SextetRoundTrip(v2);
    SextetRoundTrip(v3);
    FirstByte(b0, b1 / 16);
    SecondByte(b0 % 4, b1, b2 / 64);
    ThirdByte(b1 % 16, b2);
    var q := Quad(b0, b1, b2);
    assert q[4..] == [];
  }

  lemma OneRoundTrip(b0: byte)
    ensures DecodeNoPad([Sextet(b0 / 4), Sextet((b0 % 4) * 16)]) == [b0]
  {
    SextetRoundTrip(b0 / 4);
    SextetRoundTrip((b0 % 4) * 16);
    FirstByte(b0, 0);
  }

  lemma TwoRoundTrip(b0: byte, b1: byte)
    ensures DecodeNoPad([Sextet(b0 / 4), Sextet((b0 % 4) * 16 + b1 / 16), Sextet((b1 % 16) * 4)]) == [b0, b1]
  {
    SextetRoundTrip(b0 / 4);
    SextetRoundTrip((b0 % 4) * 16 + b1 / 16);
    SextetRoundTrip((b1 % 16) * 4);
    FirstByte(b0, b1 / 16);
    SecondByte(b0 % 4, b1, 0);
  }

  /** Decoding works group by group. */
  lemma DecodeGroups(q: string, rest: string)
    requires |q| == 4
    ensures DecodeNoPad(q + rest) == DecodeNoPad(q) + DecodeNoPad(rest)
  {
    assert (q + rest)[4..] == rest;
    assert q[4..] == [];
    assert (q + rest)[..4] == q;
  }

  /** Decoding undoes encoding. */
  lemma {:induction false} NoPadRoundTrip(b: seq<byte>)
    ensures DecodeNoPad(EncodeNoPad(b)) == b
  {
    if |b| == 1 {
      OneRoundTrip(b[0]);
    } else if |b| == 2 {
      TwoRoundTrip(b[0], b[1]);
    } else if |b| >= 3 {
      NoPadRoundTrip(b[3..]);
      GroupRoundTrip(b);
    }
  }

  /** The first three bytes come back from the first quad, the rest from the rest. */
  lemma GroupRoundTrip(b: seq<byte>)
    requires |b| >= 3 && DecodeNoPad(EncodeNoPad(b[3..])) == b[3..]
    ensures DecodeNoPad(EncodeNoPad(b)) == b
  {
    var q, rest := Quad(b[0], b[1], b[2]), EncodeNoPad(b[3..]);
    assert EncodeNoPad(b) == q + rest;
    assert DecodeNoPad(q + rest) == [b[0], b[1], b[2]] + b[3..] by {
      QuadRoundTrip(b[0], b[1], b[2]);
      DecodeGroups(q, rest);
    }
    FirstThree(b);
  }

  lemma FirstThree(b: seq<byte>)
    requires |b| >= 3
    ensures b == [b[0], b[1], b[2]] + b[3..]
  {
  }

  lemma FromToUrl(s: string)
    requires '-' !in s && '_' !in s
    ensures FromUrl(ToUrl(s)) == s
  {
    assert forall k :: 0 <= k < |s| ==> FromUrlChar(ToUrlChar(s[k])) == s[k];
  }

  lemma StripPad(s: string, pad: string)
    requires s == [] || s[|s| - 1] != '='
    requires forall k :: 0 <= k < |pad| ==> pad[k] == '='
    ensures StripTrailingPad(s + pad) == s
    decreases |pad|
  {
    if pad != [] {
      assert (s + pad)[..|s + pad| - 1] == s + pad[..|pad| - 1];
      StripPad(s, pad[..|pad| - 1]);
    } else {
      assert s + pad == s;
    }
  }

  /** The unpadded standard encoding uses no URL-safe substitute characters. */
  lemma NoPadAlphabet(b: seq<byte>)
    ensures '-' !in EncodeNoPad(b) && '_' !in EncodeNoPad(b)
  {
  }

  /**
   * The `raw` field is the URL-safe form of the unpadded encoding, so the
   * mail provider's base64url decoder gives back exactly the UTF-8 bytes
   * of the message.
   */
  lemma RawRoundTrip(message: string)
    ensures EncodeRaw(message) == ToUrl(EncodeNoPad(Utf8(message)))
    ensures DecodeRaw(EncodeRaw(message)) == Utf8(message)
  {
    var b := Utf8(message);
    var e := EncodeNoPad(b);
    var pad := Padding(|b|);
    assert ToUrl(e + pad) == ToUrl(e) + pad;
    assert ToUrl(e) == [] || ToUrl(e)[|e| - 1] != '=';
    StripPad(ToUrl(e), pad);
    NoPadAlphabet(b);
    FromToUrl(e);
    NoPadRoundTrip(b);
  }

  /**
   * The `raw` field contains no '+', no '/' and no '=' at all: it is
   * base64url without padding.
   */
  lemma RawIsUrlSafe(message: string)
    ensures '+' !in EncodeRaw(message) && '/' !in EncodeRaw(message)
    ensures '=' !in EncodeRaw(message)
    ensures |EncodeRaw(message)| % 4 != 1
  {
    RawRoundTrip(message);
    var b := Utf8(message);
    var e := EncodeNoPad(b);
    UrlSafe(e);
    UnpaddedLength(|b|, |e|);
  }

  /** The URL-safe alphabet holds neither '+' nor '/', and adds no '='. */
  lemma UrlSafe(e: string)
    requires '=' !in e
    ensures '+' !in ToUrl(e) && '/' !in ToUrl(e) && '=' !in ToUrl(e)
  {
    var r := ToUrl(e);
    forall k | 0 <= k < |r| ensures r[k] != '+' && r[k] != '/' && r[k] != '=' {
      assert r[k] == ToUrlChar(e[k]);
    }
  }

  lemma UnpaddedLength(n: nat, e: nat)
    requires e == 4 * (n / 3) + (if n % 3 == 0 then 0 else n % 3 + 1)
    ensures e % 4 != 1
  {
    var k := n / 3;
    assert e == 4 * k || e == 4 * k + 2 || e == 4 * k + 3;
  }
}
