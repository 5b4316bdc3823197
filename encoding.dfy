/** Bytes, the UTF-8 encoding Node applies to strings (`Buffer.from(s, 'utf8')`,
    `hash.update(s, 'utf8')`, `Buffer.byteLength(s, 'utf8')`) and the lower-case
    hexadecimal rendering of `digest('hex')`. */
module Encoding {
  import opened Wrappers
  import opened Strings

  type byte = x: int | 0 <= x < 256

  /** The UTF-8 encoding of one Unicode scalar value (RFC 3629, section 3). */
  function CharUtf8(c: char): (b: seq<byte>)
    ensures 1 <= |b| <= 4
    ensures |b| == 1 <==> c as int < 0x80
  {
    var cp := c as int;
    if cp < 0x80 then [cp]
    else if cp < 0x800 then [0xC0 + cp / 64, 0x80 + cp % 64]
    else if cp < 0x1_0000 then [0xE0 + cp / 4096, 0x80 + (cp / 64) % 64, 0x80 + cp % 64]
    else [0xF0 + cp / 262144, 0x80 + (cp / 4096) % 64, 0x80 + (cp / 64) % 64, 0x80 + cp % 64]
  }

  /** The UTF-8 encoding of a string. */
  function Utf8(s: string): seq<byte> {
    if |s| == 0 then [] else CharUtf8(s[0]) + Utf8(s[1..])
  }

  predicate IsLowerHexChar(c: char) {
    '0' <= c <= '9' || 'a' <= c <= 'f'
  }

  predicate IsUpperHexChar(c: char) {
    '0' <= c <= '9' || 'A' <= c <= 'F'
  }

  function NibbleChar(n: nat): (c: char)
    requires n < 16
    ensures IsLowerHexChar(c)
  {
    if n < 10 then ('0' as int + n) as char else ('a' as int + n - 10) as char
  }

  /** The value of a lower-case hexadecimal digit. */
  function NibbleValue(c: char): Option<nat> {
    if '0' <= c <= '9' then Some(c as int - '0' as int)
    else if 'a' <= c <= 'f' then Some(c as int - 'a' as int + 10)
    else None
  }

  lemma NibbleRoundTrip(n: nat)
    requires n < 16
    ensures NibbleValue(NibbleChar(n)) == Some(n)
  {
  }

  /** `digest('hex')`: two lower-case hexadecimal digits per byte, high nibble first. */
  function Hex(b: seq<byte>): (s: string)
    ensures |s| == 2 * |b|
    ensures forall i :: 0 <= i < |s| ==> IsLowerHexChar(s[i])
  {
    if |b| == 0 then [] else [NibbleChar(b[0] / 16), NibbleChar(b[0] % 16)] + Hex(b[1..])
  }

  /** Reads lower-case hexadecimal back into bytes; `None` for an odd length or a non-digit. */
  function HexDecode(s: string): Option<seq<byte>>
    decreases |s|
  {
    if |s| == 0 then Some([])
    else if |s| == 1 then None
    else
      match (NibbleValue(s[0]), NibbleValue(s[1]), HexDecode(s[2..]))
      case (Some(hi), Some(lo), Some(rest)) =>
        if hi < 16 && lo < 16 then Some([hi * 16 + lo] + rest) else None
      case _ => None
  }

  lemma {:induction false} HexRoundTrip(b: seq<byte>)
    ensures HexDecode(Hex(b)) == Some(b)
    decreases |b|
  {
    if |b| > 0 {
      var s := Hex(b);
      NibbleRoundTrip(b[0] / 16);
      NibbleRoundTrip(b[0] % 16);
      assert s[2..] == Hex(b[1..]);
      HexRoundTrip(b[1..]);
      assert [b[0]] + b[1..] == b;
    }
  }

  /** Only the rendering of a byte string decodes to it, so `HexDecode` and `Hex` are inverse
      both ways. */
  lemma {:induction false} HexDecodeSound(s: string)
    requires HexDecode(s).Some?
    ensures Hex(HexDecode(s).value) == s
    decreases |s|
  {
    if |s| >= 2 {
      HexDecodeSound(s[2..]);
      var b := HexDecode(s).value;
      assert b[1..] == HexDecode(s[2..]).value;
    }
  }

  /** A string decodes to `b` exactly when it is the rendering of `b`. */
  lemma HexDecodeIff(s: string, b: seq<byte>)
    ensures HexDecode(s) == Some(b) <==> s == Hex(b)
  {
    HexRoundTrip(b);
    if HexDecode(s) == Some(b) {
      HexDecodeSound(s);
    }
  }

  /** Upper-casing a lower-case hexadecimal digit gives an upper-case one. */
  lemma UpperHex(c: char)
    requires IsLowerHexChar(c)
    ensures IsUpperHexChar(UpperChar(c))
  {
  }
}
