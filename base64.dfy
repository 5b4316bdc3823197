/** The base64 transport of proofs and attachments: `buffer.toString('base64')` is the
    padded encoding of section 4 of RFC 4648; `Buffer.from(s, 'base64')` is Node's lenient
    decoder, which skips characters outside the alphabet (accepting the URL-safe `-` and `_`
    as 62 and 63), stops at the first `=`, and drops a trailing single character. */
module Base64 {
  import opened Wrappers
  import opened Encoding

  /** A six-bit group, the value one base64 character carries. */
  type sextet = x: int | 0 <= x < 64

  /** Table 1 of RFC 4648: A-Z, a-z, 0-9, '+', '/'. */
  function SextetChar(v: sextet): char {
    if v < 26 then ('A' as int + v) as char
    else if v < 52 then ('a' as int + v - 26) as char
    else if v < 62 then ('0' as int + v - 52) as char
    else if v == 62 then '+'
    else '/'
  }

  /** The value Node's decoder gives a character, `None` for one it skips. */
  function SextetValue(c: char): Option<sextet> {
    if 'A' <= c <= 'Z' then Some(c as int - 'A' as int)
    else if 'a' <= c <= 'z' then Some(c as int - 'a' as int + 26)
    else if '0' <= c <= '9' then Some(c as int - '0' as int + 52)
    else if c == '+' || c == '-' then Some(62)
    else if c == '/' || c == '_' then Some(63)
    else None
  }

  /** The 64 characters of Table 1 of RFC 4648 (the URL-safe '-' and '_' are not among them). */
  predicate InAlphabet(c: char) {
    'A' <= c <= 'Z' || 'a' <= c <= 'z' || '0' <= c <= '9' || c == '+' || c == '/'
  }

  lemma SextetRoundTrip(v: sextet)
    ensures SextetValue(SextetChar(v)) == Some(v)
    ensures InAlphabet(SextetChar(v)) && SextetChar(v) != '='
  {
  }

  /** The six-bit groups of `b`, most significant bits first; a final partial group is
      zero-filled on the right (section 4 of RFC 4648), without padding. */
  function Sextets(b: seq<byte>): (q: seq<sextet>)
    ensures |q| == 4 * (|b| / 3) + (if |b| % 3 == 0 then 0 else |b| % 3 + 1)
  {
    if |b| >= 3 then
      [b[0] / 4, (b[0] % 4) * 16 + b[1] / 16, (b[1] % 16) * 4 + b[2] / 64, b[2] % 64] + Sextets(b[3..])
    else if |b| == 2 then [b[0] / 4, (b[0] % 4) * 16 + b[1] / 16, (b[1] % 16) * 4]
    else if |b| == 1 then [b[0] / 4, (b[0] % 4) * 16]
    else []
  }

  function Chars(q: seq<sextet>): (s: string)
    ensures |s| == |q|
    ensures forall i :: 0 <= i < |q| ==> s[i] == SextetChar(q[i])
  {
    seq(|q|, i requires 0 <= i < |q| => SextetChar(q[i]))
  }

  /** `=` characters that complete the last quantum to four characters. */
  function Padding(n: nat): string {
    if n % 3 == 1 then "==" else if n % 3 == 2 then "=" else ""
  }

  /** `buffer.toString('base64')`. */
  function Encode(b: seq<byte>): string {
    Chars(Sextets(b)) + Padding(|b|)
  }

  /** The sextets the decoder reads from `s`: it skips characters outside the alphabet and stops at `=`. */
  function ReadSextets(s: string): seq<sextet> {
    if |s| == 0 || s[0] == '=' then []
    else match SextetValue(s[0])
      case Some(v) => [v] + ReadSextets(s[1..])
      case None => ReadSextets(s[1..])
  }

  /** The first byte of a group: six bits of the first sextet, two of the second. */
  function Byte0(a: sextet, b: sextet): byte {
    a * 4 + b / 16
  }

  /** The second byte of a group: four bits of the second sextet, four of the third. */
  function Byte1(b: sextet, c: sextet): byte {
    (b % 16) * 16 + c / 4
  }

  /** The third byte of a group: two bits of the third sextet, six of the fourth. */
  function Byte2(c: sextet, d: sextet): byte {
    (c % 4) * 64 + d
  }

  /** Reassembles bytes from six-bit groups: four groups make three bytes, a final three
      make two, a final two make one, and a final lone group is dropped. */
  function Bytes(q: seq<sextet>): seq<byte> {
    if |q| >= 4 then
      [Byte0(q[0], q[1]), Byte1(q[1], q[2]), Byte2(q[2], q[3])] + Bytes(q[4..])
    else if |q| == 3 then [Byte0(q[0], q[1]), Byte1(q[1], q[2])]
    else if |q| == 2 then [Byte0(q[0], q[1])]
    else []
  }

  /** `Buffer.from(s, 'base64')`. */
  function Decode(s: string): seq<byte> {
    Bytes(ReadSextets(s))
  }

  /** The encoding is four characters per started group of three bytes, all from the
      alphabet except the trailing padding. */
  lemma EncodeShape(b: seq<byte>)
    ensures |Encode(b)| == 4 * ((|b| + 2) / 3)
    ensures forall i :: 0 <= i < |Sextets(b)| ==> InAlphabet(Encode(b)[i]) && Encode(b)[i] != '='
    ensures forall i :: |Sextets(b)| <= i < |Encode(b)| ==> Encode(b)[i] == '='
  {
    forall i | 0 <= i < |Sextets(b)| ensures InAlphabet(Encode(b)[i]) && Encode(b)[i] != '=' {
      SextetRoundTrip(Sextets(b)[i]);
    }
  }

  lemma {:induction false} ReadChars(q: seq<sextet>, tail: string)
    requires tail == [] || tail[0] == '='
    ensures ReadSextets(Chars(q) + tail) == q
    decreases |q|
  {
    if |q| == 0 {
      assert Chars(q) + tail == tail;
    } else {
      SextetRoundTrip(q[0]);
      assert (Chars(q) + tail)[1..] == Chars(q[1..]) + tail;
      ReadChars(q[1..], tail);
    }
  }

  /** One group of three bytes survives the trip through four sextets. */
  lemma GroupRoundTrip(b0: byte, b1: byte, b2: byte)
    ensures Byte0(b0 / 4, (b0 % 4) * 16 + b1 / 16) == b0
    ensures Byte1((b0 % 4) * 16 + b1 / 16, (b1 % 16) * 4 + b2 / 64) == b1
    ensures Byte2((b1 % 16) * 4 + b2 / 64, b2 % 64) == b2
  {
  }

  lemma {:induction false} BytesOfSextets(b: seq<byte>)
    ensures Bytes(Sextets(b)) == b
    decreases |b|
  {
    if |b| >= 3 {
      GroupRoundTrip(b[0], b[1], b[2]);
      var q := Sextets(b);
      assert q[4..] == Sextets(b[3..]);
      BytesOfSextets(b[3..]);
      assert b == [b[0], b[1], b[2]] + b[3..];
    } else if |b| == 2 {
      GroupRoundTrip(b[0], b[1], 0);
    } else if |b| == 1 {
      GroupRoundTrip(b[0], 0, 0);
    }
  }

  /** Whatever `toString('base64')` produced, `Buffer.from(_, 'base64')` turns back into the same bytes. */
  lemma RoundTrip(b: seq<byte>)
    ensures Decode(Encode(b)) == b
  {
    ReadChars(Sextets(b), Padding(|b|));
    BytesOfSextets(b);
  }


}
