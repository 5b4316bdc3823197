/** Content fingerprinting (backend/utils/hasher.js). The digest algorithms of Node's `crypto`
    are not modelled: each is a function parameter whose results have the algorithm's fixed
    length, so nothing here depends on how the digest is computed. */
module Hasher {
  import opened Wrappers
  import opened Strings
  import opened Encoding

  type Digest16 = s: seq<byte> | |s| == 16 witness seq(16, _ => 0)
  type Digest20 = s: seq<byte> | |s| == 20 witness seq(20, _ => 0)
  type Digest32 = s: seq<byte> | |s| == 32 witness seq(32, _ => 0)
  type Digest64 = s: seq<byte> | |s| == 64 witness seq(64, _ => 0)

  /** SHA-256, MD5, SHA-1 and SHA-512 over a byte string. */
  type Sha256 = seq<byte> -> Digest32
  type Md5 = seq<byte> -> Digest16
  type Sha1 = seq<byte> -> Digest20
  type Sha512 = seq<byte> -> Digest64

  /** The JavaScript values the hashing functions are called with: a string, a `Buffer`, or
      nothing (`undefined` or `null`). */
  datatype Input = Text(text: string) | Buffer(bytes: seq<byte>) | Missing

  /** The bytes Node's `hash.update` consumes for an accepted input (strings as UTF-8). */
  function Content(input: Input): seq<byte>
    requires !input.Missing?
  {
    match input
    case Text(s) => Utf8(s)
    case Buffer(b) => b
  }

  const TextRequired := "Text input is required"
  const BufferRequired := "Valid buffer is required"

  /** A fingerprint as `digest('hex')` returns it: 64 lower-case hexadecimal digits. */
  ghost predicate IsFingerprint(h: string) {
    |h| == 64 && forall i :: 0 <= i < |h| ==> IsLowerHexChar(h[i])
  }

  /** `hashText(text)`: any truthy value is hashed (a `Buffer` as its bytes, whatever the
      'utf8' hint); a missing or empty text throws. */
  function HashText(sha256: Sha256, input: Input): (r: Result<string>)
    ensures r.Failure? <==> input.Missing? || input == Text("")
    ensures r.Failure? ==> r.error == TextRequired
    ensures r.Success? ==> IsFingerprint(r.value) && HexDecode(r.value) == Some(sha256(Content(input)))
  {
    match input
    case Missing => Failure(TextRequired)
    case Text(s) =>
      if s == "" then Failure(TextRequired)
      else HexRoundTrip(sha256(Utf8(s))); Success(Hex(sha256(Utf8(s))))
    case Buffer(b) => HexRoundTrip(sha256(b)); Success(Hex(sha256(b)))
  }

  /** `hashFile(buffer)`: only a `Buffer` is accepted, an empty one included. */
  function HashFile(sha256: Sha256, input: Input): (r: Result<string>)
    ensures r.Success? <==> input.Buffer?
    ensures r.Failure? ==> r.error == BufferRequired
    ensures r.Success? ==> IsFingerprint(r.value) && HexDecode(r.value) == Some(sha256(input.bytes))
  {
    match input
    case Buffer(b) => HexRoundTrip(sha256(b)); Success(Hex(sha256(b)))
    case _ => Failure(BufferRequired)
  }

  /** The SHA-256 fingerprint `generateHashBundle` and `verifyHash` compute: `hashFile` for a
      `Buffer`, `hashText` for anything else. */
  function Fingerprint(sha256: Sha256, input: Input): Result<string> {
    if input.Buffer? then HashFile(sha256, input) else HashText(sha256, input)
  }

  /** `verifyHash(input, expectedHash)`: throws where `hashText` throws, and otherwise says
      whether the expected hash is exactly the hexadecimal SHA-256 of the content. */
  function VerifyHash(sha256: Sha256, input: Input, expected: string): (r: Result<bool>)
    ensures r.Failure? <==> input.Missing? || input == Text("")
    ensures r.Success? ==> (r.value <==> HexDecode(expected) == Some(sha256(Content(input))))
  {
    match Fingerprint(sha256, input)
    case Success(actual) =>
      HexDecodeIff(expected, sha256(Content(input)));
      Success(actual == expected)
    case Failure(e) => Failure(e)
  }

  /** A fingerprint that `hashText` or `hashFile` returned verifies against its own content. */
  lemma VerifyOwnHash(sha256: Sha256, input: Input)
    requires Fingerprint(sha256, input).Success?
    ensures VerifyHash(sha256, input, Fingerprint(sha256, input).value) == Success(true)
  {
  }

  /** Whatever is hashed before the truncation in `generateCertificateId`: the hash text
      followed by the decimal milliseconds. */
  function CertificateIdPreimage(hash: string, millis: nat): string {
    hash + Decimal(millis)
  }

  const CertificatePrefix := "CERT_"

  /** `generateCertificateId(hash)` at clock reading `millis` (`Date.now()`): 'CERT_' and the
      first 16 hexadecimal digits of SHA-256 over the UTF-8 of hash + millis, upper-cased. */
  function CertificateId(sha256: Sha256, hash: string, millis: nat): (id: string)
    ensures |id| == 21 && id[..5] == CertificatePrefix
    ensures forall i :: 5 <= i < 21 ==> IsUpperHexChar(id[i])
    ensures id[5..] == ToUpperAscii(Hex(sha256(Utf8(CertificateIdPreimage(hash, millis))))[..16])
  {
    var digits := Hex(sha256(Utf8(CertificateIdPreimage(hash, millis))))[..16];
    forall i | 0 <= i < 16 ensures IsUpperHexChar(UpperChar(digits[i])) {
      UpperHex(digits[i]);
    }
    CertificatePrefix + ToUpperAscii(digits)
  }

  /** Two clock readings give two different texts to hash, so the identifier is salted by
      the issuance time (whether the truncated digests differ is up to SHA-256). */
  lemma CertificateIdSalted(hash: string, t1: nat, t2: nat)
    requires t1 != t2
    ensures CertificateIdPreimage(hash, t1) != CertificateIdPreimage(hash, t2)
  {
    DecimalInjective(t1, t2);
    assert CertificateIdPreimage(hash, t1)[|hash|..] == Decimal(t1);
    assert CertificateIdPreimage(hash, t2)[|hash|..] == Decimal(t2);
  }

  /** The object `generateHashBundle` returns. */
  datatype HashBundle = HashBundle(
    sha256: string, md5: string, sha1: string, sha512: string, timestamp: string, size: nat)

  /** `generateHashBundle(input)` at ISO time `now`: the SHA-256 fingerprint (throwing as
      `hashText`/`hashFile` do), the other three digests of the same bytes, and the byte size. */
  function HashBundleOf(sha256: Sha256, md5: Md5, sha1: Sha1, sha512: Sha512, input: Input, now: string)
    : (r: Result<HashBundle>)
    ensures r.Failure? <==> input.Missing? || input == Text("")
    ensures r.Success? ==> Fingerprint(sha256, input) == Success(r.value.sha256)
    ensures r.Success? ==> r.value.size == |Content(input)|
    ensures r.Success? ==> |r.value.md5| == 32 && |r.value.sha1| == 40 && |r.value.sha512| == 128
    ensures r.Success? ==> HexDecode(r.value.md5) == Some(md5(Content(input)))
    ensures r.Success? ==> HexDecode(r.value.sha1) == Some(sha1(Content(input)))
    ensures r.Success? ==> HexDecode(r.value.sha512) == Some(sha512(Content(input)))
    ensures r.Success? ==> r.value.timestamp == now
  {
    match Fingerprint(sha256, input)
    case Failure(e) => Failure(e)
    case Success(h) =>
      var bytes := Content(input);
      HexRoundTrip(md5(bytes));
      HexRoundTrip(sha1(bytes));
      HexRoundTrip(sha512(bytes));
      Success(HashBundle(h, Hex(md5(bytes)), Hex(sha1(bytes)), Hex(sha512(bytes)), now, |bytes|))
  }
}
