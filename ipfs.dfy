/** The IPFS helpers of backend/utils/ipfs.js: the certificate metadata record, the credential
    guards of the uploads, and how an upload's reply is turned into a result or an error.
    The HTTP exchange itself is an outcome parameter; the request bodies are not modelled. */
module Ipfs {
  import opened Wrappers
  import opened Strings
  import opened Encoding
  import Base64
  import OpenTimestamps

  const PinataGateway := "https://gateway.pinata.cloud/ipfs/"
  const PublicGateway := "https://ipfs.io/ipfs/"
  const PinataCredentialsMissing := "Pinata API credentials not configured"
  const Web3TokenMissing := "Web3.Storage token not configured"
  const UnknownError := "Unknown error"

  /** PINATA_API_KEY and PINATA_SECRET_KEY. */
  datatype PinataEnv = PinataEnv(apiKey: JsString, secretKey: JsString)

  predicate PinataConfigured(env: PinataEnv) {
    Truthy(env.apiKey) && Truthy(env.secretKey)
  }

  /** The parsed JSON of a Pinata reply (the properties the code reads). */
  datatype PinataJson = PinataJson(ipfsHash: JsString, pinSize: Option<nat>, timestamp: JsString, error: JsString)

  /** What `fetch` and `response.json()` give: a reply with its `ok` flag, or a raised error. */
  datatype Reply<J> = Replied(ok: bool, json: J) | Raised(message: string)

  /** The result of a Pinata upload. */
  datatype PinResult = PinResult(
    success: bool, ipfsHash: JsString, pinSize: Option<nat>, timestamp: JsString,
    gatewayUrl: string, publicUrl: string)

  /** The `try` block shared by both Pinata uploads: an ok reply gives the pinned hash and its
      two gateway URLs; anything else is re-thrown as `errorPrefix` + the message, where a
      non-ok reply's message is `failedPrefix` + `result.error || 'Unknown error'`. */
  function Pinned(reply: Reply<PinataJson>, failedPrefix: string, errorPrefix: string): (r: Result<PinResult>)
    ensures r.Success? <==> reply.Replied? && reply.ok
    ensures r.Success? ==>
      && r.value.success && r.value.ipfsHash == reply.json.ipfsHash
      && r.value.pinSize == reply.json.pinSize && r.value.timestamp == reply.json.timestamp
      && r.value.gatewayUrl == PinataGateway + Interpolate(reply.json.ipfsHash)
      && r.value.publicUrl == PublicGateway + Interpolate(reply.json.ipfsHash)
    ensures r.Failure? ==> StartsWith(r.error, errorPrefix)
    ensures reply.Raised? ==> r == Failure(errorPrefix + reply.message)
    ensures reply.Replied? && !reply.ok ==>
      r == Failure(errorPrefix + failedPrefix + OrElse(reply.json.error, UnknownError))
  {
    match reply
    case Raised(m) => Failure(errorPrefix + m)
    case Replied(ok, json) =>
      if !ok then Failure(errorPrefix + failedPrefix + OrElse(json.error, UnknownError))
      else
        var hash := Interpolate(json.ipfsHash);
        Success(PinResult(true, json.ipfsHash, json.pinSize, json.timestamp, PinataGateway + hash, PublicGateway + hash))
  }

  /** `uploadToIPFS(fileBuffer, fileName, metadata)`: without both credentials it throws
      before any request, so the reply plays no part. */
  function UploadToIpfs(env: PinataEnv, reply: Reply<PinataJson>): (r: Result<PinResult>)
    ensures !PinataConfigured(env) ==> r == Failure(PinataCredentialsMissing)
    ensures PinataConfigured(env) ==> r == Pinned(reply, "Pinata upload failed: ", "IPFS upload error: ")
  {
    if !PinataConfigured(env) then Failure(PinataCredentialsMissing)
    else Pinned(reply, "Pinata upload failed: ", "IPFS upload error: ")
  }

  /** `uploadMetadataToIPFS(metadata, name)`, guarded the same way. */
  function UploadMetadataToIpfs(env: PinataEnv, reply: Reply<PinataJson>): (r: Result<PinResult>)
    ensures !PinataConfigured(env) ==> r == Failure(PinataCredentialsMissing)
    ensures PinataConfigured(env) ==> r == Pinned(reply, "Pinata JSON upload failed: ", "IPFS metadata upload error: ")
  {
    if !PinataConfigured(env) then Failure(PinataCredentialsMissing)
    else Pinned(reply, "Pinata JSON upload failed: ", "IPFS metadata upload error: ")
  }

  /** The credential error cannot be mistaken for an upload error: an upload fails with the
      credentials message exactly when a credential is missing, and then whatever the reply. */
  lemma PinataGuardFirst(env: PinataEnv, reply: Reply<PinataJson>, other: Reply<PinataJson>)
    ensures UploadToIpfs(env, reply) == Failure(PinataCredentialsMissing) <==> !PinataConfigured(env)
    ensures UploadMetadataToIpfs(env, reply) == Failure(PinataCredentialsMissing) <==> !PinataConfigured(env)
    ensures !PinataConfigured(env) ==>
      UploadToIpfs(env, reply) == UploadToIpfs(env, other)
      && UploadMetadataToIpfs(env, reply) == UploadMetadataToIpfs(env, other)
  {
    if PinataConfigured(env) {
      var r := UploadToIpfs(env, reply);
      if r.Failure? {
        assert r.error[0] != PinataCredentialsMissing[0];
      }
      var m := UploadMetadataToIpfs(env, reply);
      if m.Failure? {
        assert m.error[0] != PinataCredentialsMissing[0];
      }
    }
  }

  /** Both URLs of a pinned upload name the same content: stripping the gateway prefixes gives
      back the same hash. */
  lemma PinnedUrlsAgree(reply: Reply<PinataJson>, failedPrefix: string, errorPrefix: string)
    requires Pinned(reply, failedPrefix, errorPrefix).Success?
    ensures var p := Pinned(reply, failedPrefix, errorPrefix).value;
      && StartsWith(p.gatewayUrl, PinataGateway) && StartsWith(p.publicUrl, PublicGateway)
      && p.gatewayUrl[|PinataGateway|..] == p.publicUrl[|PublicGateway|..] == Interpolate(p.ipfsHash)
  {
    var p := Pinned(reply, failedPrefix, errorPrefix).value;
    assert p.gatewayUrl[|PinataGateway|..] == Interpolate(p.ipfsHash);
    assert p.publicUrl[|PublicGateway|..] == Interpolate(p.ipfsHash);
  }

  /** The parsed JSON of a web3.storage reply. */
  datatype Web3Json = Web3Json(cid: JsString, message: JsString)

  datatype Web3Result = Web3Result(success: bool, cid: JsString, gatewayUrl: string, publicUrl: string)

  /** `uploadToWeb3Storage(fileBuffer, fileName)` with WEB3_STORAGE_TOKEN `token`. */
  function UploadToWeb3Storage(token: JsString, reply: Reply<Web3Json>): (r: Result<Web3Result>)
    ensures !Truthy(token) ==> r == Failure(Web3TokenMissing)
    ensures Truthy(token) ==> (r.Success? <==> reply.Replied? && reply.ok)
    ensures r.Success? ==>
      && r.value.success && r.value.cid == reply.json.cid
      && r.value.gatewayUrl == "https://" + Interpolate(reply.json.cid) + ".ipfs.w3s.link"
      && r.value.publicUrl == PublicGateway + Interpolate(reply.json.cid)
    ensures Truthy(token) && reply.Raised? ==> r == Failure("Web3.Storage upload error: " + reply.message)
    ensures Truthy(token) && reply.Replied? && !reply.ok ==>
      r == Failure("Web3.Storage upload error: Web3.Storage upload failed: " + OrElse(reply.json.message, UnknownError))
  {
    if !Truthy(token) then Failure(Web3TokenMissing)
    else match reply
      case Raised(m) => Failure("Web3.Storage upload error: " + m)
      case Replied(ok, json) =>
        if !ok then Failure("Web3.Storage upload error: Web3.Storage upload failed: " + OrElse(json.message, UnknownError))
        else
          var cid := Interpolate(json.cid);
          Success(Web3Result(true, json.cid, "https://" + cid + ".ipfs.w3s.link", PublicGateway + cid))
  }

  /** The `certData` properties `createCertificateMetadata` reads. */
  datatype CertData = CertData(
    certificateId: JsString, userName: JsString, email: JsString, title: JsString,
    fileName: JsString, blockchain: JsString)

  datatype CertificateInfo = CertificateInfo(id: JsString, userName: JsString, email: JsString, title: JsString, fileName: JsString)
  datatype Verification = Verification(
    fileHash: JsString, hashAlgorithm: string, blockchain: string, timestamp: string,
    verificationUrl: string, otsData: Option<string>)
  datatype IpfsInfo = IpfsInfo(uploadedAt: string, network: string)

  /** The metadata record stored next to a certificate. */
  datatype CertificateMetadata = CertificateMetadata(
    version: string, kind: string, createdAt: string, certificate: CertificateInfo,
    verification: Verification, ipfs: IpfsInfo)

  const DefaultBlockchain := "Bitcoin (OpenTimestamps)"

  /** `createCertificateMetadata(certData, fileHash, timestampData)`; `createdAt` and
      `uploadedAt` are its two readings of the clock. */
  function CreateCertificateMetadata(
    certData: CertData, fileHash: JsString, timestampData: OpenTimestamps.TimestampResult,
    createdAt: string, uploadedAt: string): (m: CertificateMetadata)
    ensures m.version == "1.0" && m.kind == "blockchain-certificate"
    ensures m.verification.hashAlgorithm == "SHA256" && m.ipfs.network == "IPFS via Pinata"
    ensures m.verification.blockchain == OrElse(certData.blockchain, DefaultBlockchain)
    ensures m.verification.blockchain != ""
    ensures m.certificate == CertificateInfo(certData.certificateId, certData.userName, certData.email,
                                             certData.title, certData.fileName)
    ensures && m.verification.fileHash == fileHash
            && m.verification.timestamp == timestampData.timestamp
            && m.verification.verificationUrl == timestampData.verificationUrl
            && m.verification.otsData == timestampData.otsData
    ensures m.createdAt == createdAt && m.ipfs.uploadedAt == uploadedAt
  {
    CertificateMetadata(
      "1.0", "blockchain-certificate", createdAt,
      CertificateInfo(certData.certificateId, certData.userName, certData.email, certData.title, certData.fileName),
      Verification(fileHash, "SHA256", OrElse(certData.blockchain, DefaultBlockchain),
                   timestampData.timestamp, timestampData.verificationUrl, timestampData.otsData),
      IpfsInfo(uploadedAt, "IPFS via Pinata"))
  }

  /** A proof carried in base64 by a timestamp result survives the metadata record: decoding
      the record's `otsData` gives the proof's bytes back. */
  lemma MetadataKeepsProof(
    certData: CertData, fileHash: JsString, timestampData: OpenTimestamps.TimestampResult,
    createdAt: string, uploadedAt: string, proof: seq<byte>)
    requires timestampData.otsData == Some(Base64.Encode(proof))
    ensures var m := CreateCertificateMetadata(certData, fileHash, timestampData, createdAt, uploadedAt);
      m.verification.otsData.Some? && Base64.Decode(m.verification.otsData.value) == proof
  {
    Base64.RoundTrip(proof);
  }
}
