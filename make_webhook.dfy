/** The Make.com notification of backend/utils/makeWebhook.js: the webhook address is
    normalised, a chain of checks decides whether a request is made, and the certificate with
    its PDF (in base64) is posted as JSON. `fetch` and `new URL` are oracles. */
module MakeWebhook {
  import opened Wrappers
  import opened Strings
  import opened Encoding
  import Base64

  const HookMarker := "@hook."
  const HttpPrefix := "http"
  const FailedPrefix := "Webhook failed: "
  const NotConfigured := "Webhook URL not configured"
  const Disabled := "Webhook disabled via configuration"
  const NoEmail := "No email address provided"
  const UnexpectedPrefix := "Unexpected webhook error: "

  /** The message of the `TypeError` that `new URL` throws on an unparsable address. */
  const InvalidUrlMessage := "Invalid URL"

  /** The message of the `TypeError` that `pdfBuffer.toString` throws when no buffer is given. */
  const MissingPdfMessage := "Cannot read properties of undefined (reading 'toString')"

  function InvalidFormat(configured: string): string {
    "Invalid webhook URL format: " + configured + ". Expected format: https://hook.us2.make.com/YOUR_WEBHOOK_ID"
  }

  /** The normalisation of MAKE_WEBHOOK_URL: trimmed; an `id@hook.domain` address with one '@'
      becomes `https://hook.domain/id`; any other address without an 'http' prefix gets
      'https://' in front, except an '@hook.' address with several '@', which is kept. */
  function NormalizeUrl(raw: string): string {
    var t := Trim(raw);
    if Contains(t, HookMarker) && !StartsWith(t, HttpPrefix) then
      var parts := Split(t, '@');
      if |parts| == 2 then "https://" + parts[1] + "/" + parts[0] else t
    else if !StartsWith(t, HttpPrefix) then "https://" + t
    else t
  }

  /** The four cases of the normalisation, stated on the trimmed address. */
  lemma NormalizeUrlCases(raw: string)
    ensures var t := Trim(raw);
      && (StartsWith(t, HttpPrefix) ==> NormalizeUrl(raw) == t)
      && (!StartsWith(t, HttpPrefix) && !Contains(t, HookMarker) ==> NormalizeUrl(raw) == "https://" + t)
      && (!StartsWith(t, HttpPrefix) && Contains(t, HookMarker) && Count(t, '@') != 1 ==> NormalizeUrl(raw) == t)
      && (!StartsWith(t, HttpPrefix) && Contains(t, HookMarker) && Count(t, '@') == 1 ==>
            exists id, domain :: '@' !in id && '@' !in domain && t == id + "@" + domain
                                 && NormalizeUrl(raw) == "https://" + domain + "/" + id)
  {
    var t := Trim(raw);
    if !StartsWith(t, HttpPrefix) && Contains(t, HookMarker) {
      SplitCount(t, '@');
      if Count(t, '@') == 1 {
        SplitOnce(t, '@');
        var parts := Split(t, '@');
        assert NormalizeUrl(raw) == "https://" + parts[1] + "/" + parts[0];
        assert t == parts[0] + "@" + parts[1];
      }
    }
  }

  /** An address `id@domain` (trimmed, one '@', containing '@hook.', no 'http' prefix) is
      rewritten to `https://domain/id`, whatever the id and the domain are. */
  lemma NormalizeHookAddress(raw: string, id: string, domain: string)
    requires Trim(raw) == id + "@" + domain && '@' !in id && '@' !in domain
    requires Contains(Trim(raw), HookMarker) && !StartsWith(Trim(raw), HttpPrefix)
    ensures NormalizeUrl(raw) == "https://" + domain + "/" + id
  {
    SplitAround(id, domain, '@');
  }

  /** The result has an 'http' prefix unless it is an '@hook.' address with several '@' (or
      none after trimming), which the normalisation leaves as it is. */
  lemma NormalizeGivesScheme(raw: string)
    ensures StartsWith(NormalizeUrl(raw), HttpPrefix) <==>
      (StartsWith(Trim(raw), HttpPrefix) || !Contains(Trim(raw), HookMarker) || Count(Trim(raw), '@') == 1)
  {
    SplitCount(Trim(raw), '@');
  }

  /** The two settings read from the environment: MAKE_WEBHOOK_URL and MAKE_WEBHOOK_ENABLED. */
  datatype WebhookEnv = WebhookEnv(url: JsString, enabled: JsString)

  /** The `certificateData` fields the payload reads. */
  datatype CertificateData = CertificateData(
    certificateId: JsString, certificateNumber: JsString, userName: JsString, email: JsString,
    title: JsString, fileName: JsString, fileHash: JsString, timestamp: JsString,
    createdAt: JsString, blockchain: JsString, verificationUrl: JsString, merkleRoot: JsString,
    ipfsCid: JsString, ipfsUrl: JsString, ipfsMetadataUrl: JsString, ipfsOriginalUrl: JsString,
    otsUrl: JsString)

  datatype Attachment = Attachment(filename: string, content: string, contentType: string)
  datatype SystemInfo = SystemInfo(generatedBy: string, apiVersion: string, timestamp: string)

  /** The JSON body posted to the webhook (absent properties are dropped by `JSON.stringify`). */
  datatype Payload = Payload(
    certificateId: JsString, certificateNumber: JsString, userName: JsString, email: JsString,
    title: JsString, fileName: JsString, fileHash: JsString, timestamp: JsString,
    createdAt: JsString, blockchain: JsString, verificationUrl: JsString, merkleRoot: JsString,
    ipfsCid: JsString, ipfsUrl: JsString, ipfsCertificateUrl: JsString, ipfsMetadataUrl: JsString,
    ipfsOriginalUrl: JsString, otsUrl: JsString, pdfAttachment: Attachment, systemInfo: SystemInfo)

  /** The payload built from `certificateData` and the PDF at ISO time `now`. The certificate
      number falls back to the id, the IPFS certificate URL repeats the IPFS URL, and the
      attachment carries the PDF in base64, which decodes back to the same bytes. */
  function PayloadOf(data: CertificateData, pdf: seq<byte>, now: string): (p: Payload)
    ensures p.certificateNumber == Or(data.certificateNumber, data.certificateId)
    ensures p.ipfsCertificateUrl == data.ipfsUrl && p.ipfsUrl == data.ipfsUrl
    ensures p.pdfAttachment.filename == "CERT_" + Interpolate(data.certificateId) + ".pdf"
    ensures Base64.Decode(p.pdfAttachment.content) == pdf
    ensures p.pdfAttachment.contentType == "application/pdf"
    ensures p.systemInfo == SystemInfo("CERT.ONE", "1.0.0", now)
    ensures && p.certificateId == data.certificateId && p.userName == data.userName
            && p.email == data.email && p.title == data.title && p.fileName == data.fileName
            && p.fileHash == data.fileHash && p.timestamp == data.timestamp
            && p.createdAt == data.createdAt && p.blockchain == data.blockchain
            && p.verificationUrl == data.verificationUrl && p.merkleRoot == data.merkleRoot
            && p.ipfsCid == data.ipfsCid && p.ipfsMetadataUrl == data.ipfsMetadataUrl
            && p.ipfsOriginalUrl == data.ipfsOriginalUrl && p.otsUrl == data.otsUrl
  {
    Base64.RoundTrip(pdf);
    Payload(
      data.certificateId, Or(data.certificateNumber, data.certificateId), data.userName, data.email,
      data.title, data.fileName, data.fileHash, data.timestamp, data.createdAt, data.blockchain,
      data.verificationUrl, data.merkleRoot, data.ipfsCid, data.ipfsUrl, data.ipfsUrl,
      data.ipfsMetadataUrl, data.ipfsOriginalUrl, data.otsUrl,
      Attachment("CERT_" + Interpolate(data.certificateId) + ".pdf", Base64.Encode(pdf), "application/pdf"),
      SystemInfo("CERT.ONE", "1.0.0", now))
  }

  /** The POST made to the webhook. */
  datatype Request = Request(url: string, payload: Payload)

  /** What `fetch` (and the read of the response text) gives: a response, or a raised error. */
  datatype FetchOutcome =
    | Responded(ok: bool, status: nat, statusText: string, body: string)
    | Raised(message: string)

  type Fetch = Request -> FetchOutcome

  /** `new URL(url)` succeeds. */
  type UrlCheck = string -> bool

  /** The object `sendToMakeWebhook` returns; `error` is the message of the error it carries. */
  datatype WebhookResult = WebhookResult(success: bool, details: string, error: Option<string>, response: Option<string>)

  /** The result once the request was made: success exactly on an ok response; any other
      outcome is a failure whose details are 'Webhook failed: ' and the error message. */
  function Delivered(outcome: FetchOutcome): (r: WebhookResult)
    ensures r.success <==> outcome.Responded? && outcome.ok
    ensures r.success ==> r.error == None && r.response == Some(outcome.body)
    ensures r.success ==> r.details == "Email notification sent to Make webhook (" + Decimal(outcome.status) + ")"
    ensures !r.success ==> r.error.Some? && r.details == FailedPrefix + r.error.value && r.response == None
    ensures outcome.Raised? ==> r.error == Some(outcome.message)
    ensures outcome.Responded? && !outcome.ok ==>
      r.error == Some("Webhook request failed: " + Decimal(outcome.status) + " " + outcome.statusText)
  {
    match outcome
    case Raised(m) => WebhookResult(false, FailedPrefix + m, Some(m), None)
    case Responded(ok, status, statusText, body) =>
      if ok then WebhookResult(true, "Email notification sent to Make webhook (" + Decimal(status) + ")", None, Some(body))
      else
        var m := "Webhook request failed: " + Decimal(status) + " " + statusText;
        WebhookResult(false, FailedPrefix + m, Some(m), None)
  }

  /** The email check: missing, empty or only whitespace. */
  predicate NoRecipient(email: JsString) {
    !Truthy(email) || Trim(email.value) == ""
  }

  /** The email check turns away exactly a missing address and one made only of whitespace
      (the empty one included). */
  lemma NoRecipientIff(email: JsString)
    ensures NoRecipient(email) <==> email.None? || AllWhitespace(email.value)
  {
    if email.Some? {
      TrimEmptyIff(email.value);
    }
  }

  /** A details text that does not begin like 'Unexpected webhook error: '. */
  lemma NotUnexpected(details: string)
    requires details != [] && details[0] != UnexpectedPrefix[0]
    ensures !StartsWith(details, UnexpectedPrefix)
  {
  }

  /** No outcome of the request gives the 'Unexpected webhook error: ' details. */
  lemma DeliveredNotUnexpected(outcome: FetchOutcome)
    ensures !StartsWith(Delivered(outcome).details, UnexpectedPrefix)
  {
    var d := Delivered(outcome).details;
    if Delivered(outcome).success {
      assert d[0] == 'E';
    } else {
      assert d[0] == FailedPrefix[0];
    }
    NotUnexpected(d);
  }

  /** `sendToMakeWebhook(certificateData, pdfBuffer)` at ISO time `now`. The checks run in a
      fixed order (configured, valid URL, enabled, recipient) and each failing one returns
      without a request; `sent` is the request made, if any. It never throws: a missing PDF
      buffer and every failure of the request end in 'Webhook failed: '. */
  method SendToMakeWebhook(env: WebhookEnv, data: CertificateData, pdf: Option<seq<byte>>,
                           isValid: UrlCheck, fetch: Fetch, now: string)
    returns (r: WebhookResult, sent: Option<Request>)
    ensures !Truthy(env.url) ==> r == WebhookResult(false, NotConfigured, None, None) && sent == None
    ensures Truthy(env.url) && !isValid(NormalizeUrl(env.url.value)) ==>
      && r == WebhookResult(false, InvalidFormat(env.url.value), Some(InvalidUrlMessage), None)
      && sent == None
    ensures Truthy(env.url) && isValid(NormalizeUrl(env.url.value)) && env.enabled == Some("false") ==>
      r == WebhookResult(false, Disabled, None, None) && sent == None
    ensures Truthy(env.url) && isValid(NormalizeUrl(env.url.value)) && env.enabled != Some("false") ==>
      && (NoRecipient(data.email) ==> r == WebhookResult(false, NoEmail, None, None) && sent == None)
      && (!NoRecipient(data.email) && pdf.None? ==>
            r == WebhookResult(false, FailedPrefix + MissingPdfMessage, Some(MissingPdfMessage), None) && sent == None)
      && (!NoRecipient(data.email) && pdf.Some? ==>
            && sent == Some(Request(NormalizeUrl(env.url.value), PayloadOf(data, pdf.value, now)))
            && r == Delivered(fetch(sent.value)))
    ensures !StartsWith(r.details, UnexpectedPrefix)
  {
    if !Truthy(env.url) {
      NotUnexpected(NotConfigured);
      return WebhookResult(false, NotConfigured, None, None), None;
    }
    var url := NormalizeWebhookUrl(env.url.value);
    if !isValid(url) {
      NotUnexpected(InvalidFormat(env.url.value));
      return WebhookResult(false, InvalidFormat(env.url.value), Some(InvalidUrlMessage), None), None;
    }
    if env.enabled == Some("false") {
      NotUnexpected(Disabled);
      return WebhookResult(false, Disabled, None, None), None;
    }
    if !Truthy(data.email) || Trim(data.email.value) == "" {
      NotUnexpected(NoEmail);
      return WebhookResult(false, NoEmail, None, None), None;
    }
    if pdf.None? {
      NotUnexpected(FailedPrefix + MissingPdfMessage);
      return WebhookResult(false, FailedPrefix + MissingPdfMessage, Some(MissingPdfMessage), None), None;
    }
    var request := Request(url, PayloadOf(data, pdf.value, now));
    var response := fetch(request);
    sent := Some(request);
    r := Delivered(response);
    DeliveredNotUnexpected(response);
  }

  /** The in-place rewriting of `validWebhookUrl` at the head of `sendToMakeWebhook`. */
  method NormalizeWebhookUrl(raw: string) returns (url: string)
    ensures url == NormalizeUrl(raw)
  {
    url := Trim(raw);
    if Contains(url, HookMarker) && !StartsWith(url, HttpPrefix) {
      var parts := Split(url, '@');
      if |parts| == 2 {
        url := "https://" + parts[1] + "/" + parts[0];
      }
    } else if !StartsWith(url, HttpPrefix) {
      url := "https://" + url;
    }
  }

  /** `sendToMakeWebhookSafe`: the same call behind a second `catch`. The inner function
      catches everything itself, so the 'Unexpected webhook error: ' result never occurs and
      a success always means a request went to a valid, normalised address. */
  method SendToMakeWebhookSafe(env: WebhookEnv, data: CertificateData, pdf: Option<seq<byte>>,
                               isValid: UrlCheck, fetch: Fetch, now: string)
    returns (r: WebhookResult, sent: Option<Request>)
    ensures !StartsWith(r.details, UnexpectedPrefix)
    ensures r.success ==> r.error == None
    ensures r.success ==> Truthy(env.url) && sent.Some? && sent.value.url == NormalizeUrl(env.url.value)
                          && isValid(sent.value.url) && env.enabled != Some("false")
                          && !NoRecipient(data.email)
    ensures sent.Some? ==> pdf.Some? && Base64.Decode(sent.value.payload.pdfAttachment.content) == pdf.value
  {
    r, sent := SendToMakeWebhook(env, data, pdf, isValid, fetch, now);
  }
}
