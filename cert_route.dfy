/** The `POST /certify` handler of backend/routes/cert.js: a required-field gate in front of
    `generateCert`, whose outcome is a parameter, and the shaping of the HTTP response. */
module CertRoute {
  import opened Wrappers
  import opened Strings
  import opened Encoding
  import opened CertLayout

  /** What `generateCert` gives: the saved PDF, or a thrown error. */
  datatype GenOutcome = Rendered(pdf: seq<byte>) | Threw(message: string)

  type Generator = CertFields -> GenOutcome

  /** The response sent: a JSON error with its status, or the PDF with its two headers. */
  datatype Response =
    | JsonError(status: nat, error: string)
    | PdfFile(contentType: string, contentDisposition: string, body: seq<byte>)

  const MissingFields := "Missing required fields"
  const InternalError := "Internal server error"

  /** `!email || !fileHash || !timestamp || !certificateId`. */
  predicate MissingRequired(body: CertFields) {
    !Truthy(body.email) || !Truthy(body.fileHash) || !Truthy(body.timestamp) || !Truthy(body.certificateId)
  }

  /** The attachment header at clock reading `millis` (`Date.now()`). */
  function Disposition(millis: nat): string {
    "attachment; filename=\"CERTONE_" + Decimal(millis) + ".pdf\""
  }

  /** The handler for request body `body` at clock reading `millis`. The ten fields reach the
      generator exactly as they came in the body. */
  function Certify(body: CertFields, generate: Generator, millis: nat): (r: Response)
    ensures MissingRequired(body) ==> r == JsonError(400, MissingFields)
    ensures !MissingRequired(body) && generate(body).Threw? ==> r == JsonError(500, InternalError)
    ensures !MissingRequired(body) && generate(body).Rendered? ==>
      r == PdfFile("application/pdf", Disposition(millis), generate(body).pdf)
  {
    if MissingRequired(body) then JsonError(400, MissingFields)
    else match generate(body)
      case Threw(_) => JsonError(500, InternalError)
      case Rendered(pdf) => PdfFile("application/pdf", Disposition(millis), pdf)
  }

  /** Validation comes before generation: on a 400 the generator is never consulted, so any
      two generators give the same answer; and a PDF is only ever sent for a complete body. */
  lemma GateBeforeGenerator(body: CertFields, g1: Generator, g2: Generator, millis: nat)
    ensures MissingRequired(body) ==> Certify(body, g1, millis) == Certify(body, g2, millis)
    ensures Certify(body, g1, millis).PdfFile? ==>
      Truthy(body.email) && Truthy(body.fileHash) && Truthy(body.timestamp) && Truthy(body.certificateId)
  {
  }

  /** The file name in the header is 'CERTONE_' and the decimal clock reading, so two
      downloads at different milliseconds get different names. */
  lemma DispositionDistinct(m1: nat, m2: nat)
    requires m1 != m2
    ensures Disposition(m1) != Disposition(m2)
  {
    DecimalInjective(m1, m2);
    var prefix := "attachment; filename=\"CERTONE_";
    assert Disposition(m1)[|prefix|..|Disposition(m1)| - 5] == Decimal(m1);
    assert Disposition(m2)[|prefix|..|Disposition(m2)| - 5] == Decimal(m2);
  }

  /** A generator that throws exactly where the certificate layout does. */
  ghost predicate FollowsLayout(generate: Generator) {
    forall f :: generate(f).Threw? <==> Layout(f).threw
  }

  /** With the real layout, the route answers with a PDF exactly when the four required
      fields are present and a verification link is given; a body that passes the gate but has
      no verification link gets a 500, because the layout wraps the absent link. */
  lemma RouteWithLayout(body: CertFields, generate: Generator, millis: nat)
    requires FollowsLayout(generate)
    ensures Certify(body, generate, millis).PdfFile? <==> !MissingRequired(body) && body.verificationLink.Some?
    ensures !MissingRequired(body) && body.verificationLink.None? ==>
      Certify(body, generate, millis) == JsonError(500, InternalError)
  {
    LayoutThrows(body);
    assert generate(body).Threw? <==> Layout(body).threw;
  }
}
