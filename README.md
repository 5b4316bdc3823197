# cert.one certification backend — a Dafny model

cert.one issues certificates for files. It takes a file's SHA-256 fingerprint and anchors
it in Bitcoin through OpenTimestamps. It then renders a one-page PDF certificate, stores the
certificate and its metadata on IPFS, logs it in a Supabase table, and mails it through a
Make.com webhook.

This project models the logic the backend wraps around those services:

- the fingerprint and certificate-id derivation;
- the two OpenTimestamps clients, with their scratch files, stderr tests, permanent proof
  copy and calendar-URL extraction;
- the certificate page layout;
- the webhook's address normalisation and ordered checks;
- the IPFS metadata record and upload result shaping;
- the Supabase whitelist projection;
- the `/certify` route's required-field gate.

Every outside service is a parameter of the model:

- `ots` command line: an oracle that sees the files present when it runs. Its effect on the
  files is an assumption about the tool, not something the model proves: `OtsCli.AfterCommand`
  says that `ots stamp <file>` writes at most its proof, at `<file>.ots`, and touches nothing else.
- `fetch`: an outcome value.
- Supabase insert: a function of the record.
- `new URL`: a predicate.
- `generateCert`, as seen by the route: an outcome function.
- The hash algorithms: functions with fixed-length results.
- The clock: a plain argument.

The file system is a class, `FileStore.FileStore`, holding a map from paths to bytes and a set
of directories. The timestamp clients are methods that change it step by step.

Proofs travel in base64. The encoder follows section 4 of RFC 4648. The decoder follows
Node's lenient `Buffer.from(s, 'base64')`. `Base64.RoundTrip` proves that decoding an
encoding gives the bytes back. The model uses that proof to show two things:

- a proof returned by `createTimestamp` reaches `ots verify` byte for byte;
- the copies kept in the permanent file, the IPFS metadata and the webhook attachment
  all decode back to the same bytes.

`backend/utils/generatePdf.js` repeats `createTimestamp` and `verifyTimestamp` of
`backend/utils/opentimestamps_integration.js` word for word (lines 9-121 of both files), so
one model serves both. The file also holds its own command-line `createTimestampAPI`, which
is modelled in `OtsAnchor`.

The route checks four required fields, but not the verification link. `generateCert`
wraps that link without a default, so a body that passes the gate but has no link makes
`generateCert` throw, and the route answers 500. `CertRoute.RouteWithLayout` states this
behaviour as the code has it.

## Model

| member | source | states |
|---|---|---|
| Hasher.HashText | backend/utils/hasher.js:9-12 | fails with 'Text input is required' exactly for a missing or empty text; otherwise 64 lower-case hex digits that decode to the SHA-256 of the UTF-8 bytes |
| Hasher.HashFile | backend/utils/hasher.js:19-22 | succeeds exactly for a Buffer (an empty one included), else 'Valid buffer is required'; the result is the lower-case hex of the buffer's SHA-256 |
| Hasher.VerifyHash | backend/utils/hasher.js:69-72 | throws exactly where hashText throws; otherwise true iff the expected string is the hex encoding of the content's SHA-256 |
| Hasher.VerifyOwnHash | backend/utils/hasher.js:69-72 | a fingerprint returned by hashText/hashFile verifies against its own input |
| Hasher.CertificateId | backend/utils/hasher.js:79-83 | 21 characters: 'CERT_' then 16 upper-case hex digits, the upper-cased first 16 hex digits of SHA-256 over hash + decimal millis |
| Hasher.CertificateIdSalted | backend/utils/hasher.js:80-82 | two different clock readings give two different hashed texts |
| Hasher.HashBundleOf | backend/utils/hasher.js:44-61 | fails where the fingerprint fails; sha256 is hashFile for a Buffer and hashText otherwise; size is the byte length; md5, sha1 and sha512 are lower-case hex strings (32/40/128 digits) that decode to the MD5, SHA-1 and SHA-512 digests of those same bytes |
| Encoding.HexRoundTrip | backend/utils/hasher.js:11 | `digest('hex')` is lossless: decoding the lower-case hex text gives the digest back |
| Encoding.HexDecodeIff | backend/utils/hasher.js:71 | a string decodes to bytes b exactly when it is the hex encoding of b, which makes string equality of fingerprints equality of digests |
| Base64.EncodeShape | backend/utils/opentimestamps_integration.js:56 | `toString('base64')` has length 4·⌈n/3⌉: characters of the 64-character alphabet of Table 1 of RFC 4648 (no '-' or '_'), followed by '=' padding only |
| Base64.RoundTrip | backend/utils/opentimestamps_integration.js:95 | `Buffer.from(toString('base64'), 'base64')` gives the original bytes |
| OtsCli.PathsDistinct | backend/utils/opentimestamps_integration.js:22-23 | the `${hash}.txt`, `.txt.ots`, `_verify` and `permanent_` names of one hash are pairwise distinct |
| OtsCli.StderrTests | backend/utils/opentimestamps_integration.js:32-34 | the stamp is accepted iff stderr is empty or contains 'Submitting to remote calendar'; verification iff empty or contains 'Success' |
| OtsCli.FirstHttpsUrlSpec | backend/utils/generatePdf.js:170-175 | `/https:\/\/[^\s]+/` finds the leftmost 'https://' with a non-space after it and runs to the next white space or the end; none iff no such place |
| OtsCli.MatchImpliesScheme | backend/utils/generatePdf.js:170-172 | a regex match implies `includes('https://')`, so the guard never changes the result |
| OpenTimestamps.CreateTimestamp | backend/utils/opentimestamps_integration.js:14-75 | never throws; success iff the command returned with empty stderr or the calendar notice; on success otsData is the base64 of the proof file if it exists, both scratch files are gone and nothing else changed; on failure otsData is null, the message is the pending one, and the error is the raised message or 'OpenTimestamps error: ' + stderr (generatePdf.js:14-75 holds the same function) |
| OpenTimestamps.EnsureTempDir | backend/utils/opentimestamps_integration.js:17-20 | the temp directory exists afterwards and no file changes |
| OpenTimestamps.RunStamp | backend/utils/opentimestamps_integration.js:22-30 | the hash text is written to `${hash}.txt` before `ots stamp` runs on it; a returning command leaves its proof at `${hash}.txt.ots` |
| OpenTimestamps.CollectProof | backend/utils/opentimestamps_integration.js:36-50 | the proof read is the `.ots` file's bytes when it exists, and both scratch files are gone afterwards with every other file kept |
| OpenTimestamps.VerifyTimestamp | backend/utils/opentimestamps_integration.js:83-121 | never throws; missing proof or raising command gives verified false with the error message; a returning command gives verified iff stderr is empty or contains 'Success', with stdout and stderr, and removes both `_verify` files (generatePdf.js:83-121 holds the same function) |
| OpenTimestamps.StampedProofReachesVerifier | backend/utils/opentimestamps_integration.js:56-95 | the bytes `createTimestamp` encoded are written back unchanged to `${hash}_verify.txt.ots` |
| OpenTimestamps.MockTimestamp | backend/utils/opentimestamps_integration.js:128-141 | always success, with otsData, txHash and blockHeight null and the default verification URL |
| OtsAnchor.InfoUrlShape | backend/utils/generatePdf.js:157-178 | the reported URL is the default or a white-space-free 'https://' URL occurring in the `ots info` output |
| OtsAnchor.Archived | backend/utils/generatePdf.js:184-192 | after clean-up neither scratch file remains, the proof survives byte for byte at `permanent_${hash}.ots`, and every other file is unchanged |
| OtsAnchor.ReadInfoUrl | backend/utils/generatePdf.js:164-178 | the URL is the first regex match in the stdout of `ots info`, and the default when that command raises or prints none |
| OtsAnchor.ArchiveProof | backend/utils/generatePdf.js:184-192 | the clean-up leaves exactly the `Archived` file map |
| OtsAnchor.CreateTimestampApi | backend/utils/generatePdf.js:128-225 | fails only when `ots stamp` raises (stderr never matters); txHash and blockHeight always null; on success calendarUrl equals verificationUrl, which is the info URL when the proof exists, and the files are `Archived`; on failure otsData is null, with the default URL, the retry message and the error |
| OtsAnchor.ReturnedProofIsArchived | backend/utils/generatePdf.js:189-201 | the base64 proof returned decodes to the bytes of the permanent copy |
| CertLayout.Chunks | backend/utils/generateCert.js:30-36 | the empty text gives no lines; every line has 1..max characters and all but the last exactly max |
| CertLayout.ChunksConcat | backend/utils/generateCert.js:30-36 | the wrapped lines put back together are the text |
| CertLayout.ChunksCount | backend/utils/generateCert.js:32-34 | at width 64 the line count is ⌈length/64⌉ |
| CertLayout.WrapText | backend/utils/generateCert.js:30-36 | the slicing loop produces exactly `Chunks(text, max)` |
| CertLayout.Shown | backend/utils/generateCert.js:26-28 | `text`, or '-' in its place: never empty, the text when truthy and '-' otherwise |
| CertLayout.Page.Draw | backend/utils/generateCert.js:26-28 | appends one command with the shown text at (x, y) |
| CertLayout.Advance | backend/utils/generateCert.js:49-52 | y drops by 16 × line count, and by 16 when the block is empty |
| CertLayout.DrawBlock | backend/utils/generateCert.js:48 | the lines of a block go at y, y-16, y-32, … |
| CertLayout.DrawUserInfo | backend/utils/generateCert.js:38-45 | the five user fields are drawn in order and y ends at 440 |
| CertLayout.DrawWrapped | backend/utils/generateCert.js:48-52 | draws a wrapped block and lowers y by `Advance` |
| CertLayout.GenerateCert | backend/utils/generateCert.js:9-61 | the page receives exactly the `Layout` commands, and the call throws exactly where `Layout` does |
| CertLayout.DrawTail | backend/utils/generateCert.js:51-56 | from the file hash on, the page receives exactly the `Tail` commands, and the call throws exactly when the file hash or the verification link is absent |
| CertLayout.LayoutHead | backend/utils/generateCert.js:38-45 | userName, email, title, fileName and merkleRoot come first at x=140, y=520…456, with '-' for empty or missing values |
| CertLayout.LayoutThrows | backend/utils/generateCert.js:48-56 | generation throws exactly when certificateId, fileHash or verificationLink is absent |
| CertLayout.LayoutDescends | backend/utils/generateCert.js:38-56 | every command is at x=140 with a non-empty text, and y strictly decreases down the list, so lines never overlap |
| MakeWebhook.NormalizeUrlCases | backend/utils/makeWebhook.js:28-44 | 'http…' is only trimmed; no '@hook.' gets 'https://' in front; '@hook.' with one '@' becomes https://domain/id; with any other '@' count it is kept as is |
| MakeWebhook.NormalizeWebhookUrl | backend/utils/makeWebhook.js:28-44 | the step-by-step rewriting of the address computes exactly `NormalizeUrl`, so the properties proved of that function hold for the URL the request uses |
| MakeWebhook.NormalizeHookAddress | backend/utils/makeWebhook.js:31-39 | `id@hook.domain` with '@'-free parts becomes `https://hook.domain/id` |
| MakeWebhook.NormalizeGivesScheme | backend/utils/makeWebhook.js:31-44 | the normalised address starts with 'http' unless it is an '@hook.' address whose '@' count is not one |
| MakeWebhook.PayloadOf | backend/utils/makeWebhook.js:82-126 | certificate_number falls back to certificate_id; ipfs_certificate_url is ipfs_url; filename is 'CERT_' + id + '.pdf'; the content decodes back to the PDF; other fields are copied |
| MakeWebhook.Delivered | backend/utils/makeWebhook.js:140-162 | success exactly on an ok response, with the status in the details; any other outcome is 'Webhook failed: ' + its error |
| MakeWebhook.NoRecipientIff | backend/utils/makeWebhook.js:68 | the email check turns away exactly a missing address and one made only of whitespace, the empty one included |
| MakeWebhook.DeliveredNotUnexpected | backend/utils/makeWebhook.js:140-162 | no response and no raised request error gives details beginning 'Unexpected webhook error: ' |
| MakeWebhook.SendToMakeWebhook | backend/utils/makeWebhook.js:12-163 | checks run in order (URL configured, URL valid after normalisation, not disabled by exactly 'false', email present and not blank), each returning without a request; otherwise one request to the normalised URL with the payload; no result carries the 'Unexpected webhook error: ' details |
| MakeWebhook.SendToMakeWebhookSafe | backend/utils/makeWebhook.js:172-183 | never yields the 'Unexpected webhook error' result; a success implies a request to a valid normalised URL with webhook enabled and a recipient |
| Ipfs.Pinned | backend/utils/ipfs.js:47-65 | success iff the reply is ok, with gateway and public URLs of the pinned hash; otherwise the error carries the wrapper prefix, the failure text and `result.error`, or 'Unknown error' when that is falsy |
| Ipfs.UploadToIpfs | backend/utils/ipfs.js:12-66 | without both Pinata credentials it throws 'Pinata API credentials not configured', otherwise the result is `Pinned` with the 'IPFS upload error: ' wrapping |
| Ipfs.UploadMetadataToIpfs | backend/utils/ipfs.js:74-120 | the same guard, with the 'IPFS metadata upload error: ' wrapping |
| Ipfs.PinataGuardFirst | backend/utils/ipfs.js:16-18 | the credentials error occurs exactly when a credential is missing, and then the reply plays no part (no request) |
| Ipfs.PinnedUrlsAgree | backend/utils/ipfs.js:59-60 | both URLs end in the same IPFS hash after their gateway prefixes |
| Ipfs.UploadToWeb3Storage | backend/utils/ipfs.js:162-198 | without a token it throws 'Web3.Storage token not configured'; an ok reply gives `https://<cid>.ipfs.w3s.link` and `https://ipfs.io/ipfs/<cid>`; failures carry 'Web3.Storage upload error: ' |
| Ipfs.CreateCertificateMetadata | backend/utils/ipfs.js:129-154 | constant version, type, algorithm and network; blockchain defaults to 'Bitcoin (OpenTimestamps)'; certificate and verification fields copied unchanged |
| Ipfs.MetadataKeepsProof | backend/utils/ipfs.js:147 | a base64 proof placed in the metadata decodes back to the proof's bytes |
| SupabaseLogger.InsertRecord | backend/utils/supabaseLogger.js:16-52 | the record has exactly the fifteen columns, each copied, with created_at kept when truthy and otherwise the current time |
| SupabaseLogger.ExtraFieldsDropped | backend/utils/supabaseLogger.js:16-33 | properties outside the whitelist have no influence on the record |
| SupabaseLogger.ProjectionIdempotent | backend/utils/supabaseLogger.js:36-52 | projecting a projected record again gives the same record |
| SupabaseLogger.LogCertificate | backend/utils/supabaseLogger.js:8-87 | never throws; success iff the insert answered without error (error null); an insert error gives data null and 'Database insert failed: '; a raised one 'Unexpected error: ' |
| CertRoute.Certify | backend/routes/cert.js:5-47 | 400 'Missing required fields' when email, fileHash, timestamp or certificateId is falsy; 500 'Internal server error' when generation throws; otherwise the PDF with 'application/pdf' and `attachment; filename="CERTONE_<millis>.pdf"` |
| CertRoute.GateBeforeGenerator | backend/routes/cert.js:20-24 | on a 400 the generator is not consulted; a PDF is only sent for a body with all four required fields |
| CertRoute.DispositionDistinct | backend/routes/cert.js:39 | different clock readings give different file names |
| CertRoute.RouteWithLayout | backend/routes/cert.js:20-46 | with the real layout, a PDF is sent exactly for a complete body with a verification link; a missing link gives 500 |

## Left out

- Digest internals: SHA-256, MD5, SHA-1 and SHA-512 are parameters with fixed-length results. Collision resistance is not modelled, so `CertificateIdSalted` stops at distinct hashed texts.
- The `ots` command line and Bitcoin/calendar semantics: an oracle. "Verified" is only the stderr test, and a non-zero exit is folded into a raised error, as `exec` rejects then.
- File-system errors: `unlinkSync` and `copyFileSync` are only called on files known to exist. Their failures, and the clean-up `catch` blocks that log them, are not modelled.
- OpenTimestamps.CreateTimestamp, OpenTimestamps.VerifyTimestamp and OtsAnchor.CreateTimestampApi: `FileStore` never fails, so the failures of `mkdirSync`, `writeFileSync` and `readFileSync` inside their main `try` are not modelled (opentimestamps_integration.js:19, 26, 39, 87, 94, 95; generatePdf.js:135, 142, 160). Such a failure can come from a hash containing '/', which names a file under a missing directory, or from EACCES or ENOSPC. The source then returns `success: false` (or `verified: false`) with the file-system message, and `ots` never runs. "Success iff the command returned …" holds for a file system that does not fail.
- `path.join` normalisation: paths are `backend/temp/<name>` strings. Concurrent requests sharing scratch names are not modelled.
- `null` versus `undefined`: both are `None`. Non-string values in string-typed properties are not modelled.
- Base64.Decode: follows Node's documented lenient rule (other characters skipped, '-' and '_' accepted, stop at '='). Only the round trip on encoder output is claimed.
- Request bodies: the Pinata form data and `pinataMetadata`, the JSON body of `uploadMetadataToIPFS`, and HTTP headers are not modelled. Only the result shaping is.
- `fetch`, `response.json()`, `response.text()` and the Supabase client are outcome parameters. `new URL` is a predicate, and its error message is Node's 'Invalid URL'.
- pdf-lib (template read, font embedding, saving): the page is the list of text commands. Font, size and colour are constant and not recorded.
- CertLayout.GenerateCert, CertLayout.DrawTail, CertLayout.LayoutThrows, CertLayout.LayoutDescends and CertRoute.RouteWithLayout: the failures of `drawText` itself are not modelled. The Courier standard font encodes only WinAnsi characters and throws on any other, so a complete body can still end in a 500. Nor is its splitting of a text at line breaks into lines drawn one line height lower. "Throws exactly" and "never overlap" are statements about the command list. `Chunks` counts code points where JavaScript's `slice` counts UTF-16 code units; the two differ only on characters outside the Basic Multilingual Plane, which the font rejects anyway.
- OpenTimestamps.CreateTimestamp and OtsAnchor.CreateTimestampApi: each return path reads the clock once; `now` is that reading.
- MakeWebhook.SendToMakeWebhookSafe: its own `catch` is unreachable, because the inner function catches everything. Its contract states what follows from that rather than repeating the inner one.
- Console logging, `hashFileFromPath`, `backend/server.js`, the root `server.js` and `backend/utils/supabaseClient.js` (Express wiring and client construction) are not part of this model.
