/** The command-line anchoring client `createTimestampAPI` of backend/utils/generatePdf.js
    (the file holds OpenTimestamps code despite its name). Unlike `createTimestamp` it never
    fails because of stderr, asks `ots info` for a calendar URL, and keeps a permanent copy
    of the proof. */
module OtsAnchor {
  import opened Wrappers
  import opened Strings
  import opened Encoding
  import Base64
  import opened OtsCli
  import opened FileStore
  import opened OpenTimestamps

  const AnchoredMessage := "Hash successfully submitted to Bitcoin blockchain via OpenTimestamps"
  const RetryMessage := "Timestamp submission failed - will retry on next request"

  /** The verification URL read from `ots info`: the first 'https://' run of its stdout, or the
      default when there is none or the command raised. */
  function InfoUrl(outcome: CliOutcome): string {
    if outcome.Raised? then DefaultVerificationUrl
    else match FirstHttpsUrl(outcome.stdout)
      case Some(u) => u
      case None => DefaultVerificationUrl
  }

  /** Whatever `ots info` prints, the URL is the default or a space-free 'https://' URL
      that occurs in its stdout. */
  lemma InfoUrlShape(outcome: CliOutcome)
    ensures var u := InfoUrl(outcome);
      || u == DefaultVerificationUrl
      || (&& outcome.Exited? && |u| > 8 && u[..8] == HttpsScheme
          && (forall k :: 0 <= k < |u| ==> !IsWhitespace(u[k]))
          && exists i :: OccursAt(outcome.stdout, u, i))
  {
    if outcome.Exited? && FirstHttpsUrl(outcome.stdout).Some? {
      FirstHttpsUrlSpec(outcome.stdout);
      var i := MatchFrom(outcome.stdout, 0).value;
      assert OccursAt(outcome.stdout, InfoUrl(outcome), i);
    }
  }

  /** The URL `createTimestampAPI` reports once `ots stamp` has returned leaving the files `after`. */
  function CalendarUrl(after: map<string, seq<byte>>, hash: string, cli: Cli): string {
    if OtsPath(hash) in after then InfoUrl(cli(Info(OtsPath(hash)), after)) else DefaultVerificationUrl
  }

  /** The files after the cleanup of a successful call: the scratch files are gone, the proof
      (if any) survives byte for byte at `permanent_${hash}.ots`, and nothing else changed. */
  function Archived(after: map<string, seq<byte>>, hash: string): (m: map<string, seq<byte>>)
    ensures HashPath(hash) !in m && OtsPath(hash) !in m
    ensures OtsPath(hash) in after ==> PermanentPath(hash) in m && m[PermanentPath(hash)] == after[OtsPath(hash)]
    ensures OtsPath(hash) !in after ==> m == after - {HashPath(hash)}
    ensures forall p :: p != HashPath(hash) && p != OtsPath(hash) && p != PermanentPath(hash) ==>
      (p in m <==> p in after) && (p in m ==> m[p] == after[p])
  {
    PathsDistinct(hash);
    if OtsPath(hash) in after then
      (after - {HashPath(hash), OtsPath(hash)})[PermanentPath(hash) := after[OtsPath(hash)]]
    else after - {HashPath(hash)}
  }

  /** The inner `try` of `createTimestampAPI`: run `ots info` on the proof and take the URL
      in its stdout, if any; an `ots info` that raises keeps the default. */
  method ReadInfoUrl(fs: FileStore, otsFile: string, cli: Cli) returns (url: string)
    ensures url == InfoUrl(cli(Info(otsFile), fs.files))
  {
    url := DefaultVerificationUrl;
    var info := cli(Info(otsFile), fs.files);
    if info.Exited? && Contains(info.stdout, HttpsScheme) {
      var urlMatch := FirstHttpsUrl(info.stdout);
      if urlMatch.Some? {
        url := urlMatch.value;
      }
    }
    if info.Exited? && FirstHttpsUrl(info.stdout).Some? {
      MatchImpliesScheme(info.stdout);
    }
  }

  /** The clean-up `try` of `createTimestampAPI`: remove the hash file and move the proof, if
      any, to its permanent name. */
  method ArchiveProof(fs: FileStore, hash: string)
    requires HashPath(hash) in fs.files
    modifies fs
    ensures fs.files == Archived(old(fs.files), hash) && fs.dirs == old(fs.dirs)
  {
    PathsDistinct(hash);
    fs.Unlink(HashPath(hash));
    var otsExists := fs.FileExists(OtsPath(hash));
    if otsExists {
      fs.CopyFile(OtsPath(hash), PermanentPath(hash));
      fs.Unlink(OtsPath(hash));
    }
  }

  /** `createTimestampAPI(hash)` of generatePdf.js at ISO time `now`. It fails only when
      `ots stamp` raises; stderr is merely logged. A failing `ots info` keeps the default URL. */
  method CreateTimestampApi(fs: FileStore, hash: string, cli: Cli, now: string) returns (r: TimestampResult)
    modifies fs
    ensures r.hash == hash && r.timestamp == now && r.txHash == None && r.blockHeight == None
    ensures fs.dirs == old(fs.dirs) + {TempDir}
    ensures r.success <==> StampOutcome(old(fs.files), hash, cli).Exited?
    ensures r.success ==>
      var after := AfterStamp(old(fs.files), hash, cli);
      && r.error == None && r.message == AnchoredMessage
      && r.verificationUrl == CalendarUrl(after, hash, cli)
      && r.calendarUrl == Some(r.verificationUrl)
      && r.otsData == (if OtsPath(hash) in after then Some(Base64.Encode(after[OtsPath(hash)])) else None)
      && fs.files == Archived(after, hash)
    ensures !r.success ==>
      && r.otsData == None && r.verificationUrl == DefaultVerificationUrl && r.calendarUrl == None
      && r.message == RetryMessage && r.error == Some(StampOutcome(old(fs.files), hash, cli).message)
      && fs.files == StampInput(old(fs.files), hash)
  {
    PathsDistinct(hash);
    StampProofPath(hash);
    ghost var files0 := fs.files;
    var hashFile := HashPath(hash);
    var otsFile := OtsPath(hash);
    EnsureTempDir(fs);
    var outcome := RunStamp(fs, hash, cli);
    if outcome.Raised? {
      return TimestampResult(false, hash, now, None, DefaultVerificationUrl, RetryMessage,
                             Some(outcome.message), None, None, None);
    }
    ghost var after := fs.files;

    var otsData: Option<seq<byte>> := None;
    var verificationUrl := DefaultVerificationUrl;
    var otsExists := fs.FileExists(otsFile);
    if otsExists {
      var data := fs.ReadFile(otsFile);
      otsData := Some(data);
      verificationUrl := ReadInfoUrl(fs, otsFile, cli);
    }
    ArchiveProof(fs, hash);
    var encoded := if otsData.Some? then Some(Base64.Encode(otsData.value)) else None;
    r := TimestampResult(true, hash, now, encoded, verificationUrl, AnchoredMessage,
                         None, None, None, Some(verificationUrl));
  }

  /** The proof a successful call returns in base64 decodes to the bytes of the permanent
      copy it leaves behind. */
  lemma ReturnedProofIsArchived(files: map<string, seq<byte>>, hash: string, cli: Cli)
    requires OtsPath(hash) in AfterStamp(files, hash, cli)
    ensures var after := AfterStamp(files, hash, cli);
      Base64.Decode(Base64.Encode(after[OtsPath(hash)])) == Archived(after, hash)[PermanentPath(hash)]
  {
    Base64.RoundTrip(AfterStamp(files, hash, cli)[OtsPath(hash)]);
  }
}
