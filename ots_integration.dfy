/** The OpenTimestamps client of backend/utils/opentimestamps_integration.js. Its
    `createTimestamp` and `verifyTimestamp` are repeated word for word in
    backend/utils/generatePdf.js (lines 14-121), so these members model both files. */
module OpenTimestamps {
  import opened Wrappers
  import opened Strings
  import opened Encoding
  import Base64
  import opened OtsCli
  import opened FileStore

  /** The object the `createTimestamp*` functions return. A property the source leaves out and
      one it sets to `null` are both `None`. */
  datatype TimestampResult = TimestampResult(
    success: bool,
    hash: string,
    timestamp: string,
    otsData: Option<string>,
    verificationUrl: string,
    message: string,
    error: Option<string>,
    txHash: Option<string>,
    blockHeight: Option<nat>,
    calendarUrl: Option<string>)

  /** The object `verifyTimestamp` returns; `output` is absent when a call raised. */
  datatype VerifyResult = VerifyResult(verified: bool, output: Option<string>, error: string)

  const SubmittedMessage := "Hash successfully submitted to OpenTimestamps"
  const PendingMessage := "Timestamp pending - try verification in a few hours"
  const MockMessage := "Hash submitted to blockchain - verification available in 1-6 hours"
  const StderrErrorPrefix := "OpenTimestamps error: "

  /** The message of the `TypeError` that `Buffer.from(undefined, 'base64')` throws. */
  const MissingProofMessage :=
    "The first argument must be of type string or an instance of Buffer, ArrayBuffer, or Array or an Array-like Object. Received undefined"

  /** The files `ots stamp` sees: the hash text written to `${hash}.txt`. */
  function StampInput(files: map<string, seq<byte>>, hash: string): map<string, seq<byte>> {
    files[HashPath(hash) := Utf8(hash)]
  }

  /** What `ots stamp` answers for `hash`. */
  function StampOutcome(files: map<string, seq<byte>>, hash: string, cli: Cli): CliOutcome {
    cli(Stamp(HashPath(hash)), StampInput(files, hash))
  }

  /** The files once `ots stamp` has returned. */
  function AfterStamp(files: map<string, seq<byte>>, hash: string, cli: Cli): (after: map<string, seq<byte>>)
    ensures HashPath(hash) in after && after[HashPath(hash)] == Utf8(hash)
  {
    PathsDistinct(hash);
    AfterCommand(StampInput(files, hash), HashPath(hash), StampOutcome(files, hash, cli))
  }

  /** `createTimestamp` treats the call as failed when it raised, or when stderr is non-empty
      and lacks the calendar notice. */
  predicate StampSucceeded(outcome: CliOutcome) {
    outcome.Exited? && StampAccepted(outcome.stderr)
  }

  /** The `error` of a failed `createTimestamp`: the raised message, or the stderr text behind
      the 'OpenTimestamps error: ' prefix. */
  function StampError(outcome: CliOutcome): string
    requires !StampSucceeded(outcome)
  {
    if outcome.Raised? then outcome.message else StderrErrorPrefix + outcome.stderr
  }

  /** `createTimestamp(hash)` at ISO time `now`. It never throws: every outcome of the command
      line gives a result carrying the hash and the default verification URL. On success both
      scratch files are gone, the proof (if the command left one) is returned in base64 and
      nothing else in the file system changed; on failure the scratch files stay where the
      command left them. */
  method CreateTimestamp(fs: FileStore, hash: string, cli: Cli, now: string) returns (r: TimestampResult)
    modifies fs
    ensures r.hash == hash && r.timestamp == now && r.verificationUrl == DefaultVerificationUrl
    ensures r.txHash == None && r.blockHeight == None && r.calendarUrl == None
    ensures fs.dirs == old(fs.dirs) + {TempDir}
    ensures r.success <==> StampSucceeded(StampOutcome(old(fs.files), hash, cli))
    ensures r.success ==> r.error == None && r.message == SubmittedMessage
    ensures r.success ==>
      var after := AfterStamp(old(fs.files), hash, cli);
      r.otsData == if OtsPath(hash) in after then Some(Base64.Encode(after[OtsPath(hash)])) else None
    ensures r.success ==> fs.files == old(fs.files) - {HashPath(hash), OtsPath(hash)}
    ensures !r.success ==> r.otsData == None && r.message == PendingMessage
    ensures !r.success ==> r.error == Some(StampError(StampOutcome(old(fs.files), hash, cli)))
    ensures !r.success ==> fs.files == AfterStamp(old(fs.files), hash, cli)
  {
    PathsDistinct(hash);
    StampProofPath(hash);
    ghost var files0 := fs.files;
    var hashFile := HashPath(hash);
    var otsFile := OtsPath(hash);
    EnsureTempDir(fs);
    var outcome := RunStamp(fs, hash, cli);
    if outcome.Raised? {
      return TimestampResult(false, hash, now, None, DefaultVerificationUrl, PendingMessage,
                             Some(outcome.message), None, None, None);
    }
    ghost var after := fs.files;
    if outcome.stderr != "" && !Contains(outcome.stderr, CalendarNotice) {
      return TimestampResult(false, hash, now, None, DefaultVerificationUrl, PendingMessage,
                             Some(StderrErrorPrefix + outcome.stderr), None, None, None);
    }
    var otsData := CollectProof(fs, hashFile, otsFile);
    AgreeOutside(after, files0, {hashFile, otsFile});
    var encoded := if otsData.Some? then Some(Base64.Encode(otsData.value)) else None;
    r := TimestampResult(true, hash, now, encoded, DefaultVerificationUrl, SubmittedMessage,
                         None, None, None, None);
  }

  /** `if (!fs.existsSync(tempDir)) fs.mkdirSync(tempDir, ...)`. */
  method EnsureTempDir(fs: FileStore)
    modifies fs
    ensures fs.dirs == old(fs.dirs) + {TempDir} && fs.files == old(fs.files)
  {
    var tempExists := fs.DirExists(TempDir);
    if !tempExists {
      fs.MakeDirectory(TempDir);
    }
  }

  /** Writes the hash to `${hash}.txt` and runs `ots stamp` on it; a command that returns
      leaves its proof in `${hash}.txt.ots`. */
  method RunStamp(fs: FileStore, hash: string, cli: Cli) returns (outcome: CliOutcome)
    modifies fs
    ensures outcome == StampOutcome(old(fs.files), hash, cli)
    ensures fs.dirs == old(fs.dirs)
    ensures outcome.Raised? ==> fs.files == StampInput(old(fs.files), hash)
    ensures outcome.Exited? ==> fs.files == AfterStamp(old(fs.files), hash, cli)
  {
    PathsDistinct(hash);
    StampProofPath(hash);
    fs.WriteFile(HashPath(hash), Utf8(hash));
    outcome := cli(Stamp(HashPath(hash)), fs.files);
    if outcome.Exited? && outcome.proof.Some? {
      fs.WriteFile(OtsPath(hash), outcome.proof.value);
    }
  }

  /** Reads the proof if there is one, then removes both scratch files. */
  method CollectProof(fs: FileStore, hashFile: string, otsFile: string) returns (otsData: Option<seq<byte>>)
    requires hashFile in fs.files && hashFile != otsFile
    modifies fs
    ensures otsData == if otsFile in old(fs.files) then Some(old(fs.files)[otsFile]) else None
    ensures fs.files == old(fs.files) - {hashFile, otsFile} && fs.dirs == old(fs.dirs)
  {
    otsData := None;
    var otsExists := fs.FileExists(otsFile);
    if otsExists {
      var data := fs.ReadFile(otsFile);
      otsData := Some(data);
    }
    fs.Unlink(hashFile);
    otsExists := fs.FileExists(otsFile);
    if otsExists {
      fs.Unlink(otsFile);
    }
  }

  /** The files `ots verify` sees: the hash text and the decoded proof. */
  function VerifyInput(files: map<string, seq<byte>>, hash: string, otsData: string): map<string, seq<byte>> {
    files[VerifyHashPath(hash) := Utf8(hash)][VerifyOtsPath(hash) := Base64.Decode(otsData)]
  }

  /** `verifyTimestamp(hash, otsData)`. It never throws. A missing proof or a raising command
      gives `verified: false` and leaves its scratch files behind; a command that returns
      gives the verdict of its stderr, and both scratch files are removed. */
  method VerifyTimestamp(fs: FileStore, hash: string, otsData: Option<string>, cli: Cli) returns (r: VerifyResult)
    modifies fs
    ensures fs.dirs == old(fs.dirs) + {TempDir}
    ensures otsData.None? ==>
      r == VerifyResult(false, None, MissingProofMessage) && fs.files == old(fs.files)[VerifyHashPath(hash) := Utf8(hash)]
    ensures otsData.Some? ==>
      var input := VerifyInput(old(fs.files), hash, otsData.value);
      match cli(Verify(VerifyOtsPath(hash)), input)
      case Raised(m) => r == VerifyResult(false, None, m) && fs.files == input
      case Exited(out, err, _) =>
        && r == VerifyResult(VerifiedBy(err), Some(out), err)
        && fs.files == old(fs.files) - {VerifyHashPath(hash), VerifyOtsPath(hash)}
  {
    PathsDistinct(hash);
    var hashFile := VerifyHashPath(hash);
    var otsFile := VerifyOtsPath(hash);
    EnsureTempDir(fs);
    fs.WriteFile(hashFile, Utf8(hash));
    if otsData.None? {
      return VerifyResult(false, None, MissingProofMessage);
    }
    fs.WriteFile(otsFile, Base64.Decode(otsData.value));
    var outcome := cli(Verify(otsFile), fs.files);
    if outcome.Raised? {
      return VerifyResult(false, None, outcome.message);
    }
    fs.Unlink(hashFile);
    fs.Unlink(otsFile);
    var verified := outcome.stderr == "" || Contains(outcome.stderr, SuccessMarker);
    r := VerifyResult(verified, Some(outcome.stdout), outcome.stderr);
  }

  /** A proof returned by a successful `createTimestamp` reaches `ots verify` unchanged:
      `verifyTimestamp` writes back exactly the bytes `ots stamp` produced. */
  lemma StampedProofReachesVerifier(files: map<string, seq<byte>>, later: map<string, seq<byte>>, hash: string, cli: Cli)
    requires OtsPath(hash) in AfterStamp(files, hash, cli)
    ensures
      var proof := AfterStamp(files, hash, cli)[OtsPath(hash)];
      VerifyInput(later, hash, Base64.Encode(proof))[VerifyOtsPath(hash)] == proof
  {
    Base64.RoundTrip(AfterStamp(files, hash, cli)[OtsPath(hash)]);
  }

  /** The mock `createTimestampAPI(hash)` of the integration file at ISO time `now`: always a
      success, with no proof and no chain data yet. */
  function MockTimestamp(hash: string, now: string): (r: TimestampResult)
    ensures r.success && r.hash == hash && r.timestamp == now
    ensures r.otsData == None && r.txHash == None && r.blockHeight == None
    ensures r.verificationUrl == DefaultVerificationUrl && r.error == None
  {
    TimestampResult(true, hash, now, None, DefaultVerificationUrl, MockMessage, None, None, None, None)
  }
}
