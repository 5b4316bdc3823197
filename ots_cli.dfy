/** What the two OpenTimestamps clients (backend/utils/opentimestamps_integration.js and
    backend/utils/generatePdf.js) share: the scratch-file names, the `ots` command line seen
    as an oracle, and the textual tests they apply to its output. */
module OtsCli {
  import opened Wrappers
  import opened Strings
  import opened Encoding

  /** `path.join(__dirname, '../temp')` with `__dirname` being backend/utils. */
  const TempDir := "backend/temp"

  function TempPath(name: string): string {
    TempDir + "/" + name
  }

  /** `${hash}.txt`, the file `ots stamp` is run on. */
  function HashPath(hash: string): string {
    TempPath(hash + ".txt")
  }

  /** `${hash}.txt.ots`, where `ots stamp` leaves its proof. */
  function OtsPath(hash: string): string {
    TempPath(hash + ".txt.ots")
  }

  /** `${hash}_verify.txt` and `${hash}_verify.txt.ots`, the files `ots verify` reads. */
  function VerifyHashPath(hash: string): string {
    TempPath(hash + "_verify.txt")
  }

  function VerifyOtsPath(hash: string): string {
    TempPath(hash + "_verify.txt.ots")
  }

  /** `permanent_${hash}.ots`, the copy of a proof that outlives the request. */
  function PermanentPath(hash: string): string {
    TempPath("permanent_" + hash + ".ots")
  }

  /** The scratch and permanent names for one hash are pairwise distinct (they differ in length). */
  lemma PathsDistinct(hash: string)
    ensures |HashPath(hash)| + 4 == |OtsPath(hash)|
    ensures |VerifyHashPath(hash)| + 4 == |VerifyOtsPath(hash)|
    ensures |HashPath(hash)| + 10 == |PermanentPath(hash)| == |OtsPath(hash)| + 6
    ensures |VerifyHashPath(hash)| == |HashPath(hash)| + 7
    ensures HashPath(hash) != OtsPath(hash) && VerifyHashPath(hash) != VerifyOtsPath(hash)
    ensures PermanentPath(hash) != HashPath(hash) && PermanentPath(hash) != OtsPath(hash)
    ensures VerifyHashPath(hash) != HashPath(hash) && VerifyHashPath(hash) != OtsPath(hash)
    ensures VerifyOtsPath(hash) != HashPath(hash) && VerifyOtsPath(hash) != OtsPath(hash)
    ensures PermanentPath(hash) != VerifyHashPath(hash) && PermanentPath(hash) != VerifyOtsPath(hash)
  {
  }

  /** `ots stamp` on `${hash}.txt` leaves its proof at `${hash}.txt.ots`. */
  lemma StampProofPath(hash: string)
    ensures HashPath(hash) + ".ots" == OtsPath(hash)
  {
  }

  /** The `ots` invocations: `ots stamp "<file>"`, `ots verify "<proof>"`, `ots info "<proof>"`. */
  datatype Command = Stamp(path: string) | Verify(path: string) | Info(path: string)

  /** What `execAsync(command)` gives back. `Raised` covers a command that could not be
      started, a non-zero exit (Node's `exec` rejects then) and a timeout. `Exited` carries
      the two output streams and, for `ots stamp`, the proof file the command leaves at
      `<file>.ots` (`None`: it wrote none). */
  datatype CliOutcome =
    | Raised(message: string)
    | Exited(stdout: string, stderr: string, proof: Option<seq<byte>>)

  /** The command line as an oracle: its outcome may depend on the command and on the files
      present when it runs. */
  type Cli = (Command, map<string, seq<byte>>) -> CliOutcome

  /** The files after `ots stamp <file>` ran: its proof, if any, is at `<file>.ots`. */
  function AfterCommand(files: map<string, seq<byte>>, path: string, outcome: CliOutcome): map<string, seq<byte>> {
    if outcome.Exited? && outcome.proof.Some? then files[path + ".ots" := outcome.proof.value] else files
  }

  const CalendarNotice := "Submitting to remote calendar"
  const SuccessMarker := "Success"
  const DefaultVerificationUrl := "https://ots.tools/verify"

  /** The stamp is accepted unless stderr is non-empty and lacks the calendar notice. */
  predicate StampAccepted(stderr: string) {
    stderr == "" || Contains(stderr, CalendarNotice)
  }

  /** `!stderr || stderr.includes('Success')`. */
  predicate VerifiedBy(stderr: string) {
    stderr == "" || Contains(stderr, SuccessMarker)
  }

  /** Both tests read the same way: empty stderr, or an occurrence of the marker somewhere in it. */
  lemma StderrTests(stderr: string)
    ensures StampAccepted(stderr) <==> stderr == "" || exists i :: OccursAt(stderr, CalendarNotice, i)
    ensures VerifiedBy(stderr) <==> stderr == "" || exists i :: OccursAt(stderr, SuccessMarker, i)
  {
    ContainsIff(stderr, CalendarNotice);
    ContainsIff(stderr, SuccessMarker);
  }

  const HttpsScheme := "https://"

  /** A match of `/https:\/\/[^\s]+/` can start at `i`: the scheme, then a non-space. */
  predicate UrlStartsAt(s: string, i: nat) {
    i + 8 < |s| && s[i..i + 8] == HttpsScheme && !IsWhitespace(s[i + 8])
  }

  /** The end of the run of non-space characters starting at `j`. */
  function RunEnd(s: string, j: nat): (e: nat)
    requires j <= |s|
    ensures j <= e <= |s|
    ensures forall k :: j <= k < e ==> !IsWhitespace(s[k])
    ensures e == |s| || IsWhitespace(s[e])
    decreases |s| - j
  {
    if j == |s| || IsWhitespace(s[j]) then j else RunEnd(s, j + 1)
  }

  /** The leftmost index from `i` on where a match starts. */
  function MatchFrom(s: string, i: nat): (m: Option<nat>)
    ensures m.Some? ==> i <= m.value && UrlStartsAt(s, m.value)
    ensures m.Some? ==> forall k :: i <= k < m.value ==> !UrlStartsAt(s, k)
    ensures m.None? ==> forall k :: i <= k ==> !UrlStartsAt(s, k)
    decreases |s| - i
  {
    if i + 8 >= |s| then None
    else if UrlStartsAt(s, i) then Some(i)
    else MatchFrom(s, i + 1)
  }

  /** `output.match(/https:\/\/[^\s]+/)`: the first 'https://' followed by the longest run of
      non-space characters, if any. */
  function FirstHttpsUrl(s: string): Option<string> {
    match MatchFrom(s, 0)
    case None => None
    case Some(i) => Some(s[i..RunEnd(s, i + 8)])
  }

  /** The match is the leftmost occurrence of 'https://' with a non-space after it, runs to
      the next space or the end, and holds no space; without such an occurrence there is none. */
  lemma FirstHttpsUrlSpec(s: string)
    ensures FirstHttpsUrl(s).None? <==> forall k: nat :: !UrlStartsAt(s, k)
    ensures FirstHttpsUrl(s).Some? ==>
      var i := MatchFrom(s, 0).value;
      var u := FirstHttpsUrl(s).value;
      && UrlStartsAt(s, i) && (forall k :: 0 <= k < i ==> !UrlStartsAt(s, k))
      && |u| > 8 && u[..8] == HttpsScheme
      && u == s[i..i + |u|]
      && (forall k :: 0 <= k < |u| ==> !IsWhitespace(u[k]))
      && (i + |u| == |s| || IsWhitespace(s[i + |u|]))
  {
    if MatchFrom(s, 0).Some? {
      UrlAt(s, MatchFrom(s, 0).value);
    }
  }

  /** The run matched from a start `i` begins with the scheme and holds no space. */
  lemma UrlAt(s: string, i: nat)
    requires UrlStartsAt(s, i)
    ensures var u := s[i..RunEnd(s, i + 8)];
      && |u| > 8 && u[..8] == HttpsScheme
      && (forall k :: 0 <= k < |u| ==> !IsWhitespace(u[k]))
  {
    var u := s[i..RunEnd(s, i + 8)];
    assert u[..8] == s[i..i + 8];
    forall k | 0 <= k < |u| ensures !IsWhitespace(u[k]) {
      if k < 8 {
        assert u[k] == HttpsScheme[k];
        SchemeHasNoSpace(k);
      } else {
        assert u[k] == s[i + k];
      }
    }
  }

  lemma SchemeHasNoSpace(k: nat)
    requires k < |HttpsScheme|
    ensures !IsWhitespace(HttpsScheme[k])
  {
  }

  /** A match implies that the output includes 'https://', so the `includes` test in front
      of the match never changes the outcome. */
  lemma MatchImpliesScheme(s: string)
    requires FirstHttpsUrl(s).Some?
    ensures Contains(s, HttpsScheme)
  {
    var i := MatchFrom(s, 0).value;
    assert OccursAt(s, HttpsScheme, i);
    ContainsIff(s, HttpsScheme);
  }
}
