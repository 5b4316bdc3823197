/** The certificate log of backend/utils/supabaseLogger.js: the record inserted into the
    'certificates' table is a whitelist projection of the certificate data, and the outcome of
    the insert (a parameter here) is turned into a result object. */
module SupabaseLogger {
  import opened Wrappers

  /** A JavaScript object with string-valued properties: a missing key is `undefined`. */
  type JsObject = map<string, string>

  function Lookup(o: JsObject, key: string): JsString {
    if key in o then Some(o[key]) else None
  }

  const CreatedAt := "created_at"

  /** The columns of the 'certificates' table that `logCertificate` fills. */
  const Columns: set<string> := {
    "certificate_id", "user_name", "email", "title", "file_name", "file_hash", "timestamp",
    "blockchain", "verification_url", "certificate_number", "merkle_root", "ipfs_cid",
    "ipfs_url", "ots_url", CreatedAt }

  /** The `insertData` object for `certData` at ISO time `now`: exactly the fifteen columns,
      each copied from `certData` (absent ones stay `undefined`), except that a falsy
      `created_at` is replaced by the time of the call. */
  function InsertRecord(certData: JsObject, now: string): (r: map<string, JsString>)
    ensures r.Keys == Columns
    ensures forall k :: k in Columns && k != CreatedAt ==> r[k] == Lookup(certData, k)
    ensures r[CreatedAt] == if Truthy(Lookup(certData, CreatedAt)) then Lookup(certData, CreatedAt) else Some(now)
  {
    map k | k in Columns :: if k == CreatedAt then Or(Lookup(certData, CreatedAt), Some(now)) else Lookup(certData, k)
  }

  /** Only the whitelisted fields matter: properties outside the table's columns are dropped. */
  lemma ExtraFieldsDropped(certData: JsObject, now: string)
    ensures InsertRecord(certData, now) == InsertRecord(certData - (certData.Keys - Columns), now)
  {
    var a := InsertRecord(certData, now);
    var b := InsertRecord(certData - (certData.Keys - Columns), now);
    forall k | k in Columns ensures a[k] == b[k] {
      assert Lookup(certData, k) == Lookup(certData - (certData.Keys - Columns), k);
    }
  }

  /** The properties of a record that are present, as an object again. */
  function Present(r: map<string, JsString>): JsObject {
    map k | k in r && r[k].Some? :: r[k].value
  }

  /** Logging a logged record again changes nothing: the projection is idempotent, since its
      `created_at` is already set (the clock reading is a non-empty ISO string). */
  lemma ProjectionIdempotent(certData: JsObject, now: string, later: string)
    requires now != ""
    ensures InsertRecord(Present(InsertRecord(certData, now)), later) == InsertRecord(certData, now)
  {
    var r := InsertRecord(certData, now);
    var again := InsertRecord(Present(r), later);
    forall k | k in Columns ensures again[k] == r[k] {
      assert Lookup(Present(r), k) == r[k];
    }
  }

  /** What `supabase.from('certificates').insert([record])` gives: `{ data, error }` (an error
      is seen through its message), or a raised error. */
  datatype InsertOutcome = Answered(data: Option<string>, error: Option<string>) | Raised(message: string)

  type Insert = map<string, JsString> -> InsertOutcome

  /** The object `logCertificate` returns. */
  datatype LogResult = LogResult(data: Option<string>, error: Option<string>, success: bool, details: string)

  const LoggedDetails := "Certificate logged successfully to Supabase"

  /** `logCertificate(certData)` at ISO time `now`. It never throws: an insert error and a
      raised error both give `success: false`, no data and the error, with distinct prefixes. */
  function LogCertificate(certData: JsObject, now: string, insert: Insert): (r: LogResult)
    ensures var outcome := insert(InsertRecord(certData, now));
      && (r.success <==> outcome.Answered? && outcome.error.None?)
      && (r.success ==> r == LogResult(outcome.data, None, true, LoggedDetails))
      && (outcome.Answered? && outcome.error.Some? ==>
            r == LogResult(None, outcome.error, false, "Database insert failed: " + outcome.error.value))
      && (outcome.Raised? ==>
            r == LogResult(None, Some(outcome.message), false, "Unexpected error: " + outcome.message))
  {
    match insert(InsertRecord(certData, now))
    case Raised(m) => LogResult(None, Some(m), false, "Unexpected error: " + m)
    case Answered(data, error) =>
      if error.Some? then LogResult(None, error, false, "Database insert failed: " + error.value)
      else LogResult(data, None, true, LoggedDetails)
  }
}
