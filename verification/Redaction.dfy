/**
  Redaction of API responses (api/redaction.go): a JSON value is rebuilt with secrets
  replaced by envelopes that carry only a digest and a length.  Objects stored under a
  `headers` key go through a stricter loop, which hands objects that are already marked
  as redacted back to the general sanitizer.
 */
module Redaction {
  import opened Prelude
  import opened Text

  /**
    A decoded JSON value.  `Names` is the list of redacted field names the header loop
    builds; it is a set because its order follows the runtime's map iteration.
   */
  datatype Json =
    | Null
    | Bool(on: bool)
    | Number(text: string)
    | Str(value: string)
    | Arr(items: seq<Json>)
    | Obj(fields: map<string, Json>)
    | Length(n: nat)
    | Names(names: set<string>)

  datatype Url = Url(scheme: string, host: string, hostname: string, path: string, hasQueryOrUser: bool)

  /**
    The library functions the redactor calls: JSON encoding, SHA-256 in hex, URL parsing,
    lower-casing of a letter, and the length of a string in bytes.
   */
  datatype Library = Library(
    encode: Json -> string, sha256: string -> string, parse: string -> Option<Url>,
    fold: char -> char, bytes: string -> nat)
  {
    function Text(v: Json): string { if v.Str? then v.value else encode(v) }
  }

  /** Lower-casing leaves ASCII alone except for its capitals; what it does elsewhere does not matter. */
  ghost predicate FoldOk(lib: Library) {
    forall c | c < '\U{80}' && !('A' <= c <= 'Z') :: lib.fold(c) == c
  }

  // ---------------------------------------------------------------------------------
  // Keys
  // ---------------------------------------------------------------------------------

  function Normalized(lib: Library, key: string): string { ReplaceChar(Lower(lib.fold, key), '-', '_') }

  const PATTERNS := [
    "authorization", "cookie", "set_cookie", "set-cookie", "token", "secret", "password", "api_key", "apikey",
    "access_key", "refresh_token", "private_key", "credential", "ciphertext", "nonce", "body", "raw_body",
    "response_body", "request_body", "content", "file_content", "file_contents", "full_text", "file_path",
    "absolute_path", "full_absolute_path"
  ]

  const SAFE_KEYS := [
    "content_redacted", "content_digest", "content_digest_sha256", "content_bytes", "content_type",
    "input_redacted", "input_digest_sha256", "input_bytes", "input_content_type", "encrypted_input_ref",
    "encrypted_input_ref_id", "purpose", "key_version", "created_at", "expires_at", "safe_summary",
    "sensitive_fields_redacted", "redaction_policy_version", "local_auth_secret_env"
  ]

  const ALLOWED_HEADERS := [
    "content_type", "content_length", "etag", "last_modified", "cache_control", "x_request_id", "x_correlation_id"
  ]

  predicate HasPattern(normalized: string, n: nat)
    requires n <= |PATTERNS|
  {
    n > 0 && (HasPattern(normalized, n - 1) || Contains(normalized, ReplaceChar(PATTERNS[n - 1], '-', '_')))
  }

  predicate Sensitive(lib: Library, key: string) {
    Normalized(lib, key) !in SAFE_KEYS && HasPattern(Normalized(lib, key), |PATTERNS|)
  }

  predicate Dropped(lib: Library, key: string) { Normalized(lib, key) == "ciphertext" || Normalized(lib, key) == "nonce" }

  datatype Role = Hidden | PathLike | UrlLike | HeadersLike | Ordinary

  /** How an object treats what it holds under a key. */
  function RoleOf(lib: Library, key: string): Role {
    if Sensitive(lib, key) then Hidden
    else if Normalized(lib, key) == "path" then PathLike
    else if Normalized(lib, key) == "url" then UrlLike
    else if Normalized(lib, key) == "headers" then HeadersLike
    else Ordinary
  }

  datatype HeaderRole = HiddenHeader | AllowedHeader | OtherHeader

  function HeaderRoleOf(lib: Library, key: string): HeaderRole {
    if Sensitive(lib, key) then HiddenHeader
    else if Normalized(lib, key) in ALLOWED_HEADERS then AllowedHeader
    else OtherHeader
  }

  // ---------------------------------------------------------------------------------
  // Envelopes, strings, paths and URLs
  // ---------------------------------------------------------------------------------

  const POLICY := "api-response-redaction-v1"
  const MAX_STRING := 512
  const REDACTED_FIELDS := "sensitive_fields_redacted"

  function Redacted(reason: string, digest: string, bytes: nat): Json {
    Obj(map[
      "redacted" := Bool(true), "reason" := Str(reason), "content_digest_sha256" := Str(digest),
      "content_bytes" := Length(bytes), "redaction_policy_version" := Str(POLICY)])
  }

  function InputRedacted(reason: string, digest: string, bytes: nat): Json {
    Obj(map[
      "input_redacted" := Bool(true), "safe_summary" := Str(reason), "input_digest_sha256" := Str(digest),
      "input_bytes" := Length(bytes), REDACTED_FIELDS := Names({reason}),
      "redaction_policy_version" := Str(POLICY)])
  }

  /** Replaces authorization schemes from left to right, without looking at what it has written. */
  function RedactAuth(s: string): string {
    if "Bearer " <= s then "[redacted-auth] " + RedactAuth(s[7..])
    else if "Basic " <= s then "[redacted-auth] " + RedactAuth(s[6..])
    else if s == "" then ""
    else [s[0]] + RedactAuth(s[1..])
  }

  function SafeString(lib: Library, s: string): Json {
    if lib.bytes(s) > MAX_STRING then Redacted("large_string", lib.sha256(s), lib.bytes(s)) else Str(RedactAuth(s))
  }

  predicate PrivatePath(s: string) {
    var t := Trim(s);
    || "/" <= t || "~/" <= t || "\\\\" <= t
    || (|t| >= 3 && t[0] < '\U{80}' && t[1] == ':' && (t[2] == '\\' || t[2] == '/'))
  }

  function PathSummary(digest: string, bytes: nat): Json {
    Obj(InputRedacted("private_path", digest, bytes).fields["safe_path_digest" := Str(digest)])
  }

  function PathEnvelope(lib: Library, path: string): Json { PathSummary(lib.sha256(Trim(path)), lib.bytes(Trim(path))) }

  function UrlParts(u: Url): map<string, Json> {
    map["safe_url" := Str(u.scheme + "://" + u.host + u.path), "safe_host" := Str(u.hostname),
        "redaction_policy_version" := Str(POLICY)]
  }

  function UrlRedaction(digest: string, bytes: nat): map<string, Json> {
    map["input_redacted" := Bool(true), "input_digest_sha256" := Str(digest), "input_bytes" := Length(bytes),
        REDACTED_FIELDS := Names({"url_query_or_credentials"})]
  }

  function UrlSummary(lib: Library, t: string): Json {
    if t == "" then Str("")
    else
      match lib.parse(t)
      case None => Str(RedactAuth(t))
      case Some(u) =>
        if u.scheme == "" || u.host == "" then Str(RedactAuth(t))
        else if !u.hasQueryOrUser then Obj(UrlParts(u))
        else Obj(UrlParts(u) + UrlRedaction(lib.sha256(t), lib.bytes(t)))
  }

  function SafeUrl(lib: Library, raw: string): Json { UrlSummary(lib, Trim(raw)) }

  // ---------------------------------------------------------------------------------
  // The sanitizer
  // ---------------------------------------------------------------------------------

  predicate Marked(fields: map<string, Json>) {
    "input_redacted" in fields && fields["input_redacted"] == Bool(true)
  }

  /** What an object keeps under a key; the measure is lexicographic, see `SanitizeHeaders`. */
  function FieldValue(lib: Library, key: string, v: Json): Json
    decreases v, 2
  {
    match RoleOf(lib, key)
    case Hidden => Redacted("sensitive_key", lib.sha256(lib.Text(v)), lib.bytes(lib.Text(v)))
    case PathLike => if PrivatePath(lib.Text(v)) then PathEnvelope(lib, lib.Text(v)) else Sanitize(lib, v)
    case UrlLike => SafeUrl(lib, lib.Text(v))
    case HeadersLike => SanitizeHeaders(lib, v)
    case Ordinary => Sanitize(lib, v)
  }

  function Sanitize(lib: Library, v: Json): Json
    decreases v, 0
  {
    match v
    case Obj(fields) => Obj(map key | key in fields && !Dropped(lib, key) :: FieldValue(lib, key, fields[key]))
    case Arr(items) => Arr(seq(|items|, i requires 0 <= i < |items| => Sanitize(lib, items[i])))
    case Str(s) => SafeString(lib, s)
    case _ => v
  }

  /** Headers that are already marked as redacted re-enter the sanitizer as they are. */
  function SanitizeHeaders(lib: Library, v: Json): Json
    decreases v, 1
  {
    if !v.Obj? then InputRedacted("headers", lib.sha256(lib.Text(v)), lib.bytes(lib.Text(v)))
    else if Marked(v.fields) then Sanitize(lib, v)
    else Obj(HeaderBase(lib, v.fields.Keys) + map key | key in v.fields :: HeaderValue(lib, key, v.fields[key]))
  }

  function HeaderValue(lib: Library, key: string, v: Json): Json
    decreases v, 2
  {
    match HeaderRoleOf(lib, key)
    case HiddenHeader => InputRedacted("sensitive_header", lib.sha256(lib.Text(v)), lib.bytes(lib.Text(v)))
    case AllowedHeader => Sanitize(lib, v)
    case OtherHeader => InputRedacted("non_allowlisted_header", lib.sha256(lib.Text(v)), lib.bytes(lib.Text(v)))
  }

  /** What the header loop starts from, once it has noted the sensitive ones among `keys`. */
  function HeaderBase(lib: Library, keys: set<string>): map<string, Json> {
    map["input_redacted" := Bool(true), REDACTED_FIELDS := Names(set key | key in keys && Sensitive(lib, key)),
        "redaction_policy_version" := Str(POLICY)]
  }
}
