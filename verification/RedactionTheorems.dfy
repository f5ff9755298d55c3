/**
  What redaction guarantees: every sensitive key of the output holds an envelope, the
  output depends on what it hides only through digests and lengths, no authorization
  scheme survives in a string, and the header loop crashes exactly on the objects named
  here.
 */
module RedactionTheorems {
  import opened Text
  import opened Redaction
  import opened RedactionKeys
  import opened RedactionSecrets

  // ---------------------------------------------------------------------------------
  // Every key that names a secret holds an envelope, and no private path is shown
  // ---------------------------------------------------------------------------------

  /** An object that says it is redacted and holds a reason, a digest, a length and the policy, and nothing else. */
  ghost predicate Envelope(v: Json) {
    v.Obj? && (
      || (v.fields.Keys ==
            {"redacted", "reason", "content_digest_sha256", "content_bytes", "redaction_policy_version"}
          && v.fields["redacted"] == Bool(true))
      || (v.fields.Keys ==
            {"input_redacted", "safe_summary", "input_digest_sha256", "input_bytes", "sensitive_fields_redacted",
             "redaction_policy_version"}
          && v.fields["input_redacted"] == Bool(true)))
  }

  predicate IsLetter(c: char) { 'a' <= c <= 'z' || 'A' <= c <= 'Z' }

  /** Text that starts, after spaces, like an absolute path, a home path, a share or a drive. */
  predicate StartsLikePath(s: string) {
    var t := Trim(s);
    || "/" <= t || "~/" <= t || "\\\\" <= t
    || (|t| >= 3 && IsLetter(t[0]) && t[1] == ':' && (t[2] == '\\' || t[2] == '/'))
  }

  /** What may stand under a key of the output. */
  ghost predicate CleanField(lib: Library, key: string, v: Json) {
    && (Secret(lib, key) ==> Envelope(v))
    && (Normalized(lib, key) == "path" ==> !(v.Str? && StartsLikePath(v.value)))
  }

  /** So at every depth. */
  ghost predicate Clean(lib: Library, v: Json)
    decreases v
  {
    match v
    case Obj(fields) => forall key | key in fields :: CleanField(lib, key, fields[key]) && Clean(lib, fields[key])
    case Arr(items) => forall i | 0 <= i < |items| :: Clean(lib, items[i])
    case _ => true
  }

  predicate Leaf(v: Json) { !v.Obj? && !v.Arr? }

  /** Plain values under plain keys. */
  ghost predicate Flat(lib: Library, fields: map<string, Json>) {
    forall key | key in fields :: PlainKey(lib, key) && Leaf(fields[key])
  }

  lemma PlainFieldIsClean(lib: Library, key: string, v: Json)
    requires PlainKey(lib, key)
    ensures CleanField(lib, key, v)
  {
    hide Sensitive, Secret, Normalized, StartsLikePath;
    SensitiveIff(lib, key);
    NormalizedAt(lib, key, 0);
    assert |"path"| == 4;
  }

  lemma FlatIsClean(lib: Library, fields: map<string, Json>)
    requires Flat(lib, fields)
    ensures Clean(lib, Obj(fields))
  {
    hide CleanField, PlainKey;
    forall key | key in fields ensures CleanField(lib, key, fields[key]) { PlainFieldIsClean(lib, key, fields[key]); }
  }

  lemma FlatUnion(lib: Library, a: map<string, Json>, b: map<string, Json>)
    requires Flat(lib, a) && Flat(lib, b)
    ensures Flat(lib, a + b)
  {
    hide PlainKey;
  }

  lemma RedactedIsEnvelope(reason: string, digest: string, bytes: nat)
    ensures Envelope(Redacted(reason, digest, bytes))
  {
    var v := Redacted(reason, digest, bytes);
    assert v.fields.Keys == {"redacted", "reason", "content_digest_sha256", "content_bytes", "redaction_policy_version"};
  }

  lemma InputRedactedIsEnvelope(reason: string, digest: string, bytes: nat)
    ensures Envelope(InputRedacted(reason, digest, bytes))
  {
    var v := InputRedacted(reason, digest, bytes);
    assert v.fields.Keys ==
      {"input_redacted", "safe_summary", "input_digest_sha256", "input_bytes", "sensitive_fields_redacted",
       "redaction_policy_version"};
  }

  lemma RedactedIsClean(lib: Library, reason: string, digest: string, bytes: nat)
    requires FoldOk(lib)
    ensures Clean(lib, Redacted(reason, digest, bytes)) && Envelope(Redacted(reason, digest, bytes))
  {
    hide PlainKey, Sensitive, Envelope, Clean;
    RedactedKey(lib);
    ReasonKey(lib);
    ContentDigestSha256Key(lib);
    ContentBytesKey(lib);
    RedactionPolicyVersionKey(lib);
    FlatIsClean(lib, Redacted(reason, digest, bytes).fields);
    RedactedIsEnvelope(reason, digest, bytes);
  }

  lemma InputRedactedIsFlat(lib: Library, reason: string, digest: string, bytes: nat)
    requires FoldOk(lib)
    ensures Flat(lib, InputRedacted(reason, digest, bytes).fields)
  {
    hide PlainKey, Sensitive;
    InputKeys(lib);
    SafeSummaryKey(lib);
  }

  lemma InputRedactedIsClean(lib: Library, reason: string, digest: string, bytes: nat)
    requires FoldOk(lib)
    ensures Clean(lib, InputRedacted(reason, digest, bytes)) && Envelope(InputRedacted(reason, digest, bytes))
  {
    hide Flat, Envelope;
    InputRedactedIsFlat(lib, reason, digest, bytes);
    FlatIsClean(lib, InputRedacted(reason, digest, bytes).fields);
    InputRedactedIsEnvelope(reason, digest, bytes);
  }

  lemma InputKeys(lib: Library)
    requires FoldOk(lib)
    ensures PlainKey(lib, "input_redacted") && PlainKey(lib, "input_digest_sha256") && PlainKey(lib, "input_bytes")
    ensures PlainKey(lib, REDACTED_FIELDS) && PlainKey(lib, "redaction_policy_version")
  {
    hide PlainKey, Sensitive;
    InputRedactedKey(lib);
    InputDigestSha256Key(lib);
    InputBytesKey(lib);
    SensitiveFieldsRedactedKey(lib);
    RedactionPolicyVersionKey(lib);
  }

  lemma PathIsClean(lib: Library, digest: string, bytes: nat)
    requires FoldOk(lib)
    ensures Clean(lib, PathSummary(digest, bytes))
  {
    hide PlainKey, Sensitive;
    SafePathDigestKey(lib);
    InputRedactedIsFlat(lib, "private_path", digest, bytes);
    FlatIsClean(lib, PathSummary(digest, bytes).fields);
  }

  lemma UrlPartsAreFlat(lib: Library, u: Url)
    requires FoldOk(lib)
    ensures Flat(lib, UrlParts(u))
  {
    hide PlainKey, Sensitive;
    SafeUrlKey(lib);
    SafeHostKey(lib);
    RedactionPolicyVersionKey(lib);
  }

  lemma UrlRedactionIsFlat(lib: Library, digest: string, bytes: nat)
    requires FoldOk(lib)
    ensures Flat(lib, UrlRedaction(digest, bytes))
  {
    hide PlainKey, Sensitive;
    InputKeys(lib);
  }

  lemma UrlIsClean(lib: Library, t: string)
    requires FoldOk(lib)
    ensures Clean(lib, UrlSummary(lib, t))
  {
    hide Flat, RedactAuth, UrlParts, UrlRedaction;
    if UrlSummary(lib, t).Obj? {
      var u := lib.parse(t).value;
      UrlPartsAreFlat(lib, u);
      UrlRedactionIsFlat(lib, lib.sha256(t), lib.bytes(t));
      FlatUnion(lib, UrlParts(u), UrlRedaction(lib.sha256(t), lib.bytes(t)));
      FlatIsClean(lib, UrlSummary(lib, t).fields);
    }
  }

  lemma StringIsClean(lib: Library, s: string)
    requires FoldOk(lib)
    ensures Clean(lib, SafeString(lib, s))
  {
    hide Sensitive, RedactAuth;
    RedactedIsClean(lib, "large_string", lib.sha256(s), lib.bytes(s));
  }

  lemma {:induction false} FieldIsClean(lib: Library, key: string, v: Json)
    requires FoldOk(lib)
    ensures Clean(lib, FieldValue(lib, key, v)) && CleanField(lib, key, FieldValue(lib, key, v))
    decreases v, 2
  {
    FieldIsAllowed(lib, key, v);
    hide Clean, CleanField, PrivatePath, Sanitize, SanitizeHeaders, Redacted, PathSummary, UrlSummary;
    hide Sensitive, Normalized, Trim;
    RedactedIsClean(lib, "sensitive_key", lib.sha256(lib.Text(v)), lib.bytes(lib.Text(v)));
    PathIsClean(lib, lib.sha256(Trim(lib.Text(v))), lib.bytes(Trim(lib.Text(v))));
    UrlIsClean(lib, Trim(lib.Text(v)));
    SanitizedHeadersAreClean(lib, v);
    SanitizedIsClean(lib, v);
  }

  lemma FieldIsAllowed(lib: Library, key: string, v: Json)
    ensures CleanField(lib, key, FieldValue(lib, key, v))
  {
    RoleIs(lib, key);
    if Normalized(lib, key) == "path" { FieldHoldsNoPath(lib, key, v); }
    hide Envelope, Redacted, RoleOf, Secret, Normalized, StartsLikePath, FieldValue;
    if Secret(lib, key) { HiddenFieldIsEnvelope(lib, key, v); }
  }

  lemma HiddenFieldIsEnvelope(lib: Library, key: string, v: Json)
    requires RoleOf(lib, key).Hidden?
    ensures Envelope(FieldValue(lib, key, v))
  {
    hide Envelope, Redacted, RoleOf;
    RedactedIsEnvelope("sensitive_key", lib.sha256(lib.Text(v)), lib.bytes(lib.Text(v)));
  }

  /** What an object shows under a path key is no private path. */
  lemma FieldHoldsNoPath(lib: Library, key: string, v: Json)
    requires Normalized(lib, key) == "path"
    ensures !(FieldValue(lib, key, v).Str? && StartsLikePath(FieldValue(lib, key, v).value))
  {
    hide Sensitive, Normalized, PrivatePath, StartsLikePath, RedactAuth;
    if v.Str? && !PrivatePath(v.value) { RedactedPathIsNoPath(v.value); }
  }

  /** Taking out authorization schemes does not make a path of what is none. */
  lemma RedactedPathIsNoPath(s: string)
    requires !PrivatePath(s)
    ensures !StartsLikePath(RedactAuth(s))
  {
    var t := Trim(RedactAuth(s));
    if "/" <= t { CopiedPrefix(s, "/"); }
    if "~/" <= t { CopiedPrefix(s, "~/"); }
    if "\\\\" <= t { CopiedPrefix(s, "\\\\"); }
    if |t| >= 3 && IsLetter(t[0]) && t[1] == ':' && (t[2] == '\\' || t[2] == '/') {
      assert t[..3] == [t[0], t[1], t[2]];
      CopiedPrefix(s, t[..3]);
    }
  }

  /** What a redacted string starts with after spaces, the string itself starts with. */
  lemma CopiedPrefix(s: string, part: string)
    requires part != "" && part <= Trim(RedactAuth(s)) && '[' !in part
    requires !IsSpace(part[0]) && !IsSpace(part[|part| - 1])
    ensures part <= Trim(s)
  {
    var r := RedactAuth(s);
    var left, right := TrimIs(r);
    var prefix := left + part;
    assert prefix <= r;
    assert '[' !in prefix;
    PrefixWasCopied(prefix, s);
    var rest := s[|prefix|..];
    assert s == left + (part + rest);
    TrimLeftPadded(left, part + rest);
    TrimRightKeeps(part, rest);
  }

  lemma {:induction false} HeaderIsClean(lib: Library, key: string, v: Json)
    requires FoldOk(lib)
    ensures Clean(lib, HeaderValue(lib, key, v)) && CleanField(lib, key, HeaderValue(lib, key, v))
    decreases v, 2
  {
    HeaderIsAllowed(lib, key, v);
    hide Clean, CleanField, HeaderRoleOf, Sanitize, InputRedacted;
    InputRedactedIsClean(lib, "sensitive_header", lib.sha256(lib.Text(v)), lib.bytes(lib.Text(v)));
    InputRedactedIsClean(lib, "non_allowlisted_header", lib.sha256(lib.Text(v)), lib.bytes(lib.Text(v)));
    SanitizedIsClean(lib, v);
  }

  lemma HeaderIsAllowed(lib: Library, key: string, v: Json)
    ensures CleanField(lib, key, HeaderValue(lib, key, v))
  {
    hide Secret, Normalized, HeaderRoleOf, StartsLikePath, HeaderValue, Seals;
    if HeaderRoleOf(lib, key).AllowedHeader? {
      AllowedIsPlain(lib, key);
    } else {
      HiddenHeaderSeals(lib, key, v);
      SealsAreEnvelopes(lib, HeaderValue(lib, key, v), v, "input_digest_sha256", "input_bytes");
    }
  }

  lemma SealsAreEnvelopes(lib: Library, envelope: Json, v: Json, digestKey: string, bytesKey: string)
    requires Seals(lib, envelope, v, digestKey, bytesKey)
    ensures Envelope(envelope) && envelope.Obj?
  {
  }

  lemma AllowedIsPlain(lib: Library, key: string)
    requires HeaderRoleOf(lib, key).AllowedHeader?
    ensures !Secret(lib, key) && Normalized(lib, key) != "path"
  {
    hide Sensitive, Secret, Normalized;
    SensitiveIff(lib, key);
    PathIsNotAllowed(Normalized(lib, key));
  }

  lemma PathIsNotAllowed(text: string)
    requires text in ALLOWED_HEADERS
    ensures text != "path"
  {
    assert |text| == 4 ==> text[0] == 'e';
  }

  /** The redactor's promise, for every value and every library behaviour. */
  lemma {:induction false} SanitizedIsClean(lib: Library, v: Json)
    requires FoldOk(lib)
    ensures Clean(lib, Sanitize(lib, v))
    decreases v, 0
  {
    hide CleanField, Dropped, FieldValue;
    match v
    case Obj(fields) =>
      forall key | key in fields
        ensures Clean(lib, FieldValue(lib, key, fields[key]))
        ensures CleanField(lib, key, FieldValue(lib, key, fields[key]))
      {
        FieldIsClean(lib, key, fields[key]);
      }
    case Arr(items) =>
      forall i | 0 <= i < |items| ensures Clean(lib, Sanitize(lib, items[i])) { SanitizedIsClean(lib, items[i]); }
    case Str(s) => StringIsClean(lib, s);
    case _ =>
  }

  /** The envelope holds the digest and the length of this value, under these keys. */
  ghost predicate Seals(lib: Library, envelope: Json, v: Json, digestKey: string, bytesKey: string) {
    && Envelope(envelope) && digestKey in envelope.fields && bytesKey in envelope.fields
    && envelope.fields[digestKey] == Str(lib.sha256(lib.Text(v)))
    && envelope.fields[bytesKey] == Length(lib.bytes(lib.Text(v)))
  }

  lemma RedactedSeals(lib: Library, v: Json, reason: string)
    ensures Seals(lib, Redacted(reason, lib.sha256(lib.Text(v)), lib.bytes(lib.Text(v))), v,
                  "content_digest_sha256", "content_bytes")
  {
    hide Envelope;
    RedactedIsEnvelope(reason, lib.sha256(lib.Text(v)), lib.bytes(lib.Text(v)));
  }

  lemma InputRedactedSeals(lib: Library, v: Json, reason: string)
    ensures Seals(lib, InputRedacted(reason, lib.sha256(lib.Text(v)), lib.bytes(lib.Text(v))), v,
                  "input_digest_sha256", "input_bytes")
  {
    hide Envelope;
    InputRedactedIsEnvelope(reason, lib.sha256(lib.Text(v)), lib.bytes(lib.Text(v)));
  }

  /**
    What becomes of an object's keys: two are left out, and every other one that names a
    secret holds an envelope with the digest and the length of what was there.
   */
  lemma SecretsAreHidden(lib: Library, fields: map<string, Json>, key: string)
    requires key in fields
    ensures
      var out := Sanitize(lib, Obj(fields)).fields;
      && (key in out <==> Normalized(lib, key) != "ciphertext" && Normalized(lib, key) != "nonce")
      && (Secret(lib, key) && key in out ==> Seals(lib, out[key], fields[key], "content_digest_sha256", "content_bytes"))
  {
    if Secret(lib, key) { HiddenFieldSeals(lib, key, fields[key]); }
    hide Seals, Secret, Normalized, FieldValue;
  }

  lemma HiddenFieldSeals(lib: Library, key: string, v: Json)
    requires Secret(lib, key)
    ensures Seals(lib, FieldValue(lib, key, v), v, "content_digest_sha256", "content_bytes")
  {
    hide Seals, Secret, Redacted, RoleOf;
    RoleIs(lib, key);
    RedactedSeals(lib, v, "sensitive_key");
  }

  lemma HiddenHeaderSeals(lib: Library, key: string, v: Json)
    requires !HeaderRoleOf(lib, key).AllowedHeader?
    ensures Seals(lib, HeaderValue(lib, key, v), v, "input_digest_sha256", "input_bytes")
  {
    hide Seals, InputRedacted, HeaderRoleOf;
    InputRedactedSeals(lib, v, "sensitive_header");
    InputRedactedSeals(lib, v, "non_allowlisted_header");
  }

  /**
    What becomes of headers: each is kept, but one that is not among the shown ones holds an
    envelope with its digest and length, and those that name a secret are listed.
   */
  lemma HeadersAreHidden(lib: Library, headers: map<string, Json>, key: string)
    requires key in headers && !("input_redacted" in headers && headers["input_redacted"] == Bool(true))
    ensures
      var v := SanitizeHeaders(lib, Obj(headers));
      && v.Obj? && key in v.fields
      && var out := v.fields;
      && (!HeaderRoleOf(lib, key).AllowedHeader? ==> Seals(lib, out[key], headers[key], "input_digest_sha256", "input_bytes"))
      && (REDACTED_FIELDS !in headers ==>
            && REDACTED_FIELDS in out && out[REDACTED_FIELDS].Names?
            && (key in out[REDACTED_FIELDS].names <==> Secret(lib, key)))
  {
    assert !Marked(headers);
    hide Seals, Secret, HeaderRoleOf, HeaderBase, HeaderValue, SanitizeHeaders, Marked;
    BaseLists(lib, headers.Keys, key);
    HeadersAre(lib, headers, key);
    if !HeaderRoleOf(lib, key).AllowedHeader? { HiddenHeaderSeals(lib, key, headers[key]); }
  }

  /** Headers that are no object become one envelope, and headers already marked are treated like any object. */
  lemma OtherHeadersAre(lib: Library, v: Json)
    ensures !v.Obj? ==> Seals(lib, SanitizeHeaders(lib, v), v, "input_digest_sha256", "input_bytes")
    ensures v.Obj? && "input_redacted" in v.fields && v.fields["input_redacted"] == Bool(true) ==>
            SanitizeHeaders(lib, v) == Sanitize(lib, v)
  {
    hide Seals, InputRedacted, HeaderBase, HeaderValue;
    InputRedactedSeals(lib, v, "headers");
  }

  /** Under a path key, text that is no absolute, home, share or drive path is shown like any other. */
  lemma RelativePathIsShown(lib: Library, key: string, s: string)
    requires Normalized(lib, key) == "path" && !Secret(lib, key)
    requires
      var t := Trim(s);
      !("/" <= t) && !("~/" <= t) && !("\\\\" <= t) && (|t| < 2 || t[1] != ':')
    ensures FieldValue(lib, key, Str(s)) == SafeString(lib, s)
  {
    hide Normalized, Secret, Sensitive, Trim;
    SensitiveIff(lib, key);
  }

  /** A URL is shown without its query and credentials, and says so exactly if it had any. */
  lemma UrlShows(lib: Library, t: string)
    requires t != "" && lib.parse(t).Some? && lib.parse(t).value.scheme != "" && lib.parse(t).value.host != ""
    ensures
      var u, v := lib.parse(t).value, UrlSummary(lib, t);
      && v.Obj? && "safe_url" in v.fields && v.fields["safe_url"] == Str(u.scheme + "://" + u.host + u.path)
      && "safe_host" in v.fields && v.fields["safe_host"] == Str(u.hostname)
      && ("input_redacted" in v.fields <==> u.hasQueryOrUser)
  {
    hide RedactAuth;
    assert |"safe_url"| == 8 && |"safe_host"| == 9 && |"input_redacted"| == 14 && |"input_bytes"| == 11;
    assert |"input_digest_sha256"| == 19 && |REDACTED_FIELDS| == 25 && |"redaction_policy_version"| == 24;
  }

  lemma HeadersAre(lib: Library, headers: map<string, Json>, key: string)
    requires key in headers && !Marked(headers) && REDACTED_FIELDS in HeaderBase(lib, headers.Keys)
    ensures
      var v, base := SanitizeHeaders(lib, Obj(headers)), HeaderBase(lib, headers.Keys);
      && v.Obj? && key in v.fields && v.fields[key] == HeaderValue(lib, key, headers[key])
      && (REDACTED_FIELDS !in headers ==>
            REDACTED_FIELDS in v.fields && v.fields[REDACTED_FIELDS] == base[REDACTED_FIELDS])
  {
    hide HeaderBase, HeaderValue, Marked;
  }

  lemma BaseLists(lib: Library, keys: set<string>, key: string)
    requires key in keys
    ensures
      var base := HeaderBase(lib, keys);
      && REDACTED_FIELDS in base && base[REDACTED_FIELDS].Names?
      && (key in base[REDACTED_FIELDS].names <==> Secret(lib, key))
  {
    hide Sensitive, Secret;
    SensitiveIff(lib, key);
  }

  lemma HeaderBaseIsFlat(lib: Library, keys: set<string>)
    requires FoldOk(lib)
    ensures Flat(lib, HeaderBase(lib, keys))
  {
    hide PlainKey, Sensitive;
    InputKeys(lib);
  }

  lemma {:induction false} SanitizedHeadersAreClean(lib: Library, v: Json)
    requires FoldOk(lib)
    ensures Clean(lib, SanitizeHeaders(lib, v))
    decreases v, 1
  {
    hide CleanField, HeaderValue, InputRedacted, Clean, HeaderBase;
    if !v.Obj? {
      InputRedactedIsClean(lib, "headers", lib.sha256(lib.Text(v)), lib.bytes(lib.Text(v)));
    } else if Marked(v.fields) {
      SanitizedIsClean(lib, v);
    } else {
      var base := HeaderBase(lib, v.fields.Keys);
      var over := map key | key in v.fields :: HeaderValue(lib, key, v.fields[key]);
      HeaderBaseIsFlat(lib, v.fields.Keys);
      forall key | key in over ensures Clean(lib, over[key]) && CleanField(lib, key, over[key]) {
        HeaderIsClean(lib, key, v.fields[key]);
      }
      OverlayIsClean(lib, base, over);
    }
  }

  lemma OverlayIsClean(lib: Library, base: map<string, Json>, over: map<string, Json>)
    requires Flat(lib, base)
    requires forall key | key in over :: Clean(lib, over[key]) && CleanField(lib, key, over[key])
    ensures Clean(lib, Obj(base + over))
  {
    hide CleanField, PlainKey;
    forall key | key in base ensures CleanField(lib, key, base[key]) && Clean(lib, base[key]) {
      PlainFieldIsClean(lib, key, base[key]);
    }
  }

  // ---------------------------------------------------------------------------------
  // What is hidden shows only as a digest and a length
  // ---------------------------------------------------------------------------------

  predicate SameDigest(lib: Library, a: string, b: string) { lib.sha256(a) == lib.sha256(b) && lib.bytes(a) == lib.bytes(b) }

  /**
    Two URLs that agree on scheme, host and path; a query or credentials may be any others
    with the same digest and length, and what is neither, a fragment say, may be anything.
   */
  predicate AlikeUrl(lib: Library, t: string, t': string) {
    if t == "" || t' == "" || lib.parse(t).None? || lib.parse(t').None? then t == t'
    else
      var u, u' := lib.parse(t).value, lib.parse(t').value;
      if u.scheme == "" || u.host == "" then t == t'
      else u == u' && (u.hasQueryOrUser ==> SameDigest(lib, t, t'))
  }

  lemma AlikeUrlSame(lib: Library, t: string, t': string)
    requires AlikeUrl(lib, t, t')
    ensures UrlSummary(lib, t) == UrlSummary(lib, t')
  {
    hide UrlParts, UrlRedaction, RedactAuth;
  }

  ghost predicate AlikeField(lib: Library, key: string, v: Json, w: Json)
    decreases v, 2
  {
    match RoleOf(lib, key)
    case Hidden => SameDigest(lib, lib.Text(v), lib.Text(w))
    case PathLike =>
      && PrivatePath(lib.Text(v)) == PrivatePath(lib.Text(w))
      && (if PrivatePath(lib.Text(v)) then SameDigest(lib, Trim(lib.Text(v)), Trim(lib.Text(w))) else Alike(lib, v, w))
    case UrlLike => AlikeUrl(lib, Trim(lib.Text(v)), Trim(lib.Text(w)))
    case HeadersLike => AlikeHeaders(lib, v, w)
    case Ordinary => Alike(lib, v, w)
  }

  /**
    Two values that agree outside what is to be hidden: dropped keys do not matter, and a
    sensitive value, a long string, a private path, the query or credentials of a URL or a
    header outside the allow-list may be any other with the same digest and length.
   */
  ghost predicate Alike(lib: Library, v: Json, w: Json)
    decreases v, 0
  {
    if v.Obj? && w.Obj? then
      && (forall key | key in v.fields && !Dropped(lib, key) ::
            key in w.fields && AlikeField(lib, key, v.fields[key], w.fields[key]))
      && (forall key | key in w.fields && !Dropped(lib, key) :: key in v.fields)
    else if v.Arr? && w.Arr? then
      |v.items| == |w.items| && forall i | 0 <= i < |v.items| :: Alike(lib, v.items[i], w.items[i])
    else if v.Str? && w.Str? && (lib.bytes(v.value) > 512 || lib.bytes(w.value) > 512) then SameDigest(lib, v.value, w.value)
    else v == w
  }

  ghost predicate AlikeHeader(lib: Library, key: string, v: Json, w: Json)
    decreases v, 2
  {
    if HeaderRoleOf(lib, key).AllowedHeader? then Alike(lib, v, w)
    else SameDigest(lib, lib.Text(v), lib.Text(w))
  }

  ghost predicate AlikeHeaders(lib: Library, v: Json, w: Json)
    decreases v, 1
  {
    if !v.Obj? || !w.Obj? then !v.Obj? && !w.Obj? && SameDigest(lib, lib.Text(v), lib.Text(w))
    else if Marked(v.fields) || Marked(w.fields) then Marked(v.fields) && Marked(w.fields) && Alike(lib, v, w)
    else
      && v.fields.Keys == w.fields.Keys
      && forall key | key in v.fields :: AlikeHeader(lib, key, v.fields[key], w.fields[key])
  }

  lemma {:induction false} AlikeFieldSame(lib: Library, key: string, v: Json, w: Json)
    requires AlikeField(lib, key, v, w)
    ensures FieldValue(lib, key, v) == FieldValue(lib, key, w)
    decreases v, 2
  {
    hide RoleOf, PrivatePath, Trim, Sanitize, SanitizeHeaders, Alike, AlikeHeaders, Redacted, PathSummary;
    hide UrlSummary;
    hide Sensitive, Normalized;
    match RoleOf(lib, key)
    case Hidden =>
    case PathLike => if !PrivatePath(lib.Text(v)) { SecretsShowOnlyAsDigests(lib, v, w); }
    case UrlLike => AlikeUrlSame(lib, Trim(lib.Text(v)), Trim(lib.Text(w)));
    case HeadersLike => AlikeHeadersSame(lib, v, w);
    case Ordinary => SecretsShowOnlyAsDigests(lib, v, w);
  }

  lemma {:induction false} AlikeHeaderSame(lib: Library, key: string, v: Json, w: Json)
    requires AlikeHeader(lib, key, v, w)
    ensures HeaderValue(lib, key, v) == HeaderValue(lib, key, w)
    decreases v, 2
  {
    hide HeaderRoleOf, Sanitize, Alike, InputRedacted;
    if Alike(lib, v, w) { SecretsShowOnlyAsDigests(lib, v, w); }
  }

  /** Responses cannot tell apart values that differ only in what is hidden. */
  lemma {:induction false} SecretsShowOnlyAsDigests(lib: Library, v: Json, w: Json)
    requires Alike(lib, v, w)
    ensures Sanitize(lib, v) == Sanitize(lib, w)
    decreases v, 0
  {
    hide Dropped, FieldValue, AlikeField;
    if v.Obj? && w.Obj? {
      forall key | key in v.fields && !Dropped(lib, key)
        ensures key in w.fields && FieldValue(lib, key, v.fields[key]) == FieldValue(lib, key, w.fields[key])
      {
        AlikeFieldSame(lib, key, v.fields[key], w.fields[key]);
      }
      assert Sanitize(lib, v).fields == Sanitize(lib, w).fields;
    } else if v.Arr? && w.Arr? {
      forall i | 0 <= i < |v.items| ensures Sanitize(lib, v.items[i]) == Sanitize(lib, w.items[i]) {
        SecretsShowOnlyAsDigests(lib, v.items[i], w.items[i]);
      }
      assert Sanitize(lib, v).items == Sanitize(lib, w).items;
    }
  }

  lemma {:induction false} AlikeHeadersSame(lib: Library, v: Json, w: Json)
    requires AlikeHeaders(lib, v, w)
    ensures SanitizeHeaders(lib, v) == SanitizeHeaders(lib, w)
    decreases v, 1
  {
    hide Sensitive, HeaderValue, AlikeHeader, Alike, Sanitize;
    if v.Obj? && w.Obj? {
      if Marked(v.fields) {
        SecretsShowOnlyAsDigests(lib, v, w);
      } else {
        forall key | key in v.fields
          ensures HeaderValue(lib, key, v.fields[key]) == HeaderValue(lib, key, w.fields[key])
        {
          AlikeHeaderSame(lib, key, v.fields[key], w.fields[key]);
        }
        assert SanitizeHeaders(lib, v).fields == SanitizeHeaders(lib, w).fields;
      }
    }
  }

  // ---------------------------------------------------------------------------------
  // Authorization schemes in strings
  // ---------------------------------------------------------------------------------

  /** A bracket-free start of the output is a start of the input: it was copied, not written. */
  lemma {:induction false} PrefixWasCopied(part: string, s: string)
    requires part <= RedactAuth(s) && '[' !in part
    ensures part <= s
    decreases |part|
  {
    if part != "" {
      assert part[0] == RedactAuth(s)[0] && part[0] in part;
      assert !("Bearer " <= s) && !("Basic " <= s) && s != "";
      assert RedactAuth(s)[1..] == RedactAuth(s[1..]);
      assert part[1..] <= RedactAuth(s)[1..];
      PrefixWasCopied(part[1..], s[1..]);
    }
  }

  lemma {:induction false} WrittenTextHasNone(part: string, n: nat, rest: string)
    requires n <= 16 && part != "" && part[0] == 'B' && !Contains(rest, part)
    ensures !Contains("[redacted-auth] "[n..] + rest, part)
    decreases 16 - n
  {
    var written := "[redacted-auth] ";
    var text := written[n..] + rest;
    if n == 16 {
      assert text == rest;
    } else {
      WrittenTextHasNone(part, n + 1, rest);
      assert text[1..] == written[n + 1..] + rest;
      assert text[0] == written[n] && written[n] != 'B';
    }
  }

  lemma {:induction false} SchemeIsGone(s: string, part: string)
    requires part == "Bearer " || part == "Basic "
    ensures !Contains(RedactAuth(s), part)
    decreases |s|
  {
    var written := "[redacted-auth] ";
    assert written[0..] == written;
    if "Bearer " <= s {
      SchemeIsGone(s[7..], part);
      WrittenTextHasNone(part, 0, RedactAuth(s[7..]));
    } else if "Basic " <= s {
      SchemeIsGone(s[6..], part);
      WrittenTextHasNone(part, 0, RedactAuth(s[6..]));
    } else if s != "" {
      SchemeIsGone(s[1..], part);
      assert RedactAuth(s)[1..] == RedactAuth(s[1..]);
      if part <= RedactAuth(s) { PrefixWasCopied(part, s); }
    }
  }

  /** One pass over the text leaves neither scheme, though the text it writes is not looked at again. */
  lemma NoSchemeSurvives(s: string)
    ensures !Contains(RedactAuth(s), "Bearer ") && !Contains(RedactAuth(s), "Basic ")
  {
    SchemeIsGone(s, "Bearer ");
    SchemeIsGone(s, "Basic ");
  }

  // ---------------------------------------------------------------------------------
  // What has nothing to hide passes
  // ---------------------------------------------------------------------------------

  /** A string is changed exactly if it has an authorization scheme in it. */
  lemma {:induction false} UnchangedIffNoScheme(s: string)
    ensures RedactAuth(s) == s <==> !Contains(s, "Bearer ") && !Contains(s, "Basic ")
  {
    NoSchemeSurvives(s);
    if s != "" && !Contains(s, "Bearer ") && !Contains(s, "Basic ") {
      UnchangedIffNoScheme(s[1..]);
    }
  }

  /** No key that means anything to the redactor, no string over 512 bytes and no authorization scheme, at every depth. */
  ghost predicate Harmless(lib: Library, v: Json)
    decreases v
  {
    match v
    case Obj(fields) =>
      forall key | key in fields ::
        && !Secret(lib, key) && Normalized(lib, key) != "path" && Normalized(lib, key) != "url"
        && Normalized(lib, key) != "headers" && Harmless(lib, fields[key])
    case Arr(items) => forall i | 0 <= i < |items| :: Harmless(lib, items[i])
    case Str(s) => lib.bytes(s) <= 512 && !Contains(s, "Bearer ") && !Contains(s, "Basic ")
    case _ => true
  }

  lemma {:induction false} HarmlessIsUnchanged(lib: Library, v: Json)
    requires Harmless(lib, v)
    ensures Sanitize(lib, v) == v
    decreases v
  {
    hide RoleOf, Dropped, Contains, RedactAuth, Secret, Normalized;
    match v
    case Obj(fields) =>
      forall key | key in fields ensures FieldValue(lib, key, fields[key]) == fields[key] && !Dropped(lib, key) {
        if Dropped(lib, key) { DroppedIsSecret(lib, key); }
        RoleIs(lib, key);
        HarmlessIsUnchanged(lib, fields[key]);
      }
      assert Sanitize(lib, v).fields == fields;
    case Arr(items) =>
      forall i | 0 <= i < |items| ensures Sanitize(lib, items[i]) == items[i] { HarmlessIsUnchanged(lib, items[i]); }
      assert Sanitize(lib, v).items == items;
    case Str(s) => UnchangedIffNoScheme(s);
    case _ =>
  }
}
