/** The keys the redactor writes itself are not sensitive, so its own envelopes are not redacted in turn. */
module RedactionKeys {
  import opened Text
  import opened Redaction

  /** Text that normalization leaves alone. */
  predicate Plain(s: string) { forall i | 0 <= i < |s| :: s[i] < '\U{80}' && !('A' <= s[i] <= 'Z') && s[i] != '-' }

  /** A key that means nothing to the redactor. */
  predicate PlainKey(lib: Library, key: string) { !Sensitive(lib, key) && |key| > 4 }

  lemma {:induction false} PlainIsNormalized(lib: Library, s: string)
    requires FoldOk(lib) && Plain(s)
    ensures Normalized(lib, s) == s
  {
    if s != "" {
      PlainIsNormalized(lib, s[1..]);
      assert Lower(lib.fold, s)[1..] == Lower(lib.fold, s[1..]);
    }
  }

  lemma {:induction false} ReplaceKeeps(s: string, c: char, from: char, to: char)
    requires c in s && c != from
    ensures c in ReplaceChar(s, from, to)
  {
    if s[0] == c {
      assert ReplaceChar(s, from, to)[0] == c;
    } else {
      ReplaceKeeps(s[1..], c, from, to);
      assert ReplaceChar(s, from, to)[1..] == ReplaceChar(s[1..], from, to);
    }
  }

  /** `chars` names, pattern by pattern, a character of the pattern that `s` does not have. */
  lemma {:induction false} NoPattern(s: string, chars: string, n: nat)
    requires n <= |PATTERNS| == |chars|
    requires forall i | 0 <= i < |PATTERNS| :: chars[i] in PATTERNS[i] && chars[i] != '-' && chars[i] !in s
    ensures !HasPattern(s, n)
  {
    hide Contains, ReplaceChar;
    if n > 0 {
      NoPattern(s, chars, n - 1);
      ReplaceKeeps(PATTERNS[n - 1], chars[n - 1], '-', '_');
      LacksCharacter(s, ReplaceChar(PATTERNS[n - 1], '-', '_'), chars[n - 1]);
    }
  }

  lemma NotSensitive(lib: Library, key: string, chars: string)
    requires FoldOk(lib) && Plain(key) && |PATTERNS| == |chars|
    requires forall i | 0 <= i < |PATTERNS| :: chars[i] in PATTERNS[i] && chars[i] != '-' && chars[i] !in key
    ensures !Sensitive(lib, key)
  {
    PlainIsNormalized(lib, key);
    NoPattern(key, chars, |PATTERNS|);
  }

  lemma SafeKey(lib: Library, key: string)
    requires FoldOk(lib) && key in SAFE_KEYS && Plain(key)
    ensures !Sensitive(lib, key)
  {
    PlainIsNormalized(lib, key);
  }

  lemma RedactedKey(lib: Library)
    requires FoldOk(lib)
    ensures !Sensitive(lib, "redacted") && PlainKey(lib, "redacted")
  {
    hide Sensitive, FoldOk;
    NotSensitive(lib, "redacted", "uossospppsfpninbwsqoffffbf");
  }

  lemma ReasonKey(lib: Library)
    requires FoldOk(lib)
    ensures !Sensitive(lib, "reason") && PlainKey(lib, "reason")
  {
    hide Sensitive, FoldOk;
    NotSensitive(lib, "reason", "uctttcpppcfpcccbwpqcffffbf");
  }

  lemma SafeUrlKey(lib: Library)
    requires FoldOk(lib)
    ensures !Sensitive(lib, "safe_url") && PlainKey(lib, "safe_url")
  {
    hide Sensitive, FoldOk;
    NotSensitive(lib, "safe_url", "tctttcpppchpccnbwpqciitibb");
  }

  lemma SafeHostKey(lib: Library)
    requires FoldOk(lib)
    ensures !Sensitive(lib, "safe_host") && PlainKey(lib, "safe_host")
  {
    hide Sensitive, FoldOk;
    NotSensitive(lib, "safe_host", "uccckcpppcrpccnbrrrciiuibu");
  }

  lemma SafePathDigestKey(lib: Library)
    requires FoldOk(lib)
    ensures !Sensitive(lib, "safe_path_digest") && PlainKey(lib, "safe_path_digest")
  {
    hide Sensitive, FoldOk;
    NotSensitive(lib, "safe_path_digest", "ucccocwkkcrrccnbrrrcllulbu");
  }

  lemma InputRedactedKey(lib: Library)
    requires FoldOk(lib)
    ensures !Sensitive(lib, "input_redacted") && PlainKey(lib, "input_redacted")
  {
    hide Sensitive, FoldOk;
    SafeKey(lib, "input_redacted");
  }

  lemma InputDigestSha256Key(lib: Library)
    requires FoldOk(lib)
    ensures !Sensitive(lib, "input_digest_sha256") && PlainKey(lib, "input_digest_sha256")
  {
    hide Sensitive, FoldOk;
    SafeKey(lib, "input_digest_sha256");
  }

  lemma InputBytesKey(lib: Library)
    requires FoldOk(lib)
    ensures !Sensitive(lib, "input_bytes") && PlainKey(lib, "input_bytes")
  {
    hide Sensitive, FoldOk;
    SafeKey(lib, "input_bytes");
  }

  lemma ContentDigestSha256Key(lib: Library)
    requires FoldOk(lib)
    ensures !Sensitive(lib, "content_digest_sha256") && PlainKey(lib, "content_digest_sha256")
  {
    hide Sensitive, FoldOk;
    SafeKey(lib, "content_digest_sha256");
  }

  lemma ContentBytesKey(lib: Library)
    requires FoldOk(lib)
    ensures !Sensitive(lib, "content_bytes") && PlainKey(lib, "content_bytes")
  {
    hide Sensitive, FoldOk;
    SafeKey(lib, "content_bytes");
  }

  lemma SafeSummaryKey(lib: Library)
    requires FoldOk(lib)
    ensures !Sensitive(lib, "safe_summary") && PlainKey(lib, "safe_summary")
  {
    hide Sensitive, FoldOk;
    SafeKey(lib, "safe_summary");
  }

  lemma RedactionPolicyVersionKey(lib: Library)
    requires FoldOk(lib)
    ensures !Sensitive(lib, "redaction_policy_version") && PlainKey(lib, "redaction_policy_version")
  {
    hide Sensitive, FoldOk;
    SafeKey(lib, "redaction_policy_version");
  }

  lemma SensitiveFieldsRedactedKey(lib: Library)
    requires FoldOk(lib)
    ensures !Sensitive(lib, "sensitive_fields_redacted") && PlainKey(lib, "sensitive_fields_redacted")
  {
    hide Sensitive, FoldOk;
    SafeKey(lib, "sensitive_fields_redacted");
  }

  lemma AllowedHeadersAreShort(key: string)
    requires key in ALLOWED_HEADERS
    ensures |key| <= 16
  {
  }

  /** A header named like the list of redacted names is replaced like any unknown header. */
  lemma ListHeaderRole(lib: Library)
    requires FoldOk(lib)
    ensures HeaderRoleOf(lib, REDACTED_FIELDS) == OtherHeader
  {
    hide Sensitive, Normalized;
    SensitiveFieldsRedactedKey(lib);
    PlainIsNormalized(lib, REDACTED_FIELDS);
    if REDACTED_FIELDS in ALLOWED_HEADERS { AllowedHeadersAreShort(REDACTED_FIELDS); }
  }

  lemma {:induction false} NothingReplaced(s: string, from: char, to: char)
    requires from !in s
    ensures ReplaceChar(s, from, to) == s
  {
    if s != "" { NothingReplaced(s[1..], from, to); }
  }

  lemma {:induction false} PatternAt(s: string, i: nat, n: nat)
    requires i < n <= |PATTERNS| && Contains(s, ReplaceChar(PATTERNS[i], '-', '_'))
    ensures HasPattern(s, n)
  {
    hide Contains, ReplaceChar;
    if i < n - 1 { PatternAt(s, i, n - 1); }
  }

  lemma SafeKeysAreLong(key: string)
    requires key in SAFE_KEYS
    ensures |key| >= 7
  {
  }

  lemma TokenIsSensitive(lib: Library)
    requires FoldOk(lib)
    ensures Sensitive(lib, "token")
  {
    hide FoldOk, HasPattern, Normalized;
    PlainIsNormalized(lib, "token");
    NothingReplaced("token", '-', '_');
    assert Contains("token", "token");
    assert PATTERNS[4] == "token";
    PatternAt("token", 4, |PATTERNS|);
    if "token" in SAFE_KEYS { SafeKeysAreLong("token"); }
  }

  lemma HeadersRole(lib: Library)
    requires FoldOk(lib)
    ensures RoleOf(lib, "headers") == HeadersLike && !Dropped(lib, "headers")
  {
    hide FoldOk, Sensitive, Normalized;
    NotSensitive(lib, "headers", "uctttcpppcfpccnbwpqcffffbf");
    PlainIsNormalized(lib, "headers");
    assert |"headers"| == 7 && |"path"| == 4 && |"url"| == 3 && |"ciphertext"| == 10 && |"nonce"| == 5;
  }
}
