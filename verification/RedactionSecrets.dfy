/**
  Which keys are sensitive, word by word: a key that names a secret and is not one of the
  keys of redaction metadata.
 */
module RedactionSecrets {
  import opened Text
  import opened Redaction
  import opened RedactionKeys

  predicate NamesASecret(text: string) {
    || Contains(text, "authorization") || Contains(text, "cookie") || Contains(text, "token")
    || Contains(text, "secret") || Contains(text, "password") || Contains(text, "api_key")
    || Contains(text, "apikey") || Contains(text, "access_key") || Contains(text, "private_key")
    || Contains(text, "credential") || Contains(text, "ciphertext") || Contains(text, "nonce")
    || Contains(text, "body") || Contains(text, "content") || Contains(text, "full_text")
    || Contains(text, "file_path") || Contains(text, "absolute_path")
  }

  predicate IsMetadata(text: string) {
    || text == "content_redacted" || text == "content_digest"
    || text == "content_digest_sha256" || text == "content_bytes"
    || text == "content_type" || text == "input_redacted"
    || text == "input_digest_sha256" || text == "input_bytes"
    || text == "input_content_type" || text == "encrypted_input_ref"
    || text == "encrypted_input_ref_id" || text == "purpose"
    || text == "key_version" || text == "created_at"
    || text == "expires_at" || text == "safe_summary"
    || text == "sensitive_fields_redacted" || text == "redaction_policy_version"
    || text == "local_auth_secret_env"
  }

  /** The key names a secret, in any letter case and with dashes for underscores. */
  predicate Secret(lib: Library, key: string) {
    NamesASecret(Normalized(lib, key)) && !IsMetadata(Normalized(lib, key))
  }

  lemma NormalizedAt(lib: Library, key: string, i: nat)
    requires i < |key|
    ensures |Normalized(lib, key)| == |key|
    ensures Normalized(lib, key)[i] == if lib.fold(key[i]) == '-' then '_' else lib.fold(key[i])
  {
    LowerAt(lib.fold, key, i);
    ReplacedAt(Lower(lib.fold, key), '-', '_', i);
  }

  lemma MetadataIs(text: string)
    ensures text in SAFE_KEYS <==> IsMetadata(text)
  {
  }

  /** Patterns other than the one with a dash are looked for as they are. */
  lemma Dashless(i: nat)
    requires i < |PATTERNS| && i != 3
    ensures ReplaceChar(PATTERNS[i], '-', '_') == PATTERNS[i]
  {
    NothingReplaced(PATTERNS[i], '-', '_');
  }

  lemma DashBecomesUnderscore()
    ensures ReplaceChar("set-cookie", '-', '_') == "set_cookie"
  {
    assert "set-cookie" == "set" + ("-" + "cookie") && "set" + ("_" + "cookie") == "set_cookie";
    ReplacedConcat("set", "-" + "cookie", '-', '_');
    ReplacedConcat("-", "cookie", '-', '_');
    NothingReplaced("set", '-', '_');
    NothingReplaced("cookie", '-', '_');
    assert ReplaceChar("-", '-', '_') == "_";
  }

  lemma DashedPattern()
    ensures ReplaceChar(PATTERNS[3], '-', '_') == "set_cookie"
  {
    hide ReplaceChar;
    DashBecomesUnderscore();
    assert PATTERNS[3] == "set-cookie";
  }

  lemma WordIsPattern(text: string, i: nat)
    requires i < |PATTERNS| && i != 3 && Contains(text, PATTERNS[i])
    ensures HasPattern(text, |PATTERNS|)
  {
    hide Contains, ReplaceChar, HasPattern;
    Dashless(i);
    PatternAt(text, i, |PATTERNS|);
  }

  lemma SecretHasPattern(text: string)
    requires NamesASecret(text)
    ensures HasPattern(text, |PATTERNS|)
  {
    hide Contains, HasPattern;
    if Contains(text, "authorization") {
      WordIsPattern(text, 0);
    } else if Contains(text, "cookie") {
      WordIsPattern(text, 1);
    } else if Contains(text, "token") {
      WordIsPattern(text, 4);
    } else if Contains(text, "secret") {
      WordIsPattern(text, 5);
    } else if Contains(text, "password") {
      WordIsPattern(text, 6);
    } else if Contains(text, "api_key") {
      WordIsPattern(text, 7);
    } else if Contains(text, "apikey") {
      WordIsPattern(text, 8);
    } else if Contains(text, "access_key") {
      WordIsPattern(text, 9);
    } else if Contains(text, "private_key") {
      WordIsPattern(text, 11);
    } else if Contains(text, "credential") {
      WordIsPattern(text, 12);
    } else if Contains(text, "ciphertext") {
      WordIsPattern(text, 13);
    } else if Contains(text, "nonce") {
      WordIsPattern(text, 14);
    } else if Contains(text, "body") {
      WordIsPattern(text, 15);
    } else if Contains(text, "content") {
      WordIsPattern(text, 19);
    } else if Contains(text, "full_text") {
      WordIsPattern(text, 22);
    } else if Contains(text, "file_path") {
      WordIsPattern(text, 23);
    } else if Contains(text, "absolute_path") {
      WordIsPattern(text, 24);
    }
  }

  /** Text with a pattern names a secret: patterns are secret words, or longer words with one in them. */
  lemma PatternNames(text: string, i: nat)
    requires i < |PATTERNS| && Contains(text, ReplaceChar(PATTERNS[i], '-', '_'))
    ensures NamesASecret(text)
  {
    hide Contains, ReplaceChar;
    if i == 3 {
      DashedPattern();
      assert "set_" + "cookie" + "" == "set_cookie";
      ContainsPart(text, "set_", "cookie", "");
    } else {
      Dashless(i);
      if i == 2 {
        assert "set_" + "cookie" + "" == "set_cookie";
        ContainsPart(text, "set_", "cookie", "");
      } else if i == 10 {
        assert "refresh_" + "token" + "" == "refresh_token";
        ContainsPart(text, "refresh_", "token", "");
      } else if i == 16 {
        assert "raw_" + "body" + "" == "raw_body";
        ContainsPart(text, "raw_", "body", "");
      } else if i == 17 {
        assert "response_" + "body" + "" == "response_body";
        ContainsPart(text, "response_", "body", "");
      } else if i == 18 {
        assert "request_" + "body" + "" == "request_body";
        ContainsPart(text, "request_", "body", "");
      } else if i == 20 {
        assert "file_" + "content" + "" == "file_content";
        ContainsPart(text, "file_", "content", "");
      } else if i == 21 {
        assert "file_" + "content" + "s" == "file_contents";
        ContainsPart(text, "file_", "content", "s");
      } else if i == 25 {
        assert "full_" + "absolute_path" + "" == "full_absolute_path";
        ContainsPart(text, "full_", "absolute_path", "");
      }
    }
  }

  lemma {:induction false} PatternIsSecret(text: string, n: nat)
    requires n <= |PATTERNS| && HasPattern(text, n)
    ensures NamesASecret(text)
  {
    hide Contains, ReplaceChar, NamesASecret;
    if HasPattern(text, n - 1) {
      PatternIsSecret(text, n - 1);
    } else {
      PatternNames(text, n - 1);
    }
  }

  /** A key is sensitive exactly if it names a secret and is no metadata. */
  lemma SensitiveIff(lib: Library, key: string)
    ensures Sensitive(lib, key) <==> Secret(lib, key)
  {
    hide Contains, HasPattern, NamesASecret, IsMetadata, Normalized;
    var text := Normalized(lib, key);
    MetadataIs(text);
    if NamesASecret(text) { SecretHasPattern(text); }
    if HasPattern(text, |PATTERNS|) { PatternIsSecret(text, |PATTERNS|); }
  }

  /** How an object treats a key: hidden if it names a secret, else by what it says. */
  lemma RoleIs(lib: Library, key: string)
    ensures RoleOf(lib, key).Hidden? <==> Secret(lib, key)
    ensures !Secret(lib, key) && Normalized(lib, key) != "path" && Normalized(lib, key) != "url" && Normalized(lib, key) != "headers"
            ==> RoleOf(lib, key).Ordinary?
  {
    hide Sensitive, Secret, Normalized;
    SensitiveIff(lib, key);
  }

  /** Keys that are left out altogether name secrets. */
  lemma DroppedIsSecret(lib: Library, key: string)
    requires Dropped(lib, key)
    ensures Secret(lib, key)
  {
    var text := Normalized(lib, key);
    hide Normalized;
    assert Contains("ciphertext", "ciphertext") && Contains("nonce", "nonce");
    assert |text| == 10 || |text| == 5;
  }

  /** The headers that may be shown: seven names, unless they name a secret. */
  lemma AllowedHeaderIff(lib: Library, key: string)
    ensures HeaderRoleOf(lib, key).AllowedHeader? <==>
      && !Secret(lib, key)
      && var text := Normalized(lib, key);
         || text == "content_type" || text == "content_length" || text == "etag" || text == "last_modified"
         || text == "cache_control" || text == "x_request_id" || text == "x_correlation_id"
  {
    hide Sensitive, Secret, Normalized;
    SensitiveIff(lib, key);
  }

  lemma ContentLengthIsSecret(lib: Library, key: string)
    requires Normalized(lib, key) == "content_length"
    ensures Secret(lib, key)
  {
    hide Normalized;
    SplitContains("", "content", "_length");
    assert "" + "content" + "_length" == "content_length";
    hide Contains;
    assert |"content_length"| == 14 && |"content_digest"| == 14 && "content_length"[8] != "content_digest"[8];
    assert |"input_redacted"| == 14 && "content_length"[0] != "input_redacted"[0];
  }

  /** One of the seven does: a content length is hidden like any content. */
  lemma ContentLengthIsHidden(lib: Library, key: string)
    requires Normalized(lib, key) == "content_length"
    ensures HeaderRoleOf(lib, key).HiddenHeader?
  {
    hide Sensitive, Normalized, Secret;
    ContentLengthIsSecret(lib, key);
    SensitiveIff(lib, key);
  }
}
