/**
  The identity of a batch: a hash over the key id and the hashes of the submitted bytes
  of each event (`evidenceContentHash`, and the loop in `decodeEvidenceSubmission` that
  builds its manifest).  Nothing is assumed of the hash function but the length of its
  output, so two batches with one identity either are the same or exhibit a collision.
 */
module BatchIdentity {
  const PREFIX := "igris-evidence-batch:v1:"
  const HASH_LENGTH := 64
  const KEY_ID_LENGTH := 24 // "ed25519:" and 16 hex digits

  /** Strings separated by commas. */
  function Join(parts: seq<string>): string {
    if |parts| == 0 then ""
    else if |parts| == 1 then parts[0]
    else parts[0] + "," + Join(parts[1..])
  }

  /** The parts of a list of fixed-length strings separated by one character. */
  function Split(s: string): seq<string> {
    if |s| < HASH_LENGTH then []
    else if |s| == HASH_LENGTH then [s]
    else [s[..HASH_LENGTH]] + Split(s[HASH_LENGTH + 1..])
  }

  lemma {:induction false} SplitJoin(parts: seq<string>)
    requires forall i | 0 <= i < |parts| :: |parts[i]| == HASH_LENGTH
    ensures Split(Join(parts)) == parts
  {
    if |parts| > 1 {
      var rest := Join(parts[1..]);
      SplitJoin(parts[1..]);
      var joined := Join(parts);
      assert joined[..HASH_LENGTH] == parts[0];
      assert joined[HASH_LENGTH + 1..] == rest;
      assert |parts| > 1 ==> |joined| > HASH_LENGTH;
    }
  }

  /** The text that is hashed. */
  function Manifest(keyId: string, hashes: seq<string>): string {
    PREFIX + keyId + ":" + Join(hashes)
  }

  /** The layout of the text, on three hashes. */
  lemma ManifestLayout(keyId: string, a: string, b: string, c: string)
    ensures Manifest(keyId, [a, b, c]) == "igris-evidence-batch:v1:" + keyId + ":" + (a + "," + (b + "," + c))
  {
    assert [a, b, c][1..] == [b, c] && [b, c][1..] == [c];
    assert Join([c]) == c && Join([b, c]) == b + "," + c;
  }

  /** The key id and the hashes can be read back from the text that is hashed. */
  lemma ManifestDecodes(keyId: string, hashes: seq<string>)
    requires |keyId| == KEY_ID_LENGTH
    requires forall i | 0 <= i < |hashes| :: |hashes[i]| == HASH_LENGTH
    ensures
      var m := Manifest(keyId, hashes);
      var start := |PREFIX|;
      && |m| > start + KEY_ID_LENGTH
      && m[start..start + KEY_ID_LENGTH] == keyId
      && Split(m[start + KEY_ID_LENGTH + 1..]) == hashes
  {
    var m := Manifest(keyId, hashes);
    var start := |PREFIX|;
    assert m[start..start + KEY_ID_LENGTH] == keyId;
    assert m[start + KEY_ID_LENGTH + 1..] == Join(hashes);
    SplitJoin(hashes);
  }

  function Hashes(sha: string -> string, docs: seq<string>): seq<string> {
    seq(|docs|, i requires 0 <= i < |docs| => sha(docs[i]))
  }

  /** The identity of the batch with these submitted event bytes. */
  function ContentHash(sha: string -> string, keyId: string, docs: seq<string>): string {
    sha(Manifest(keyId, Hashes(sha, docs)))
  }

  method ComputeContentHash(sha: string -> string, keyId: string, docs: seq<string>) returns (content: string)
    ensures content == ContentHash(sha, keyId, docs)
  {
    var hashes: seq<string> := [];
    for i := 0 to |docs|
      invariant hashes == Hashes(sha, docs)[..i]
    {
      hashes := hashes + [sha(docs[i])];
    }
    assert Hashes(sha, docs)[..|docs|] == Hashes(sha, docs);
    content := sha(Manifest(keyId, hashes));
  }

  /** Two different texts with one hash. */
  predicate Collides(sha: string -> string, x: string, y: string) { x != y && sha(x) == sha(y) }

  /** Among the texts that are hashed for two batches, a pair collides: the two manifests, or two events in one place. */
  ghost predicate BatchesCollide(sha: string -> string, keyId: string, docs: seq<string>, keyId': string, docs': seq<string>) {
    || Collides(sha, Manifest(keyId, Hashes(sha, docs)), Manifest(keyId', Hashes(sha, docs')))
    || (|docs| == |docs'| && exists i | 0 <= i < |docs| :: Collides(sha, docs[i], docs'[i]))
  }

  /**
    Equal identities mean the same key and the same events, byte for byte and in order,
    unless two of the very texts that were hashed collide.
   */
  lemma IdentityIsInjective(sha: string -> string, keyId: string, docs: seq<string>, keyId': string, docs': seq<string>)
    requires forall x :: |sha(x)| == HASH_LENGTH
    requires |keyId| == |keyId'| == KEY_ID_LENGTH
    requires ContentHash(sha, keyId, docs) == ContentHash(sha, keyId', docs')
    ensures (keyId == keyId' && docs == docs') || BatchesCollide(sha, keyId, docs, keyId', docs')
  {
    var hashes, hashes' := Hashes(sha, docs), Hashes(sha, docs');
    if Manifest(keyId, hashes) == Manifest(keyId', hashes') {
      ManifestDecodes(keyId, hashes);
      ManifestDecodes(keyId', hashes');
      assert hashes == hashes';
      if docs != docs' {
        var i :| 0 <= i < |docs| && docs[i] != docs'[i];
        assert sha(docs[i]) == hashes[i] == hashes'[i] == sha(docs'[i]);
        assert Collides(sha, docs[i], docs'[i]);
      }
    }
  }

  /** The other way round: a collision in the same place really is two batches with one identity. */
  lemma CollidingEventsShareAnIdentity(sha: string -> string, keyId: string, x: string, y: string)
    requires Collides(sha, x, y)
    ensures ContentHash(sha, keyId, [x]) == ContentHash(sha, keyId, [y])
  {
    assert Hashes(sha, [x]) == Hashes(sha, [y]);
  }
}
