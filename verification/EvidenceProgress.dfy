/**
  What a submitter gets: which evidence the row it is answered with holds, and that new
  evidence is stored.
 */
module EvidenceProgress {
  import opened Prelude
  import opened BatchIdentity
  import opened EvidenceEvents
  import opened EvidenceVerifier
  import opened EvidenceStream
  import opened EvidenceChain
  import opened EvidenceSafety
  import opened EvidenceTheorems

  // ---------------------------------------------------------------------------------
  // The row holds the submitter's own evidence
  // ---------------------------------------------------------------------------------

  /** How requests are decoded: the events are what the bytes parse to, the identity is computed from the bytes. */
  datatype Decoder = Decoder(sha: string -> string, keyId: string, parse: string -> Event)

  function Parsed(d: Decoder, docs: seq<string>): seq<Event> {
    seq(|docs|, i requires 0 <= i < |docs| => d.parse(docs[i]))
  }

  predicate DecodedBy(d: Decoder, identity: string, docs: seq<string>, events: seq<Event>) {
    identity == ContentHash(d.sha, d.keyId, docs) && events == Parsed(d, docs)
  }

  /** Every request of the run was decoded this way. */
  ghost predicate AllDecodedBy(d: Decoder, labels: seq<Label>) {
    forall l | l in labels && l.Begin? :: DecodedBy(d, l.sub.identity, l.sub.docs, l.sub.events)
  }

  ghost predicate Origins(d: Decoder, s: State) {
    && (forall b | b in s.tables.batches :: DecodedBy(d, b.identity, b.docs, b.content))
    && (forall w | w in s.submitters ::
          var sub := s.submitters[w].sub; DecodedBy(d, sub.identity, sub.docs, sub.events))
  }

  lemma OriginsStep(d: Decoder, ring: KeyRing, s: State, l: Label)
    requires Origins(d, s) && (l.Begin? ==> DecodedBy(d, l.sub.identity, l.sub.docs, l.sub.events))
    ensures Origins(d, Step(ring, s, l))
  {
    hide DecodedBy, Verdict, HeadAnswer, Admissible, Decoded;
  }

  lemma {:induction false} OriginsRun(d: Decoder, ring: KeyRing, labels: seq<Label>)
    requires AllDecodedBy(d, labels)
    ensures Origins(d, Run(ring, INITIAL, labels))
  {
    if labels != [] {
      hide DecodedBy, Step, Origins;
      var last := |labels| - 1;
      assert forall l | l in labels[..last] :: l in labels;
      OriginsRun(d, ring, labels[..last]);
      OriginsStep(d, ring, Run(ring, INITIAL, labels[..last]), labels[last]);
    }
  }

  /**
    A submitter that is told its evidence was accepted, as new or as known, is given a row
    that holds its own evidence, byte for byte; the only way out is a collision between
    two texts that were hashed for the two.
   */
  lemma AnsweredWithOwnEvidence(d: Decoder, ring: KeyRing, labels: seq<Label>, who: nat)
    requires AllDecodedBy(d, labels) && |d.keyId| == KEY_ID_LENGTH && forall x :: |d.sha(x)| == HASH_LENGTH
    requires
      var subs := Run(ring, INITIAL, labels).submitters;
      who in subs && subs[who].Done? && subs[who].reply.Accepted?
    ensures
      var s := Run(ring, INITIAL, labels);
      var sub, row := s.submitters[who].sub, s.submitters[who].reply.row;
      && row < |s.tables.batches|
      && var b := s.tables.batches[row];
         (b.docs == sub.docs && b.content == sub.events) || BatchesCollide(d.sha, d.keyId, b.docs, d.keyId, sub.docs)
  {
    OriginsRun(d, ring, labels);
    hide TablesOk, Decoded, Anchored, AnswersHold, ContentHash, BatchesCollide, Run;
    ReachableInv(ring, labels);
    var s := Run(ring, INITIAL, labels);
    var sub, row := s.submitters[who].sub, s.submitters[who].reply.row;
    var b := s.tables.batches[row];
    assert b in s.tables.batches;
    IdentityIsInjective(d.sha, d.keyId, b.docs, d.keyId, sub.docs);
  }

  /** Two accepted submitters sent the same bytes exactly when they were given one row, unless hashed texts collide. */
  lemma SameEvidenceSameRow(d: Decoder, ring: KeyRing, labels: seq<Label>, a: nat, b: nat)
    requires AllDecodedBy(d, labels) && |d.keyId| == KEY_ID_LENGTH && forall x :: |d.sha(x)| == HASH_LENGTH
    requires
      var subs := Run(ring, INITIAL, labels).submitters;
      a in subs && b in subs && subs[a].Done? && subs[b].Done? && subs[a].reply.Accepted? && subs[b].reply.Accepted?
    ensures
      var subs := Run(ring, INITIAL, labels).submitters;
      && (subs[a].sub.docs == subs[b].sub.docs ==> subs[a].reply.row == subs[b].reply.row)
      && (subs[a].reply.row == subs[b].reply.row ==>
            subs[a].sub.docs == subs[b].sub.docs
            || BatchesCollide(d.sha, d.keyId, subs[a].sub.docs, d.keyId, subs[b].sub.docs))
  {
    OriginsRun(d, ring, labels);
    SameIdentitySameRow(ring, labels, a, b);
    hide ContentHash, BatchesCollide, Run;
    var subs := Run(ring, INITIAL, labels).submitters;
    if subs[a].reply.row == subs[b].reply.row {
      IdentityIsInjective(d.sha, d.keyId, subs[a].sub.docs, d.keyId, subs[b].sub.docs);
    }
  }

  // ---------------------------------------------------------------------------------
  // New evidence is stored
  // ---------------------------------------------------------------------------------

  function Lookups(who: nat, answers: seq<Answer>): seq<Label> {
    if answers == [] then []
    else Lookups(who, answers[..|answers| - 1]) + [Lookup(who, answers[|answers| - 1])]
  }

  /** The steps of one submitter, with nothing in between. */
  function Submit(who: nat, sub: Submission, answers: seq<Answer>): seq<Label> {
    [Begin(who, sub)] + [LookUp(who)] + [ReadHead(who, sub.firstPrev)] + Lookups(who, answers) + [Insert(who)]
  }

  /** What the store may answer, without failing. */
  ghost predicate Answers(events: map<Value, EventRow>, es: seq<Event>, answers: seq<Answer>) {
    |answers| <= |es| &&
    forall i | 0 <= i < |answers| :: Admissible(events, Reference(es[i]), answers[i]) && !answers[i].DbError?
  }

  lemma {:induction false} AnswersExist(events: map<Value, EventRow>, es: seq<Event>, n: nat) returns (answers: seq<Answer>)
    requires n <= |es|
    ensures |answers| == n && Answers(events, es, answers)
  {
    if n == 0 {
      answers := [];
    } else {
      answers := AnswersExist(events, es, n - 1);
      var id := Reference(es[n - 1]);
      if d :| StoredDecision(events, id, d) {
        assert Admissible(events, id, Found(d));
        answers := answers + [Found(d)];
      } else {
        assert Admissible(events, id, NoRows);
        answers := answers + [NoRows];
      }
    }
  }

  lemma {:induction false} RunConcat(ring: KeyRing, s: State, a: seq<Label>, b: seq<Label>)
    ensures Run(ring, s, a + b) == Run(ring, Run(ring, s, a), b)
    decreases |b|
  {
    hide Step;
    if b == [] {
      assert a + b == a;
    } else {
      assert (a + b)[..|a + b| - 1] == a + b[..|b| - 1];
      RunConcat(ring, s, a, b[..|b| - 1]);
    }
  }

  lemma RunOne(ring: KeyRing, s: State, l: Label)
    ensures Run(ring, s, [l]) == Step(ring, s, l)
  {
    hide Step;
    assert [l][..0] == [];
  }

  /** The end of the chain is an answer of the head query, and no batch continues there. */
  lemma EndIsFree(batches: seq<Batch>)
    requires Unforked(Chain(batches))
    ensures
      var end := HeadBefore(Chain(batches), |Chain(batches)|);
      HeadAnswer(batches, end) && !Extended(batches, end)
  {
    OneHead(batches);
    if Chain(batches) != [] {
      LastIsTerminal(batches);
    } else {
      forall n | 0 <= n < |batches| ensures !batches[n].verified {
        if batches[n].verified { ChainMember(batches, batches[n]); }
      }
    }
  }

  lemma {:induction false} LookupsRun(ring: KeyRing, s: State, who: nat, sub: Submission, answers: seq<Answer>)
    requires who in s.submitters && s.submitters[who] == Verifying(sub, [])
    requires Answers(s.tables.events, sub.events, answers)
    ensures
      var s' := Run(ring, s, Lookups(who, answers));
      who in s'.submitters && s'.tables == s.tables && s'.submitters[who] == Verifying(sub, answers)
    decreases |answers|
  {
    hide Admissible;
    if answers != [] {
      var last := |answers| - 1;
      LookupsRun(ring, s, who, sub, answers[..last]);
      RunConcat(ring, s, Lookups(who, answers[..last]), [Lookup(who, answers[last])]);
      RunOne(ring, Run(ring, s, Lookups(who, answers[..last])), Lookup(who, answers[last]));
      assert answers[..last] + [answers[last]] == answers;
    }
  }

  /** Evidence unlike all that is stored, that claims to continue the stream, under the stream's key. */
  ghost predicate Fit(t: Tables, sub: Submission) {
    && Decoded(sub)
    && (forall b | b in t.batches :: b.identity != sub.identity)
    && (t.key.Some? ==> t.key.value == sub.fingerprint)
    && sub.firstPrev == HeadBefore(Chain(t.batches), |Chain(t.batches)|)
  }

  lemma ReadsAlone(ring: KeyRing, s: State, who: nat, sub: Submission)
    requires who !in s.submitters && Fit(s.tables, sub) && Unforked(Chain(s.tables.batches))
    ensures
      var s' := Run(ring, s, [Begin(who, sub)] + [LookUp(who)] + [ReadHead(who, sub.firstPrev)]);
      who in s'.submitters && s'.tables == s.tables && s'.submitters[who] == Verifying(sub, [])
  {
    EndIsFree(s.tables.batches);
    hide Unforked, Decoded, HeadAnswer, Extended, Run;
    var begin, look, read := Begin(who, sub), LookUp(who), ReadHead(who, sub.firstPrev);
    var s1 := Step(ring, s, begin);
    var s2 := Step(ring, s1, look);
    RunOne(ring, s, begin);
    RunOne(ring, s1, look);
    RunOne(ring, s2, read);
    RunConcat(ring, s, [begin], [look]);
    RunConcat(ring, s, [begin] + [look], [read]);
    assert FindContent(s.tables.batches, sub.identity).None?;
  }

  /** The batch that storing such evidence appends. */
  function NewRow(ring: KeyRing, sub: Submission, answers: seq<Answer>): Batch
    requires Decoded(sub) && |answers| == |sub.events|
    requires !Verdict(ring(sub.fingerprint), sub.events, sub.firstPrev, answers).LookupFailed?
  {
    VerdictHasRecords(ring(sub.fingerprint), sub, answers);
    match Verdict(ring(sub.fingerprint), sub.events, sub.firstPrev, answers)
    case Verified(records) => VerifiedRow(sub, records)
    case Rejected(issues) => RejectedRow(sub, issues)
  }

  lemma NoLookupFails(ring: KeyRing, sub: Submission, answers: seq<Answer>)
    requires |answers| == |sub.events| && forall i | 0 <= i < |answers| :: !answers[i].DbError?
    ensures !Verdict(ring(sub.fingerprint), sub.events, sub.firstPrev, answers).LookupFailed?
  {
    assert true !in Failures(sub.events, answers);
  }

  lemma PersistsAlone(ring: KeyRing, t: Tables, sub: Submission, answers: seq<Answer>)
    requires Fit(t, sub) && Unforked(Chain(t.batches)) && |answers| == |sub.events|
    requires !Verdict(ring(sub.fingerprint), sub.events, sub.firstPrev, answers).LookupFailed?
    ensures
      var (t', stored) := InsertStep(ring, t, sub, answers);
      stored == Created(|t.batches|) && t'.batches == t.batches + [NewRow(ring, sub, answers)]
  {
    EndIsFree(t.batches);
    hide Unforked, HeadAnswer, Extended, Verdict, InsertEvents;
    VerdictHasRecords(ring(sub.fingerprint), sub, answers);
    assert FindContent(t.batches, sub.identity).None?;
  }

  /** The row is verified exactly if the batch is sound, and then it is the new end of the chain. */
  lemma NewRowIs(ring: KeyRing, t: Tables, sub: Submission, answers: seq<Answer>)
    requires Decoded(sub) && |answers| == |sub.events|
    requires !Verdict(ring(sub.fingerprint), sub.events, sub.firstPrev, answers).LookupFailed?
    ensures
      var row := NewRow(ring, sub, answers);
      var chain := Chain(t.batches + [row]);
      && row.identity == sub.identity && row.docs == sub.docs && row.content == sub.events
      && (row.verified <==> BatchVerified(ring(sub.fingerprint), sub.events, sub.firstPrev, answers))
      && (row.verified ==> HeadBefore(chain, |chain|) == row.head == Some(HashOf(sub.events[|sub.events| - 1])))
      && (!row.verified ==> chain == Chain(t.batches) && 1 <= |row.issues| <= 20)
  {
    hide Decoded, BatchVerified, Verdict;
    assert sub.events != [] by { assert Decoded(sub); NotEmpty(sub); }
    VerdictHasRecords(ring(sub.fingerprint), sub, answers);
    VerifiedIff(ring(sub.fingerprint), sub.events, sub.firstPrev, answers);
    LastRecord(sub.events);
    ChainSnoc(t.batches, NewRow(ring, sub, answers));
    if Verdict(ring(sub.fingerprint), sub.events, sub.firstPrev, answers).Rejected? {
      RejectedIssues(ring(sub.fingerprint), sub.events, sub.firstPrev, answers);
    }
  }

  lemma NotEmpty(sub: Submission)
    requires Decoded(sub)
    ensures sub.events != []
  {
  }

  /**
    New evidence is stored: from every reachable state, a submitter with evidence unlike
    all that is stored, under the stream's key and claiming to continue at its head, that
    takes its steps without interruption is answered with a new row.  The row is verified
    exactly if the batch is sound; it then becomes the head of the stream, and otherwise
    leaves the chain alone and says what is wrong.  A rejected batch thus never stands in
    the way of a corrected one.
   */
  lemma NewEvidenceIsStored(ring: KeyRing, labels: seq<Label>, who: nat, sub: Submission, answers: seq<Answer>)
    requires
      var s := Run(ring, INITIAL, labels);
      && who !in s.submitters && Fit(s.tables, sub)
      && |answers| == |sub.events| && Answers(s.tables.events, sub.events, answers)
    ensures
      var s := Run(ring, INITIAL, labels);
      var s' := Run(ring, s, Submit(who, sub, answers));
      var n := |s.tables.batches|;
      && |s'.tables.batches| == n + 1 && s'.tables.batches[..n] == s.tables.batches
      && who in s'.submitters && s'.submitters[who] == Done(sub, Accepted(n, true))
      && var row, chain := s'.tables.batches[n], Chain(s'.tables.batches);
         && row.docs == sub.docs && row.content == sub.events
         && (row.verified <==> BatchVerified(ring(sub.fingerprint), sub.events, sub.firstPrev, answers))
         && (row.verified ==> HeadBefore(chain, |chain|) == row.head == Some(HashOf(sub.events[|sub.events| - 1])))
         && (!row.verified ==> chain == Chain(s.tables.batches) && 1 <= |row.issues| <= 20)
  {
    var s := Run(ring, INITIAL, labels);
    assert Unforked(Chain(s.tables.batches)) by { ReachableInv(ring, labels); }
    assert forall i | 0 <= i < |answers| :: !answers[i].DbError?;
    NoLookupFails(ring, sub, answers);
    hide Run, Step, Chain, Unforked, Fit, BatchVerified, Verdict, NewRow, Lookups, Answers;
    var prelude := [Begin(who, sub)] + [LookUp(who)] + [ReadHead(who, sub.firstPrev)];
    ReadsAlone(ring, s, who, sub);
    var s1 := Run(ring, s, prelude);
    LookupsRun(ring, s1, who, sub, answers);
    var s2 := Run(ring, s1, Lookups(who, answers));
    InsertsAlone(ring, s2, who, sub, answers);
    RunConcat(ring, s, prelude, Lookups(who, answers));
    RunConcat(ring, s, prelude + Lookups(who, answers), [Insert(who)]);
    RunOne(ring, s2, Insert(who));
    FitIsDecoded(s.tables, sub);
    NewRowIs(ring, s.tables, sub, answers);
  }

  lemma FitIsDecoded(t: Tables, sub: Submission)
    requires Fit(t, sub)
    ensures Decoded(sub)
  {
  }

  lemma InsertsAlone(ring: KeyRing, s: State, who: nat, sub: Submission, answers: seq<Answer>)
    requires who in s.submitters && s.submitters[who] == Verifying(sub, answers)
    requires Fit(s.tables, sub) && Unforked(Chain(s.tables.batches)) && |answers| == |sub.events|
    requires !Verdict(ring(sub.fingerprint), sub.events, sub.firstPrev, answers).LookupFailed?
    ensures
      var s', n := Step(ring, s, Insert(who)), |s.tables.batches|;
      && s'.tables.batches == s.tables.batches + [NewRow(ring, sub, answers)]
      && s'.tables.batches[..n] == s.tables.batches
      && who in s'.submitters && s'.submitters[who] == Done(sub, Accepted(n, true))
  {
    PersistsAlone(ring, s.tables, sub, answers);
    hide Unforked, Chain, Verdict, NewRow, InsertStep;
    assert (s.tables.batches + [NewRow(ring, sub, answers)])[..|s.tables.batches|] == s.tables.batches;
  }
}
