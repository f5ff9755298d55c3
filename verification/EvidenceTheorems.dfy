/**
  The guarantees of evidence ingestion, for every run of any number of submitters on one
  stream, whatever the interleaving.
 */
module EvidenceTheorems {
  import opened Prelude
  import opened EvidenceEvents
  import opened EvidenceVerifier
  import opened EvidenceStream
  import opened EvidenceChain
  import opened EvidenceSafety

  // ---------------------------------------------------------------------------------
  // Every step keeps the invariant
  // ---------------------------------------------------------------------------------

  lemma GrowsSubmitter(t: Tables, t': Tables, p: Submitter)
    requires Grows(t, t') && SubmitterOk(t, p)
    ensures SubmitterOk(t', p)
  {
    if p.Verifying? {
      if p.sub.firstPrev.Some? {
        var b :| b in t.batches && b.verified && b.head == p.sub.firstPrev;
        assert b in t'.batches;
      }
      forall i | 0 <= i < |p.answers| && p.answers[i].Found?
        ensures StoredDecision(t'.events, Reference(p.sub.events[i]), p.answers[i].decision)
      {
        StoredDecisionGrows(t, t', Reference(p.sub.events[i]), p.answers[i].decision);
      }
    }
  }

  lemma StoredDecisionGrows(t: Tables, t': Tables, id: Value, d: Value)
    requires Grows(t, t') && StoredDecision(t.events, id, d)
    ensures StoredDecision(t'.events, id, d)
  {
    var h :| h in t.events && IsDecision(t.events[h].event)
          && Get(t.events[h].event, EventId) == id && Get(t.events[h].event, Decision) == d;
    assert t'.events[h] == t.events[h];
  }

  /** The tables are in order, only grew, and the answer is a row with this identity. */
  ghost predicate PersistedWell(ring: KeyRing, t: Tables, sub: Submission, r: (Tables, Stored)) {
    && TablesOk(ring, r.0)
    && Grows(t, r.0)
    && (r.1.Created? || r.1.Replayed? ==> r.1.row < |r.0.batches| && r.0.batches[r.1.row].identity == sub.identity)
  }

  lemma PersistVerifiedOk(ring: KeyRing, t: Tables, sub: Submission, answers: seq<Answer>)
    requires TablesOk(ring, t) && sub.events != [] && |answers| == |sub.events|
    requires Anchored(t.batches, sub.firstPrev) && AnswersHold(t, sub.events, answers)
    requires BatchVerified(ring(sub.fingerprint), sub.events, sub.firstPrev, answers)
    ensures PersistedWell(ring, t, sub, Persist(t, sub, Verified(Records(sub.events))))
  {
    hide TablesOk, BatchVerified, Anchored, AnswersHold;
    var (t', stored) := Persist(t, sub, Verified(Records(sub.events)));
    if stored.Created? {
      VerifiedInsert(ring, t, sub, answers, t');
      InsertGrows(t, sub, t');
    }
  }

  lemma InsertGrows(t: Tables, sub: Submission, t': Tables)
    requires Inserted(t, sub, t') && (t.key.Some? ==> t.key.value == sub.fingerprint)
    ensures Grows(t, t')
  {
    forall h | h in t.events ensures h in t'.events && t'.events[h] == t.events[h] {
      InsertEventsKeeps(t.events, Records(sub.events), |t.batches|, h);
    }
  }

  lemma PersistRejectedOk(ring: KeyRing, t: Tables, sub: Submission, issues: seq<Issue>)
    requires TablesOk(ring, t) && 1 <= |issues| <= 20
    ensures PersistedWell(ring, t, sub, Persist(t, sub, Rejected(issues)))
  {
    hide TablesOk;
    if FindContent(t.batches, sub.identity).None? {
      RejectedInsert(ring, t, sub, issues, Persist(t, sub, Rejected(issues)).0);
    }
  }

  /** The insert transaction keeps the tables in order whatever the verdict. */
  lemma PersistOk(ring: KeyRing, t: Tables, sub: Submission, answers: seq<Answer>, outcome: Outcome)
    requires TablesOk(ring, t) && Decoded(sub) && |answers| == |sub.events|
    requires Anchored(t.batches, sub.firstPrev) && AnswersHold(t, sub.events, answers)
    requires outcome == Verdict(ring(sub.fingerprint), sub.events, sub.firstPrev, answers)
    ensures outcome.Verified? ==> outcome.records != []
    ensures PersistedWell(ring, t, sub, Persist(t, sub, outcome))
  {
    hide TablesOk, BatchVerified, Anchored, AnswersHold, Verdict, Decoded;
    var v := ring(sub.fingerprint);
    VerdictHasRecords(v, sub, answers);
    match outcome
    case Verified(_) =>
      VerifiedIff(v, sub.events, sub.firstPrev, answers);
      PersistVerifiedOk(ring, t, sub, answers);
    case Rejected(issues) =>
      RejectedIssues(v, sub.events, sub.firstPrev, answers);
      PersistRejectedOk(ring, t, sub, issues);
    case LookupFailed =>
  }

  lemma HeadIsAnchored(batches: seq<Batch>, head: Option<Value>)
    requires HeadAnswer(batches, head)
    ensures Anchored(batches, head)
  {
    if head.Some? {
      var b :| 0 <= b < |batches| && batches[b].verified && batches[b].head == head;
      assert batches[b] in batches;
    }
  }

  lemma AnswersHoldSnoc(t: Tables, events: seq<Event>, answers: seq<Answer>, a: Answer)
    requires AnswersHold(t, events, answers) && |answers| < |events|
    requires a.Found? ==> StoredDecision(t.events, Reference(events[|answers|]), a.decision)
    ensures AnswersHold(t, events, answers + [a])
  {
  }

  lemma ReadStepOk(t: Tables, p: Submitter, l: Label)
    requires SubmitterOk(t, p) && !l.Begin? && !l.Insert?
    ensures SubmitterOk(t, ReadStep(t, p, l))
  {
    match l
    case ReadHead(_, head) =>
      if HeadAnswer(t.batches, head) { HeadIsAnchored(t.batches, head); }
    case Lookup(_, a) =>
      if p.Verifying? && |p.answers| < |p.sub.events|
         && Admissible(t.events, Reference(p.sub.events[|p.answers|]), a)
      {
        AnswersHoldSnoc(t, p.sub.events, p.answers, a);
      }
    case _ =>
  }

  lemma AfterInsertOk(ring: KeyRing, t: Tables, sub: Submission, r: (Tables, Stored))
    requires Decoded(sub) && PersistedWell(ring, t, sub, r)
    ensures SubmitterOk(r.0, AfterInsert(sub, r.1))
  {
    hide TablesOk, Grows, Decoded;
  }

  lemma AllGrow(s: State, t': Tables)
    requires Grows(s.tables, t')
    requires forall who | who in s.submitters :: SubmitterOk(s.tables, s.submitters[who])
    ensures forall who | who in s.submitters :: SubmitterOk(t', s.submitters[who])
  {
    forall who | who in s.submitters ensures SubmitterOk(t', s.submitters[who]) {
      GrowsSubmitter(s.tables, t', s.submitters[who]);
    }
  }

  lemma InsertInv(ring: KeyRing, s: State, who: nat, r: (Tables, Stored))
    requires Inv(ring, s) && who in s.submitters && s.submitters[who].Verifying?
    requires PersistedWell(ring, s.tables, s.submitters[who].sub, r)
    ensures Inv(ring, State(r.0, s.submitters[who := AfterInsert(s.submitters[who].sub, r.1)]))
  {
    hide TablesOk, Decoded, Anchored, AnswersHold, Grows;
    AfterInsertOk(ring, s.tables, s.submitters[who].sub, r);
    AllGrow(s, r.0);
  }

  lemma StepInv(ring: KeyRing, s: State, l: Label)
    requires Inv(ring, s)
    ensures Inv(ring, Step(ring, s, l))
    ensures Grows(s.tables, Step(ring, s, l).tables)
  {
    hide TablesOk, Decoded, Anchored, AnswersHold, ReadStep;
    if l.Insert? {
      InsertStepInv(ring, s, l.who);
    } else if !l.Begin? && l.who in s.submitters {
      ReadStepOk(s.tables, s.submitters[l.who], l);
    }
  }

  lemma InsertStepInv(ring: KeyRing, s: State, who: nat)
    requires Inv(ring, s)
    ensures Inv(ring, Step(ring, s, Insert(who)))
    ensures Grows(s.tables, Step(ring, s, Insert(who)).tables)
  {
    hide TablesOk, Verdict, Persist, Decoded, Anchored, AnswersHold;
    if who in s.submitters {
      var p := s.submitters[who];
      if p.Verifying? && |p.answers| == |p.sub.events| {
        var outcome := Verdict(ring(p.sub.fingerprint), p.sub.events, p.sub.firstPrev, p.answers);
        PersistOk(ring, s.tables, p.sub, p.answers, outcome);
        InsertInv(ring, s, who, Persist(s.tables, p.sub, outcome));
      }
    }
  }

  lemma {:induction false} RunInv(ring: KeyRing, s: State, labels: seq<Label>)
    requires Inv(ring, s)
    ensures Inv(ring, Run(ring, s, labels))
    ensures Grows(s.tables, Run(ring, s, labels).tables)
  {
    hide Inv, Step;
    if labels != [] {
      var n := |labels| - 1;
      RunInv(ring, s, labels[..n]);
      StepInv(ring, Run(ring, s, labels[..n]), labels[n]);
    }
  }

  lemma InitialInv(ring: KeyRing)
    ensures Inv(ring, INITIAL)
  {
  }

  lemma ReachableInv(ring: KeyRing, labels: seq<Label>)
    ensures Inv(ring, Run(ring, INITIAL, labels))
  {
    InitialInv(ring);
    RunInv(ring, INITIAL, labels);
  }

  // ---------------------------------------------------------------------------------
  // The theorems
  // ---------------------------------------------------------------------------------

  /**
    In every interleaving the verified batches form one chain from genesis: each extends
    the one before it, no two share a head, and once there is one the head query has
    exactly one answer, the last batch's head.
   */
  lemma UnforkedInEveryRun(ring: KeyRing, labels: seq<Label>)
    ensures
      var batches := Run(ring, INITIAL, labels).tables.batches;
      var chain := Chain(batches);
      && (forall i | 0 <= i < |chain| :: chain[i].firstPrev == HeadBefore(chain, i))
      && (forall i, j | 0 <= i < j < |chain| :: chain[i].head != chain[j].head)
      && (forall h :: HeadAnswer(batches, h) <==> h == HeadBefore(chain, |chain|))
  {
    ReachableInv(ring, labels);
    var t := Run(ring, INITIAL, labels).tables;
    var chain := Chain(t.batches);
    forall i, j | 0 <= i < j < |chain| ensures chain[i].head != chain[j].head {
      HeadsDistinct(chain, i, j);
    }
    forall i | 0 <= i < |chain| ensures chain[i].firstPrev == HeadBefore(chain, i) {
      assert HeadBefore(chain, i) == chain[i].firstPrev;
    }
    OneHead(t.batches);
  }

  /** A verified head that nothing extends is the head of the last verified batch, and there is one. */
  lemma OneHead(batches: seq<Batch>)
    requires Unforked(Chain(batches))
    ensures forall h :: HeadAnswer(batches, h) <==> h == HeadBefore(Chain(batches), |Chain(batches)|)
  {
    var chain := Chain(batches);
    forall h ensures Terminal(batches, h) <==> chain != [] && h == HeadBefore(chain, |chain|) {
      if Terminal(batches, h) { TerminalIsLast(batches, h); }
      if chain != [] && h == HeadBefore(chain, |chain|) { LastIsTerminal(batches); }
    }
    if chain != [] { LastIsTerminal(batches); }
  }

  lemma NextExtends(batches: seq<Batch>, k: nat)
    requires Unforked(Chain(batches)) && k + 1 < |Chain(batches)|
    ensures Extended(batches, Chain(batches)[k].head)
  {
    var next := Chain(batches)[k + 1];
    assert next.firstPrev == HeadBefore(Chain(batches), k + 1);
    ChainMember(batches, next);
    var n :| 0 <= n < |batches| && batches[n] == next;
  }

  lemma TerminalIsLast(batches: seq<Batch>, h: Option<Value>)
    requires Unforked(Chain(batches)) && Terminal(batches, h)
    ensures Chain(batches) != [] && h == HeadBefore(Chain(batches), |Chain(batches)|)
  {
    var chain := Chain(batches);
    var b :| 0 <= b < |batches| && batches[b].verified && batches[b].head == h;
    ChainMember(batches, batches[b]);
    var k :| 0 <= k < |chain| && chain[k] == batches[b];
    if k + 1 < |chain| {
      NextExtends(batches, k);
      assert false;
    }
  }

  lemma LastIsTerminal(batches: seq<Batch>)
    requires Unforked(Chain(batches)) && Chain(batches) != []
    ensures Terminal(batches, HeadBefore(Chain(batches), |Chain(batches)|))
  {
    var chain := Chain(batches);
    var last := |chain| - 1;
    var h := HeadBefore(chain, |chain|);
    assert RowLinked(chain[last]) by { assert chain[last].firstPrev == HeadBefore(chain, last); }
    ChainMember(batches, chain[last]);
    var b :| 0 <= b < |batches| && batches[b] == chain[last];
    forall n | 0 <= n < |batches| && batches[n].verified ensures batches[n].firstPrev != h {
      ChainMember(batches, batches[n]);
      var k :| 0 <= k < |chain| && chain[k] == batches[n];
      assert chain[k].firstPrev == HeadBefore(chain, k);
      if k > 0 { HeadsDistinct(chain, k - 1, last); }
    }
  }

  /**
    The head commits to the whole history: if two reachable streams, under whatever keys
    and interleavings, have the same head, the same payloads were recorded in the same
    order, across batch boundaries.
   */
  lemma HeadCommitsToHistory(ring: KeyRing, labels: seq<Label>, ring': KeyRing, labels': seq<Label>)
    requires
      var chain := Chain(Run(ring, INITIAL, labels).tables.batches);
      var chain' := Chain(Run(ring', INITIAL, labels').tables.batches);
      HeadBefore(chain, |chain|) == HeadBefore(chain', |chain'|)
    ensures
      var history := History(Chain(Run(ring, INITIAL, labels).tables.batches));
      var history' := History(Chain(Run(ring', INITIAL, labels').tables.batches));
      |history| == |history'| && forall k | 0 <= k < |history| :: Unsigned(history[k]) == Unsigned(history'[k])
  {
    ReachableInv(ring, labels);
    ReachableInv(ring', labels');
    SameHeadSameHistory(Chain(Run(ring, INITIAL, labels).tables.batches),
                        Chain(Run(ring', INITIAL, labels').tables.batches));
  }

  lemma SameHeadSameHistory(chain: seq<Batch>, chain': seq<Batch>)
    requires Unforked(chain) && Unforked(chain')
    requires HeadBefore(chain, |chain|) == HeadBefore(chain', |chain'|)
    ensures |History(chain)| == |History(chain')|
    ensures forall k | 0 <= k < |History(chain)| :: Unsigned(History(chain)[k]) == Unsigned(History(chain')[k])
  {
    HistoryLinked(chain);
    HistoryLinked(chain');
    SameLastSameChain(History(chain), History(chain'));
  }

  lemma SameLastSameChain(a: seq<Event>, b: seq<Event>)
    requires Linked(a, None) && Linked(b, None) && Before(a, None, |a|) == Before(b, None, |b|)
    ensures |a| == |b| && forall k | 0 <= k < |a| :: Unsigned(a[k]) == Unsigned(b[k])
  {
    if a != [] {
      HashCommits(a, |a| - 1, b, |b| - 1);
    }
  }

  /** The events the verified batches say they verified. */
  function TotalVerified(batches: seq<Batch>): nat {
    if batches == [] then 0 else TotalVerified(batches[..|batches| - 1]) + batches[|batches| - 1].count
  }

  lemma {:induction false} TotalIsHistory(ring: KeyRing, t: Tables, batches: seq<Batch>)
    requires RowsSound(ring, t) && forall b | b in batches :: b in t.batches
    ensures TotalVerified(batches) == |History(Chain(batches))|
  {
    if batches != [] {
      var n := |batches| - 1;
      assert batches == batches[..n] + [batches[n]];
      TotalIsHistory(ring, t, batches[..n]);
      ChainSnoc(batches[..n], batches[n]);
      assert batches[n] in t.batches;
      if batches[n].verified {
        HistorySnoc(Chain(batches[..n]), batches[n]);
      } else {
        assert Chain(batches) == Chain(batches[..n]);
      }
    }
  }

  /**
    Conservation: there are exactly as many event rows as the batches claim to have
    verified, and every event of a verified batch is stored verbatim under its hash and
    that batch.  Skipping a conflicting hash never loses a verified event.
   */
  lemma NoVerifiedEventIsDropped(ring: KeyRing, labels: seq<Label>)
    ensures
      var t := Run(ring, INITIAL, labels).tables;
      && |t.events| == TotalVerified(t.batches)
      && forall b | 0 <= b < |t.batches| && t.batches[b].verified ::
           t.batches[b].count == |t.batches[b].content| && StoredAs(t.events, b, t.batches[b].content)
  {
    ReachableInv(ring, labels);
    var t := Run(ring, INITIAL, labels).tables;
    TotalIsHistory(ring, t, t.batches);
    forall b | 0 <= b < |t.batches| && t.batches[b].verified ensures t.batches[b].count == |t.batches[b].content| {
      assert t.batches[b] in t.batches;
    }
  }

  /**
    In every reachable stream each outcome comes after a decision that it names and that
    allows, wherever that decision was recorded; and no batch settles a decision twice.
   */
  lemma OutcomesFollowAllowedDecisions(ring: KeyRing, labels: seq<Label>)
    ensures
      var t := Run(ring, INITIAL, labels).tables;
      && OutcomesAllowed(History(Chain(t.batches)))
      && forall b | b in t.batches && b.verified :: OneOutcomeEach(b.content)
  {
    ReachableInv(ring, labels);
  }

  /** All verified batches of a stream were signed by the one key registered for it. */
  lemma OneSigningKey(ring: KeyRing, labels: seq<Label>)
    ensures
      var t := Run(ring, INITIAL, labels).tables;
      forall b | b in t.batches && b.verified :: t.key.Some? && AllAuthentic(ring(t.key.value), b.content)
  {
    ReachableInv(ring, labels);
  }

  /** A stored batch, its verdict included, is never changed by anything that happens later. */
  lemma RowsNeverChange(ring: KeyRing, labels: seq<Label>, more: seq<Label>)
    ensures
      var s := Run(ring, INITIAL, labels);
      Grows(s.tables, Run(ring, s, more).tables)
  {
    ReachableInv(ring, labels);
    RunInv(ring, Run(ring, INITIAL, labels), more);
  }

  /**
    Natural idempotency: whenever two submitters, concurrent or not, are told that their
    evidence was accepted, they sent evidence of one identity exactly when they were given
    the same row.
   */
  lemma SameIdentitySameRow(ring: KeyRing, labels: seq<Label>, a: nat, b: nat)
    requires
      var subs := Run(ring, INITIAL, labels).submitters;
      a in subs && b in subs && subs[a].Done? && subs[b].Done? && subs[a].reply.Accepted? && subs[b].reply.Accepted?
    ensures
      var subs := Run(ring, INITIAL, labels).submitters;
      subs[a].sub.identity == subs[b].sub.identity <==> subs[a].reply.row == subs[b].reply.row
  {
    ReachableInv(ring, labels);
  }
}
