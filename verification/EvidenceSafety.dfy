/**
  What every interleaving of submitters keeps true of an evidence stream.
 */
module EvidenceSafety {
  import opened Prelude
  import opened EvidenceEvents
  import opened EvidenceForm
  import opened EvidenceVerifier
  import opened EvidenceStream
  import opened EvidenceChain

  // ---------------------------------------------------------------------------------
  // The invariant
  // ---------------------------------------------------------------------------------

  /** No two outcomes of the list share a decision reference. */
  ghost predicate OneOutcomeEach(es: seq<Event>) {
    forall i, j | 0 <= j < i < |es| && IsOutcome(es[i]) && IsOutcome(es[j]) :: Reference(es[j]) != Reference(es[i])
  }

  ghost predicate RowSound(v: Verifier, b: Batch) {
    && RowLinked(b)
    && b.accepted == b.count == |b.content|
    && AllAuthentic(v, b.content)
    && OneOutcomeEach(b.content)
  }

  ghost predicate RowsSound(ring: KeyRing, t: Tables) {
    forall b | b in t.batches ::
      if b.verified then t.key.Some? && RowSound(ring(t.key.value), b)
      else b.head.None? && b.accepted == b.count == 0 && 1 <= |b.issues| <= 20
  }

  ghost predicate OneRowPerIdentity(batches: seq<Batch>) {
    forall i, j | 0 <= i < j < |batches| :: batches[i].identity != batches[j].identity
  }

  /** Every event of the list is stored, verbatim, under its own hash and this batch. */
  ghost predicate StoredAs(events: map<Value, EventRow>, b: nat, content: seq<Event>) {
    forall i | 0 <= i < |content| ::
      HashOf(content[i]) in events && events[HashOf(content[i])] == EventRow(b, content[i])
  }

  ghost predicate AllStored(t: Tables) {
    forall b | 0 <= b < |t.batches| && t.batches[b].verified :: StoredAs(t.events, b, t.batches[b].content)
  }

  /** The row belongs to a verified batch and is stored under its own hash. */
  ghost predicate Backed(batches: seq<Batch>, h: Value, row: EventRow) {
    && row.batch < |batches|
    && batches[row.batch].verified
    && row.event in batches[row.batch].content
    && h == HashOf(row.event)
  }

  ghost predicate OnlyStored(t: Tables) {
    forall h | h in t.events :: Backed(t.batches, h, t.events[h])
  }

  /** An earlier event of the history is a decision with this id that allows. */
  ghost predicate AllowedBefore(history: seq<Event>, i: nat, id: Value)
    requires i <= |history|
  {
    exists j | 0 <= j < i ::
      IsDecision(history[j]) && Get(history[j], EventId) == id && Get(history[j], Decision) == Text("allowed")
  }

  ghost predicate OutcomesAllowed(history: seq<Event>) {
    forall i | 0 <= i < |history| && IsOutcome(history[i]) :: AllowedBefore(history, i, Reference(history[i]))
  }

  ghost predicate RowsOk(ring: KeyRing, t: Tables) {
    RowsSound(ring, t) && OneRowPerIdentity(t.batches)
  }

  ghost predicate LedgerOk(t: Tables) {
    && Unforked(Chain(t.batches))
    && AllStored(t)
    && OnlyStored(t)
    && |t.events| == |History(Chain(t.batches))|
    && OutcomesAllowed(History(Chain(t.batches)))
  }

  ghost predicate TablesOk(ring: KeyRing, t: Tables) {
    RowsOk(ring, t) && LedgerOk(t)
  }

  /** The position was genesis, or the head of some verified batch, when it was read. */
  ghost predicate Anchored(batches: seq<Batch>, position: Option<Value>) {
    position.None? || exists b | b in batches :: b.verified && b.head == position
  }

  ghost predicate AnswersHold(t: Tables, events: seq<Event>, answers: seq<Answer>) {
    && |answers| <= |events|
    && forall i | 0 <= i < |answers| && answers[i].Found? ::
         StoredDecision(t.events, Reference(events[i]), answers[i].decision)
  }

  ghost predicate SubmitterOk(t: Tables, p: Submitter) {
    && Decoded(p.sub)
    && (p.Verifying? ==> Anchored(t.batches, p.sub.firstPrev) && AnswersHold(t, p.sub.events, p.answers))
    && (p.Done? && p.reply.Accepted? ==>
          p.reply.row < |t.batches| && t.batches[p.reply.row].identity == p.sub.identity)
  }

  ghost predicate Inv(ring: KeyRing, s: State) {
    && TablesOk(ring, s.tables)
    && forall who | who in s.submitters :: SubmitterOk(s.tables, s.submitters[who])
  }

  /** Tables only grow: no row is rewritten or removed. */
  ghost predicate Grows(t: Tables, t': Tables) {
    && t.batches <= t'.batches
    && (forall h | h in t.events :: h in t'.events && t'.events[h] == t.events[h])
    && (t.key.Some? ==> t'.key == t.key)
  }

  // ---------------------------------------------------------------------------------
  // Inserting a verified batch
  // ---------------------------------------------------------------------------------

  ghost predicate Unstored(m: map<Value, EventRow>, records: seq<Record>) {
    && (forall i | 0 <= i < |records| :: records[i].hash !in m)
    && (forall i, j | 0 <= i < j < |records| :: records[i].hash != records[j].hash)
  }

  lemma UnstoredTake(m: map<Value, EventRow>, records: seq<Record>, n: nat)
    requires Unstored(m, records) && n <= |records|
    ensures Unstored(m, records[..n])
  {
  }

  /** What is stored stays as it is. */
  lemma {:induction false} InsertEventsKeeps(m: map<Value, EventRow>, records: seq<Record>, b: nat, h: Value)
    requires h in m
    ensures h in InsertEvents(m, records, b) && InsertEvents(m, records, b)[h] == m[h]
  {
    if records != [] { InsertEventsKeeps(m, records[..|records| - 1], b, h); }
  }

  /** A record with a new hash that no other record has is inserted. */
  lemma {:induction false} InsertEventsAdds(m: map<Value, EventRow>, records: seq<Record>, b: nat, i: nat)
    requires Unstored(m, records) && i < |records|
    ensures records[i].hash in InsertEvents(m, records, b)
    ensures InsertEvents(m, records, b)[records[i].hash] == EventRow(b, records[i].event)
  {
    var n := |records| - 1;
    InsertEventsKeys(m, records[..n], b, records[n].hash);
    if i < n {
      UnstoredTake(m, records, n);
      InsertEventsAdds(m, records[..n], b, i);
    }
  }

  /** Records with new, distinct hashes are all counted. */
  lemma {:induction false} InsertEventsSize(m: map<Value, EventRow>, records: seq<Record>, b: nat)
    requires Unstored(m, records)
    ensures |InsertEvents(m, records, b)| == |m| + |records|
  {
    if records != [] {
      var n := |records| - 1;
      UnstoredTake(m, records, n);
      InsertEventsSize(m, records[..n], b);
      InsertEventsKeys(m, records[..n], b, records[n].hash);
    }
  }

  /** Whatever is in the table afterwards was there before or is one of the records. */
  lemma {:induction false} InsertEventsKeys(m: map<Value, EventRow>, records: seq<Record>, b: nat, h: Value)
    ensures h in InsertEvents(m, records, b) && h !in m ==>
            exists i | 0 <= i < |records| ::
              records[i].hash == h && InsertEvents(m, records, b)[h] == EventRow(b, records[i].event)
  {
    if records != [] && h in InsertEvents(m, records, b) && h !in m {
      var n := |records| - 1;
      InsertEventsKeys(m, records[..n], b, h);
      if h in InsertEvents(m, records[..n], b) {
        var i :| 0 <= i < n && records[..n][i].hash == h
              && InsertEvents(m, records[..n], b)[h] == EventRow(b, records[..n][i].event);
        assert records[i].hash == h;
      }
    }
  }

  lemma StoredIsHistory(t: Tables, h: Value) returns (k: nat)
    requires OnlyStored(t) && h in t.events
    ensures k < |History(Chain(t.batches))|
    ensures History(Chain(t.batches))[k] == t.events[h].event && h == HashOf(t.events[h].event)
  {
    var b := t.batches[t.events[h].batch];
    ChainMember(t.batches, b);
    HistoryMember(Chain(t.batches), b, t.events[h].event);
    k :| 0 <= k < |History(Chain(t.batches))| && History(Chain(t.batches))[k] == t.events[h].event;
  }

  /** No hash occurs twice in a chain from genesis. */
  lemma HashesDistinct(es: seq<Event>, i: nat, j: nat)
    requires Linked(es, None) && i < j < |es|
    ensures HashOf(es[i]) != HashOf(es[j])
  {
    if HashOf(es[i]) == HashOf(es[j]) {
      HashCommits(es, i, es, j);
      assert false;
    }
  }

  /** Events appended to an unforked chain have hashes the table does not hold yet. */
  lemma NewHash(t: Tables, es: seq<Event>, i: nat)
    requires OnlyStored(t) && i < |es|
    requires Linked(History(Chain(t.batches)) + es, None)
    ensures HashOf(es[i]) !in t.events
  {
    var history := History(Chain(t.batches));
    if HashOf(es[i]) in t.events {
      var k := StoredIsHistory(t, HashOf(es[i]));
      assert (history + es)[k] == history[k] && (history + es)[|history| + i] == es[i];
      HashesDistinct(history + es, k, |history| + i);
      assert false;
    }
  }

  lemma NewRecords(t: Tables, es: seq<Event>)
    requires OnlyStored(t) && Unforked(Chain(t.batches))
    requires Linked(es, HeadBefore(Chain(t.batches), |Chain(t.batches)|))
    ensures Linked(History(Chain(t.batches)) + es, None)
    ensures Unstored(t.events, Records(es))
  {
    var history := History(Chain(t.batches));
    HistoryLinked(Chain(t.batches));
    LinkedAppend(history, es);
    forall i | 0 <= i < |es| ensures Records(es)[i].hash !in t.events {
      NewHash(t, es, i);
    }
    forall i, j | 0 <= i < j < |es| ensures Records(es)[i].hash != Records(es)[j].hash {
      assert (history + es)[|history| + i] == es[i] && (history + es)[|history| + j] == es[j];
      HashesDistinct(history + es, |history| + i, |history| + j);
    }
  }

  lemma {:induction false} LatestDecisionSource(events: seq<Event>, n: nat, id: Value)
    requires n <= |events| && LatestDecision(events, n, id).Some?
    ensures IsDecisionValue(LatestDecision(events, n, id).value)
    ensures LatestDecision(events, n, id).value == Text("allowed") ==> AllowedBefore(events, n, id)
  {
    var e := events[n - 1];
    if !(IsDecision(e) && IsDecisionValue(Get(e, Decision)) && Get(e, EventId) == id) {
      LatestDecisionSource(events, n - 1, id);
    }
  }

  /** A stored decision that is not a denial is an earlier, allowing event of the history. */
  lemma StoredDecisionAllowed(ring: KeyRing, t: Tables, id: Value, d: Value)
    requires RowsSound(ring, t) && OnlyStored(t)
    requires StoredDecision(t.events, id, d) && d != Text("denied")
    ensures AllowedBefore(History(Chain(t.batches)), |History(Chain(t.batches))|, id)
  {
    hide WellFormed, RowLinked, OneOutcomeEach, Chain, History;
    var h :| h in t.events && IsDecision(t.events[h].event)
          && Get(t.events[h].event, EventId) == id && Get(t.events[h].event, Decision) == d;
    var row := t.events[h];
    var b := t.batches[row.batch];
    assert b in t.batches && RowSound(ring(t.key.value), b);
    var i :| 0 <= i < |b.content| && b.content[i] == row.event;
    assert Authentic(ring(t.key.value), b.content[i]);
    var k := StoredIsHistory(t, h);
  }

  lemma AllowedExtends(history: seq<Event>, es: seq<Event>, i: nat, j: nat, id: Value)
    requires i <= |history| && i <= j <= |history + es| && AllowedBefore(history, i, id)
    ensures AllowedBefore(history + es, j, id)
  {
    var k :| 0 <= k < i && IsDecision(history[k]) && Get(history[k], EventId) == id
          && Get(history[k], Decision) == Text("allowed");
    assert (history + es)[k] == history[k];
  }

  lemma AllowedShifts(history: seq<Event>, es: seq<Event>, i: nat, id: Value)
    requires i <= |es| && AllowedBefore(es, i, id)
    ensures AllowedBefore(history + es, |history| + i, id)
  {
    var k :| 0 <= k < i && IsDecision(es[k]) && Get(es[k], EventId) == id && Get(es[k], Decision) == Text("allowed");
    assert (history + es)[|history| + k] == es[k];
  }

  /** A verified outcome follows an allowing decision of its own batch or of the stored history. */
  lemma NewOutcomeAllowed(ring: KeyRing, t: Tables, es: seq<Event>, answers: seq<Answer>, k: nat)
    requires RowsSound(ring, t) && OnlyStored(t)
    requires |answers| == |es| && Ordered(es, answers) && AnswersHold(t, es, answers)
    requires k < |es| && IsOutcome(es[k])
    ensures
      var history := History(Chain(t.batches));
      AllowedBefore(history + es, |history| + k, Reference(es[k]))
  {
    var history := History(Chain(t.batches));
    var id := Reference(es[k]);
    if LatestDecision(es, k, id).Some? {
      LatestDecisionSource(es, k, id);
      AllowedShifts(history, es, k, id);
    } else {
      StoredDecisionAllowed(ring, t, id, answers[k].decision);
      AllowedExtends(history, es, |history|, |history| + k, id);
    }
  }

  lemma OutcomesAllowedAppend(history: seq<Event>, es: seq<Event>)
    requires OutcomesAllowed(history)
    requires forall k | 0 <= k < |es| && IsOutcome(es[k]) :: AllowedBefore(history + es, |history| + k, Reference(es[k]))
    ensures OutcomesAllowed(history + es)
  {
    var all := history + es;
    forall i | 0 <= i < |all| && IsOutcome(all[i])
      ensures AllowedBefore(all, i, Reference(all[i]))
    {
      if i < |history| {
        AllowedExtends(history, es, i, i, Reference(history[i]));
      } else {
        var k := i - |history|;
        assert all[i] == es[k] && AllowedBefore(all, |history| + k, Reference(es[k]));
      }
    }
  }

  /** A free, anchored position is the end of the chain. */
  lemma PositionIsEnd(t: Tables, position: Option<Value>)
    requires Unforked(Chain(t.batches)) && Anchored(t.batches, position) && !Extended(t.batches, position)
    ensures position == HeadBefore(Chain(t.batches), |Chain(t.batches)|)
  {
    var chain := Chain(t.batches);
    forall k | 0 <= k < |chain| ensures chain[k].firstPrev != position {
      ChainMember(t.batches, chain[k]);
      var n :| 0 <= n < |t.batches| && t.batches[n] == chain[k];
    }
    if position.Some? {
      var b :| b in t.batches && b.verified && b.head == position;
      ChainMember(t.batches, b);
    }
    FreePositionIsEnd(chain, position);
  }

  lemma UnforkedSnoc(chain: seq<Batch>, b: Batch)
    requires Unforked(chain) && RowLinked(b) && b.firstPrev == HeadBefore(chain, |chain|)
    ensures Unforked(chain + [b])
  {
    var chain' := chain + [b];
    forall i | 0 <= i < |chain'|
      ensures RowLinked(chain'[i]) && chain'[i].firstPrev == HeadBefore(chain', i)
    {
      assert HeadBefore(chain', i) == HeadBefore(chain, i);
    }
  }

  lemma OrderedOutcomes(es: seq<Event>, answers: seq<Answer>)
    requires |answers| == |es| && Ordered(es, answers)
    ensures OneOutcomeEach(es)
  {
  }

  lemma NewRowSound(v: Verifier, sub: Submission, answers: seq<Answer>)
    requires sub.events != [] && |answers| == |sub.events|
    requires Linked(sub.events, sub.firstPrev) && AllAuthentic(v, sub.events) && Ordered(sub.events, answers)
    ensures RowSound(v, VerifiedRow(sub, Records(sub.events)))
  {
    hide AllAuthentic;
    LastRecord(sub.events);
    OrderedOutcomes(sub.events, answers);
  }

  lemma LastRecord(es: seq<Event>)
    requires es != []
    ensures Records(es)[|es| - 1].hash == HashOf(es[|es| - 1])
  {
  }

  /** Stored events stay stored when the table grows and when batches are appended. */
  lemma AllStoredGrows(t: Tables, b: Batch, t': Tables)
    requires AllStored(t) && t'.batches == t.batches + [b]
    requires forall h | h in t.events :: h in t'.events && t'.events[h] == t.events[h]
    requires b.verified ==> StoredAs(t'.events, |t.batches|, b.content)
    ensures AllStored(t')
  {
    forall i | 0 <= i < |t'.batches| && t'.batches[i].verified
      ensures StoredAs(t'.events, i, t'.batches[i].content)
    {
      if i < |t.batches| {
        assert StoredAs(t.events, i, t.batches[i].content);
      }
    }
  }

  lemma BackedGrows(batches: seq<Batch>, b: Batch, h: Value, row: EventRow)
    requires Backed(batches, h, row)
    ensures Backed(batches + [b], h, row)
  {
  }

  /** After a verified insert, its events are stored and the earlier ones still are. */
  lemma NewEventsAllStored(t: Tables, b: Batch, t': Tables)
    requires b.verified && AllStored(t) && Unstored(t.events, Records(b.content))
    requires t'.batches == t.batches + [b]
    requires t'.events == InsertEvents(t.events, Records(b.content), |t.batches|)
    ensures AllStored(t')
  {
    var records := Records(b.content);
    assert StoredAs(t'.events, |t.batches|, b.content) by {
      forall i | 0 <= i < |b.content|
        ensures HashOf(b.content[i]) in t'.events && t'.events[HashOf(b.content[i])] == EventRow(|t.batches|, b.content[i])
      {
        assert records[i].hash == HashOf(b.content[i]) && records[i].event == b.content[i];
        InsertEventsAdds(t.events, records, |t.batches|, i);
      }
    }
    forall h | h in t.events ensures h in t'.events && t'.events[h] == t.events[h] {
      InsertEventsKeeps(t.events, records, |t.batches|, h);
    }
    AllStoredGrows(t, b, t');
  }

  lemma NewEventsOnlyStored(t: Tables, b: Batch, t': Tables)
    requires b.verified && OnlyStored(t)
    requires t'.batches == t.batches + [b]
    requires t'.events == InsertEvents(t.events, Records(b.content), |t.batches|)
    ensures OnlyStored(t')
  {
    var n := |t.batches|;
    var records := Records(b.content);
    forall h | h in t'.events
      ensures Backed(t'.batches, h, t'.events[h])
    {
      InsertEventsKeys(t.events, records, n, h);
      if h in t.events {
        InsertEventsKeeps(t.events, records, n, h);
        BackedGrows(t.batches, b, h, t.events[h]);
      } else {
        var k :| 0 <= k < |records| && records[k].hash == h && t'.events[h] == EventRow(n, records[k].event);
        assert records[k].event == b.content[k];
      }
    }
  }

  lemma NewOutcomesAllowed(ring: KeyRing, t: Tables, es: seq<Event>, answers: seq<Answer>)
    requires RowsSound(ring, t) && OnlyStored(t) && OutcomesAllowed(History(Chain(t.batches)))
    requires |answers| == |es| && Ordered(es, answers) && AnswersHold(t, es, answers)
    ensures OutcomesAllowed(History(Chain(t.batches)) + es)
  {
    forall k | 0 <= k < |es| && IsOutcome(es[k]) {
      NewOutcomeAllowed(ring, t, es, answers, k);
    }
    OutcomesAllowedAppend(History(Chain(t.batches)), es);
  }

  lemma NewRowKeepsRows(ring: KeyRing, t: Tables, b: Batch, t': Tables)
    requires RowsSound(ring, t) && OneRowPerIdentity(t.batches) && FindContent(t.batches, b.identity).None?
    requires t'.batches == t.batches + [b] && (t.key.Some? ==> t'.key == t.key)
    requires if b.verified then t'.key.Some? && RowSound(ring(t'.key.value), b)
             else b.head.None? && b.accepted == b.count == 0 && 1 <= |b.issues| <= 20
    ensures RowsSound(ring, t') && OneRowPerIdentity(t'.batches)
  {
    forall x | x in t'.batches ensures x == b || x in t.batches {}
  }

  /** A batch at the end of the chain lengthens it by its events. */
  lemma NewChain(t: Tables, b: Batch)
    requires Unforked(Chain(t.batches)) && b.verified && RowLinked(b)
    requires b.firstPrev == HeadBefore(Chain(t.batches), |Chain(t.batches)|)
    ensures Unforked(Chain(t.batches + [b]))
    ensures History(Chain(t.batches + [b])) == History(Chain(t.batches)) + b.content
  {
    ChainSnoc(t.batches, b);
    UnforkedSnoc(Chain(t.batches), b);
    HistorySnoc(Chain(t.batches), b);
  }

  /** The tables after a verified batch has been inserted. */
  ghost predicate Inserted(t: Tables, sub: Submission, t': Tables) {
    && sub.events != []
    && t'.key == Some(sub.fingerprint)
    && t'.batches == t.batches + [VerifiedRow(sub, Records(sub.events))]
    && t'.events == InsertEvents(t.events, Records(sub.events), |t.batches|)
  }

  lemma InsertKeepsRows(ring: KeyRing, t: Tables, sub: Submission, answers: seq<Answer>, t': Tables)
    requires RowsOk(ring, t) && Inserted(t, sub, t') && |answers| == |sub.events|
    requires BatchVerified(ring(sub.fingerprint), sub.events, sub.firstPrev, answers)
    requires t.key.Some? ==> t.key.value == sub.fingerprint
    requires FindContent(t.batches, sub.identity).None?
    ensures RowsOk(ring, t')
  {
    NewRowSound(ring(sub.fingerprint), sub, answers);
    NewRowKeepsRows(ring, t, VerifiedRow(sub, Records(sub.events)), t');
  }

  lemma InsertKeepsLedger(ring: KeyRing, t: Tables, sub: Submission, answers: seq<Answer>, t': Tables)
    requires RowsSound(ring, t) && LedgerOk(t) && Inserted(t, sub, t') && |answers| == |sub.events|
    requires Linked(sub.events, sub.firstPrev) && Ordered(sub.events, answers)
    requires AnswersHold(t, sub.events, answers)
    requires Anchored(t.batches, sub.firstPrev) && !Extended(t.batches, sub.firstPrev)
    ensures LedgerOk(t')
  {
    var b := VerifiedRow(sub, Records(sub.events));
    assert RowLinked(b) by { LastRecord(sub.events); }
    PositionIsEnd(t, sub.firstPrev);
    NewRecords(t, sub.events);
    NewChain(t, b);
    NewOutcomesAllowed(ring, t, sub.events, answers);
    InsertEventsSize(t.events, Records(sub.events), |t.batches|);
    NewEventsAllStored(t, b, t');
    NewEventsOnlyStored(t, b, t');
  }

  /** Inserting a verified batch keeps the tables in order. */
  lemma VerifiedInsert(ring: KeyRing, t: Tables, sub: Submission, answers: seq<Answer>, t': Tables)
    requires TablesOk(ring, t) && Inserted(t, sub, t') && |answers| == |sub.events|
    requires BatchVerified(ring(sub.fingerprint), sub.events, sub.firstPrev, answers)
    requires AnswersHold(t, sub.events, answers)
    requires t.key.Some? ==> t.key.value == sub.fingerprint
    requires FindContent(t.batches, sub.identity).None?
    requires Anchored(t.batches, sub.firstPrev) && !Extended(t.batches, sub.firstPrev)
    ensures TablesOk(ring, t')
  {
    hide RowsSound, OneRowPerIdentity, LedgerOk, Linked, Ordered, AllAuthentic, AnswersHold, Anchored;
    assert RowsOk(ring, t') by { InsertKeepsRows(ring, t, sub, answers, t'); }
    assert LedgerOk(t') by { InsertKeepsLedger(ring, t, sub, answers, t'); }
  }

  lemma RejectedKeepsLedger(t: Tables, b: Batch)
    requires LedgerOk(t) && !b.verified
    ensures LedgerOk(t.(batches := t.batches + [b]))
  {
    var t' := t.(batches := t.batches + [b]);
    ChainSnoc(t.batches, b);
    assert Chain(t'.batches) == Chain(t.batches);
    AllStoredGrows(t, b, t');
    forall h | h in t'.events ensures Backed(t'.batches, h, t'.events[h]) {
      BackedGrows(t.batches, b, h, t.events[h]);
    }
  }

  /** So does inserting a rejected one, which touches neither the chain nor the events. */
  lemma RejectedInsert(ring: KeyRing, t: Tables, sub: Submission, issues: seq<Issue>, t': Tables)
    requires TablesOk(ring, t) && FindContent(t.batches, sub.identity).None? && 1 <= |issues| <= 20
    requires t' == t.(batches := t.batches + [RejectedRow(sub, issues)])
    ensures TablesOk(ring, t')
  {
    hide RowsSound, OneRowPerIdentity, LedgerOk;
    assert RowsOk(ring, t') by { NewRowKeepsRows(ring, t, RejectedRow(sub, issues), t'); }
    assert LedgerOk(t') by { RejectedKeepsLedger(t, RejectedRow(sub, issues)); }
  }
}
