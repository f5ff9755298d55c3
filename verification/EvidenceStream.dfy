/**
  One evidence stream, the tables of one (tenant, key) pair, shared by any number of
  concurrent submitters (api/evidence_store.go, api/routes_evidence.go).

  A submitter looks up its content, reads the chain head, verifies, and inserts; each is
  a separate step, and steps of different submitters interleave freely.  Only the insert
  is atomic.  It enforces the uniqueness rules of the tables: one batch per identity, one
  verified batch per chain position (the genesis position counts as one position), one
  row per event hash.  A batch is told apart from others only by its identity, a hash of
  the bytes that were submitted.
 */
module EvidenceStream {
  import opened Prelude
  import opened EvidenceEvents

  /** A row, with the bytes and events it was made of, which the table of batches does not hold. */
  datatype Batch = Batch(
    verified: bool, identity: string, docs: seq<string>, content: seq<Event>,
    firstPrev: Option<Value>, head: Option<Value>, accepted: nat, count: nat, issues: seq<Issue>)

  datatype EventRow = EventRow(batch: nat, event: Event)

  /** The signing key registered for the stream, its batches in insertion order, its events by hash. */
  datatype Tables = Tables(key: Option<string>, batches: seq<Batch>, events: map<Value, EventRow>)

  /** A decoded request: the bytes of each event, what they parse to, and the identity computed from them. */
  datatype Submission = Submission(
    fingerprint: string, firstPrev: Option<Value>, identity: string, docs: seq<string>, events: seq<Event>)

  /** The verifier of the public key with a given fingerprint. */
  type KeyRing = string -> Verifier

  const MAX_EVENTS := 500

  /** What the request decoder lets through. */
  predicate Decoded(sub: Submission) {
    && 0 < |sub.events| <= MAX_EVENTS
    && (forall i | 0 <= i < |sub.events| :: IsHash(Get(sub.events[i], EventHash)))
    && (sub.firstPrev.Some? ==> IsHash(sub.firstPrev.value))
    && var p := Get(sub.events[0], PreviousEventHash);
       sub.firstPrev == if IsText(p) then Some(p) else None
  }

  // ---------------------------------------------------------------------------------
  // Queries and inserts
  // ---------------------------------------------------------------------------------

  function FindContent(batches: seq<Batch>, identity: string): (r: Option<nat>)
    ensures r.Some? ==> r.value < |batches| && batches[r.value].identity == identity
    ensures r.None? ==> forall i | 0 <= i < |batches| :: batches[i].identity != identity
  {
    if batches == [] then None
    else
      var n := |batches| - 1;
      var r := FindContent(batches[..n], identity);
      if r.Some? then r else if batches[n].identity == identity then Some(n) else None
  }

  predicate Extended(batches: seq<Batch>, position: Option<Value>) {
    exists n | 0 <= n < |batches| :: batches[n].verified && batches[n].firstPrev == position
  }

  predicate Terminal(batches: seq<Batch>, head: Option<Value>) {
    && head.Some?
    && (exists b | 0 <= b < |batches| :: batches[b].verified && batches[b].head == head)
    && !Extended(batches, head)
  }

  /** `head` is an answer of the head query: a verified head that nothing extends, or no row. */
  ghost predicate HeadAnswer(batches: seq<Batch>, head: Option<Value>) {
    if head.Some? then Terminal(batches, head) else forall h :: !Terminal(batches, h)
  }

  predicate StoredDecision(events: map<Value, EventRow>, id: Value, decision: Value) {
    exists h | h in events ::
      IsDecision(events[h].event) && Get(events[h].event, EventId) == id && Get(events[h].event, Decision) == decision
  }

  /** What the decision lookup may answer; several rows may match, and any may come back. */
  ghost predicate Admissible(events: map<Value, EventRow>, id: Value, a: Answer) {
    match a
    case Found(d) => StoredDecision(events, id, d)
    case NoRows => forall d :: !StoredDecision(events, id, d)
    case DbError => true
  }

  function InsertEvent(events: map<Value, EventRow>, r: Record, batch: nat): map<Value, EventRow> {
    if r.hash in events then events else events[r.hash := EventRow(batch, r.event)]
  }

  function InsertEvents(events: map<Value, EventRow>, records: seq<Record>, batch: nat): map<Value, EventRow> {
    if records == [] then events
    else
      var n := |records| - 1;
      InsertEvent(InsertEvents(events, records[..n], batch), records[n], batch)
  }

  datatype Stored = Created(row: nat) | Replayed(row: nat) | SlotTaken | KeyConflict | DbFailure

  function RejectedRow(sub: Submission, issues: seq<Issue>): Batch {
    Batch(false, sub.identity, sub.docs, sub.events, sub.firstPrev, None, 0, 0, issues)
  }

  function VerifiedRow(sub: Submission, records: seq<Record>): Batch
    requires records != []
  {
    Batch(true, sub.identity, sub.docs, sub.events, sub.firstPrev, Some(records[|records| - 1].hash), |records|, |records|, [])
  }

  /** The insert transaction.  Every way out but `Created` rolls back or changes nothing. */
  function Persist(t: Tables, sub: Submission, outcome: Outcome): (Tables, Stored)
    requires outcome.Verified? ==> outcome.records != []
  {
    var found := FindContent(t.batches, sub.identity);
    match outcome
    case LookupFailed => (t, DbFailure)
    case Rejected(issues) =>
      if found.Some? then (t, Replayed(found.value))
      else (t.(batches := t.batches + [RejectedRow(sub, issues)]), Created(|t.batches|))
    case Verified(records) =>
      if t.key.Some? && t.key.value != sub.fingerprint then (t, KeyConflict)
      else if found.Some? then (t, Replayed(found.value))
      else if Extended(t.batches, sub.firstPrev) then (t, SlotTaken)
      else
        (Tables(Some(sub.fingerprint), t.batches + [VerifiedRow(sub, records)],
                InsertEvents(t.events, records, |t.batches|)),
         Created(|t.batches|))
  }

  // ---------------------------------------------------------------------------------
  // The protocol
  // ---------------------------------------------------------------------------------

  datatype Reply = Accepted(row: nat, created: bool) | Mismatch(head: Option<Value>) | WrongKey | Error

  /** Where a submitter is, and what it has read so far. */
  datatype Submitter =
    | Keyed(sub: Submission)
    | Fresh(sub: Submission)
    | Stale(sub: Submission, expected: Option<Value>)
    | Verifying(sub: Submission, answers: seq<Answer>)
    | Lost(sub: Submission)
    | Done(sub: Submission, reply: Reply)

  datatype State = State(tables: Tables, submitters: map<nat, Submitter>)

  datatype Label =
    | Begin(who: nat, sub: Submission)
    | LookUp(who: nat)
    | ReadHead(who: nat, head: Option<Value>)
    | Reread(who: nat)
    | Lookup(who: nat, answer: Answer)
    | Insert(who: nat)
    | Fail(who: nat)

  function AfterInsert(sub: Submission, stored: Stored): Submitter {
    match stored
    case Created(i) => Done(sub, Accepted(i, true))
    case Replayed(i) => Done(sub, Accepted(i, false))
    case SlotTaken => Lost(sub)
    case KeyConflict => Done(sub, WrongKey)
    case DbFailure => Done(sub, Error)
  }

  /** Verification is over; the transaction runs with what was read. */
  function InsertStep(ring: KeyRing, t: Tables, sub: Submission, answers: seq<Answer>): (Tables, Stored)
    requires Decoded(sub) && |answers| == |sub.events|
  {
    VerdictHasRecords(ring(sub.fingerprint), sub, answers);
    Persist(t, sub, Verdict(ring(sub.fingerprint), sub.events, sub.firstPrev, answers))
  }

  lemma VerdictHasRecords(v: Verifier, sub: Submission, answers: seq<Answer>)
    requires Decoded(sub) && |answers| == |sub.events|
    ensures
      var outcome := Verdict(v, sub.events, sub.firstPrev, answers);
      outcome.Verified? ==> outcome.records == Records(sub.events) && outcome.records != []
  {
  }

  /** A step that reads the tables, or gives up, moves only the submitter. */
  ghost function ReadStep(t: Tables, p: Submitter, l: Label): Submitter
    requires !l.Begin? && !l.Insert?
  {
    match l
    case LookUp(_) =>
      if !p.Keyed? then p
      else
        var found := FindContent(t.batches, p.sub.identity);
        if found.Some? then Done(p.sub, Accepted(found.value, false)) else Fresh(p.sub)
    case ReadHead(_, head) =>
      if !HeadAnswer(t.batches, head) then p
      else if p.Lost? then Done(p.sub, Mismatch(head))
      else if !p.Fresh? then p
      else if head == p.sub.firstPrev then Verifying(p.sub, [])
      else Stale(p.sub, head)
    case Reread(_) =>
      if !p.Stale? then p
      else
        var found := FindContent(t.batches, p.sub.identity);
        Done(p.sub, if found.Some? then Accepted(found.value, false) else Mismatch(p.expected))
    case Lookup(_, a) =>
      if p.Verifying? && |p.answers| < |p.sub.events|
         && Admissible(t.events, Reference(p.sub.events[|p.answers|]), a)
      then Verifying(p.sub, p.answers + [a])
      else p
    case Fail(_) => if p.Done? then p else Done(p.sub, Error)
  }

  /** One step; a label that is not enabled leaves the state as it is. */
  ghost function Step(ring: KeyRing, s: State, l: Label): State {
    var t := s.tables;
    if l.Begin? then
      if l.who in s.submitters || !Decoded(l.sub) then s
      else
        var wrongKey := t.key.Some? && t.key.value != l.sub.fingerprint;
        s.(submitters := s.submitters[l.who := if wrongKey then Done(l.sub, WrongKey) else Keyed(l.sub)])
    else if l.who !in s.submitters then s
    else if l.Insert? then
      var p := s.submitters[l.who];
      if p.Verifying? && Decoded(p.sub) && |p.answers| == |p.sub.events| then
        var (t', stored) := InsertStep(ring, t, p.sub, p.answers);
        State(t', s.submitters[l.who := AfterInsert(p.sub, stored)])
      else s
    else s.(submitters := s.submitters[l.who := ReadStep(t, s.submitters[l.who], l)])
  }

  const INITIAL := State(Tables(None, [], map[]), map[])

  ghost function Run(ring: KeyRing, s: State, labels: seq<Label>): State {
    if labels == [] then s
    else Step(ring, Run(ring, s, labels[..|labels| - 1]), labels[|labels| - 1])
  }
}
