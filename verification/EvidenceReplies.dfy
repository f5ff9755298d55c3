/**
  What submitters are told: that every answer is true of the stream, and which answer a
  submitter gets.
 */
module EvidenceReplies {
  import opened Prelude
  import opened EvidenceEvents
  import opened EvidenceForm
  import opened EvidenceVerifier
  import opened EvidenceStream
  import opened EvidenceChain
  import opened EvidenceSafety
  import opened EvidenceTheorems
  import opened EvidenceProgress

  // ---------------------------------------------------------------------------------
  // What the insert decides on
  // ---------------------------------------------------------------------------------

  predicate Known(batches: seq<Batch>, identity: string) {
    exists n | 0 <= n < |batches| :: batches[n].identity == identity
  }

  predicate OtherKey(t: Tables, sub: Submission) { t.key.Some? && t.key.value != sub.fingerprint }

  /** A lookup failed that some event needs before the first one that is not well formed. */
  ghost predicate Unanswered(v: Verifier, events: seq<Event>, answers: seq<Answer>)
    requires |answers| == |events|
  {
    exists i :: 0 <= i < |events| && NeedsLookup(events, i) && answers[i].DbError?
      && forall k | 0 <= k <= i :: WellFormed(v, events[k]) && v.encodes(Unsigned(events[k]))
  }

  ghost predicate Sound(ring: KeyRing, sub: Submission, answers: seq<Answer>)
    requires |answers| == |sub.events|
  {
    BatchVerified(ring(sub.fingerprint), sub.events, sub.firstPrev, answers)
  }

  lemma SoundIsAnswered(ring: KeyRing, sub: Submission, answers: seq<Answer>)
    requires |answers| == |sub.events| && Sound(ring, sub, answers)
    ensures !Unanswered(ring(sub.fingerprint), sub.events, answers)
  {
    hide Verdict, BatchVerified;
    VerifiedIff(ring(sub.fingerprint), sub.events, sub.firstPrev, answers);
    UnansweredIff(ring, sub, answers);
  }

  lemma UnansweredIff(ring: KeyRing, sub: Submission, answers: seq<Answer>)
    requires |answers| == |sub.events|
    ensures Unanswered(ring(sub.fingerprint), sub.events, answers) <==>
            Verdict(ring(sub.fingerprint), sub.events, sub.firstPrev, answers).LookupFailed?
  {
    hide Verdict, WellFormed, NeedsLookup;
    LookupFailedIff(ring(sub.fingerprint), sub.events, sub.firstPrev, answers);
  }

  /** The row that a batch is stored as. */
  ghost predicate RowFor(row: Batch, sub: Submission, sound: bool) {
    row.identity == sub.identity && row.docs == sub.docs && row.content == sub.events && (row.verified <==> sound)
  }

  lemma InsertDecides(ring: KeyRing, t: Tables, sub: Submission, answers: seq<Answer>)
    requires Decoded(sub) && |answers| == |sub.events|
    ensures
      var (t', stored) := InsertStep(ring, t, sub, answers);
      var sound, n := Sound(ring, sub, answers), |t.batches|;
      if Unanswered(ring(sub.fingerprint), sub.events, answers) then t' == t && stored == DbFailure
      else if sound && OtherKey(t, sub) then t' == t && stored == KeyConflict
      else if Known(t.batches, sub.identity) then
        t' == t && stored.Replayed? && stored.row < n && t.batches[stored.row].identity == sub.identity
      else if sound && Extended(t.batches, sub.firstPrev) then t' == t && stored == SlotTaken
      else stored == Stored.Created(n) && |t'.batches| == n + 1 && t'.batches[..n] == t.batches && RowFor(t'.batches[n], sub, sound)
  {
    var v := ring(sub.fingerprint);
    VerdictHasRecords(v, sub, answers);
    UnansweredIff(ring, sub, answers);
    VerifiedIff(v, sub.events, sub.firstPrev, answers);
    assert Known(t.batches, sub.identity) <==> FindContent(t.batches, sub.identity).Some? by {
      KnownIff(t.batches, sub.identity);
    }
    hide Known, Unanswered, Extended, Verdict, InsertEvents, BatchVerified, Decoded;
    var (t', stored) := InsertStep(ring, t, sub, answers);
    if stored.Created? { assert t'.batches[..|t.batches|] == t.batches; }
  }

  lemma KnownIff(batches: seq<Batch>, identity: string)
    ensures Known(batches, identity) <==> FindContent(batches, identity).Some?
  {
  }

  // ---------------------------------------------------------------------------------
  // Every answer is true
  // ---------------------------------------------------------------------------------

  /** At some point of the run this was the head of the stream. */
  ghost predicate WasHead(ring: KeyRing, labels: seq<Label>, head: Option<Value>) {
    exists n :: 0 <= n <= |labels| && HeadAt(ring, labels[..n], head)
  }

  ghost predicate HeadAt(ring: KeyRing, labels: seq<Label>, head: Option<Value>) {
    var chain := Chain(Run(ring, INITIAL, labels).tables.batches);
    head == HeadBefore(chain, |chain|)
  }

  /** A step of this submitter failed: it was cut off, or the store did not answer. */
  predicate Failing(l: Label, who: nat) {
    l == Fail(who) || (l.Lookup? && l.who == who && l.answer.DbError?)
  }

  ghost predicate Troubled(labels: seq<Label>, who: nat) { exists n :: 0 <= n < |labels| && Failing(labels[n], who) }

  ghost predicate ReplyTrue(ring: KeyRing, labels: seq<Label>, t: Tables, who: nat, sub: Submission, reply: Reply) {
    match reply
    case Accepted(row, _) => row < |t.batches| && t.batches[row].identity == sub.identity
    case WrongKey => t.key.Some? && t.key.value != sub.fingerprint
    case Mismatch(head) => WasHead(ring, labels, head) && head != sub.firstPrev
    case Error => Troubled(labels, who)
  }

  ghost predicate ToldTheTruth(ring: KeyRing, labels: seq<Label>, t: Tables, who: nat, p: Submitter) {
    match p
    case Lost(sub) => Extended(t.batches, sub.firstPrev)
    case Stale(sub, expected) => WasHead(ring, labels, expected) && expected != sub.firstPrev
    case Verifying(_, answers) => forall i | 0 <= i < |answers| && answers[i].DbError? :: Troubled(labels, who)
    case Done(sub, reply) => ReplyTrue(ring, labels, t, who, sub, reply)
    case _ => true
  }

  lemma WasHeadGrows(ring: KeyRing, labels: seq<Label>, l: Label, head: Option<Value>)
    requires WasHead(ring, labels, head)
    ensures WasHead(ring, labels + [l], head)
  {
    var n :| 0 <= n <= |labels| && HeadAt(ring, labels[..n], head);
    assert (labels + [l])[..n] == labels[..n];
  }

  lemma IsHeadNow(ring: KeyRing, labels: seq<Label>, head: Option<Value>)
    requires HeadAnswer(Run(ring, INITIAL, labels).tables.batches, head)
    ensures WasHead(ring, labels, head)
  {
    UnforkedInEveryRun(ring, labels);
    assert labels[..|labels|] == labels;
    assert HeadAt(ring, labels[..|labels|], head);
  }

  lemma TroubledGrows(labels: seq<Label>, l: Label, who: nat)
    requires Troubled(labels, who) || Failing(l, who)
    ensures Troubled(labels + [l], who)
  {
    if Troubled(labels, who) {
      var n :| 0 <= n < |labels| && Failing(labels[n], who);
      assert (labels + [l])[n] == labels[n];
    } else {
      assert (labels + [l])[|labels|] == l;
    }
  }

  /** A submitter that does not move stays told the truth. */
  lemma TruthStays(ring: KeyRing, labels: seq<Label>, l: Label, t: Tables, t': Tables, who: nat, p: Submitter)
    requires ToldTheTruth(ring, labels, t, who, p) && Grows(t, t')
    ensures ToldTheTruth(ring, labels + [l], t', who, p)
  {
    hide HeadAt, Failing;
    if p.Stale? { WasHeadGrows(ring, labels, l, p.expected); }
    if p.Done? && p.reply.Mismatch? { WasHeadGrows(ring, labels, l, p.reply.head); }
    if Troubled(labels, who) { TroubledGrows(labels, l, who); }
    if p.Lost? {
      var n :| 0 <= n < |t.batches| && t.batches[n].verified && t.batches[n].firstPrev == p.sub.firstPrev;
      assert t'.batches[n] == t.batches[n];
    }
  }

  lemma TakenIsNotTheHead(batches: seq<Batch>, position: Option<Value>, head: Option<Value>)
    requires Unforked(Chain(batches)) && Extended(batches, position) && HeadAnswer(batches, head)
    ensures head != position
  {
    OneHead(batches);
    EndIsFree(batches);
  }

  /** A label that leaves the tables alone keeps what was true. */
  lemma TruthStaysHere(ring: KeyRing, labels: seq<Label>, l: Label, t: Tables, who: nat, p: Submitter)
    requires ToldTheTruth(ring, labels, t, who, p)
    ensures ToldTheTruth(ring, labels + [l], t, who, p)
  {
    hide ToldTheTruth;
    TruthStays(ring, labels, l, t, t, who, p);
  }

  lemma HeadReadIsTold(ring: KeyRing, labels: seq<Label>, t: Tables, who: nat, p: Submitter, head: Option<Value>)
    requires HeadAnswer(t.batches, head) && WasHead(ring, labels, head)
    requires p.Fresh? || (p.Lost? && head != p.sub.firstPrev)
    ensures ToldTheTruth(ring, labels, t, who, ReadStep(t, p, ReadHead(who, head)))
  {
    hide HeadAnswer, WasHead, Extended, Troubled;
  }

  lemma ReadHeadTellsTheTruth(ring: KeyRing, labels: seq<Label>, who: nat, p: Submitter, head: Option<Value>)
    requires ToldTheTruth(ring, labels, Run(ring, INITIAL, labels).tables, who, p)
    requires HeadAnswer(Run(ring, INITIAL, labels).tables.batches, head) && (p.Lost? || p.Fresh?)
    ensures
      var t, l := Run(ring, INITIAL, labels).tables, ReadHead(who, head);
      ToldTheTruth(ring, labels + [l], t, who, ReadStep(t, p, l))
  {
    var t, l := Run(ring, INITIAL, labels).tables, ReadHead(who, head);
    if p.Lost? {
      assert Extended(t.batches, p.sub.firstPrev);
      assert Unforked(Chain(t.batches)) by { ReachableInv(ring, labels); }
      TakenIsNotTheHead(t.batches, p.sub.firstPrev, head);
    }
    hide ToldTheTruth, HeadAnswer, WasHead, Extended, Run, Chain, ReadStep, Unforked;
    IsHeadNow(ring, labels, head);
    WasHeadGrows(ring, labels, l, head);
    HeadReadIsTold(ring, labels + [l], t, who, p, head);
  }

  /** The lookups by identity. */
  lemma FindTellsTheTruth(ring: KeyRing, labels: seq<Label>, t: Tables, who: nat, p: Submitter, l: Label)
    requires l.LookUp? || l.Reread?
    requires ToldTheTruth(ring, labels, t, who, p)
    ensures ToldTheTruth(ring, labels + [l], t, who, ReadStep(t, p, l))
  {
    TruthStaysHere(ring, labels, l, t, who, p);
    hide WasHead, Troubled, Extended;
  }

  lemma LookupTellsTheTruth(ring: KeyRing, labels: seq<Label>, t: Tables, who: nat, p: Submitter, l: Label)
    requires (l.Lookup? || l.Fail?) && l.who == who
    requires ToldTheTruth(ring, labels, t, who, p)
    ensures ToldTheTruth(ring, labels + [l], t, who, ReadStep(t, p, l))
  {
    TruthStaysHere(ring, labels, l, t, who, p);
    if Failing(l, who) { TroubledGrows(labels, l, who); }
    hide WasHead, Troubled, Extended, Admissible;
  }

  lemma ReadTellsTheTruth(ring: KeyRing, labels: seq<Label>, who: nat, p: Submitter, l: Label)
    requires !l.Begin? && !l.Insert? && l.who == who
    requires ToldTheTruth(ring, labels, Run(ring, INITIAL, labels).tables, who, p)
    ensures
      var t := Run(ring, INITIAL, labels).tables;
      ToldTheTruth(ring, labels + [l], t, who, ReadStep(t, p, l))
  {
    var t := Run(ring, INITIAL, labels).tables;
    if l.ReadHead? {
      if HeadAnswer(t.batches, l.head) && (p.Lost? || p.Fresh?) {
        ReadHeadTellsTheTruth(ring, labels, who, p, l.head);
      } else {
        hide ToldTheTruth, Run, HeadAnswer;
        TruthStaysHere(ring, labels, l, t, who, p);
      }
    } else {
      hide ToldTheTruth, Run, ReadStep;
      if l.LookUp? || l.Reread? {
        FindTellsTheTruth(ring, labels, t, who, p, l);
      } else {
        LookupTellsTheTruth(ring, labels, t, who, p, l);
      }
    }
  }

  /** Why the insert may answer what it does. */
  ghost predicate Reason(labels: seq<Label>, t: Tables, who: nat, sub: Submission, stored: Stored) {
    match stored
    case Created(row) => row < |t.batches| && t.batches[row].identity == sub.identity
    case Replayed(row) => row < |t.batches| && t.batches[row].identity == sub.identity
    case SlotTaken => Extended(t.batches, sub.firstPrev)
    case KeyConflict => OtherKey(t, sub)
    case DbFailure => Troubled(labels, who)
  }

  lemma ReasonIsTold(ring: KeyRing, labels: seq<Label>, t: Tables, who: nat, sub: Submission, stored: Stored)
    requires Reason(labels, t, who, sub, stored)
    ensures ToldTheTruth(ring, labels + [Insert(who)], t, who, AfterInsert(sub, stored))
  {
    hide WasHead, Troubled, Extended;
    if stored.DbFailure? { TroubledGrows(labels, Insert(who), who); }
  }

  lemma InsertHasReason(ring: KeyRing, labels: seq<Label>, t: Tables, who: nat, p: Submitter)
    requires p.Verifying? && Decoded(p.sub) && |p.answers| == |p.sub.events|
    requires ToldTheTruth(ring, labels, t, who, p)
    ensures
      var (t', stored) := InsertStep(ring, t, p.sub, p.answers);
      Reason(labels, t', who, p.sub, stored)
  {
    InsertDecides(ring, t, p.sub, p.answers);
    hide WasHead, Troubled, Extended, InsertStep, Sound, OtherKey, Known, Decoded, WellFormed, NeedsLookup;
    if Unanswered(ring(p.sub.fingerprint), p.sub.events, p.answers) {
      var i :| 0 <= i < |p.answers| && p.answers[i].DbError?;
    }
  }

  lemma InsertTellsTheTruth(ring: KeyRing, labels: seq<Label>, who: nat, p: Submitter)
    requires p.Verifying? && Decoded(p.sub) && |p.answers| == |p.sub.events|
    requires ToldTheTruth(ring, labels, Run(ring, INITIAL, labels).tables, who, p)
    ensures
      var t := Run(ring, INITIAL, labels).tables;
      var (t', stored) := InsertStep(ring, t, p.sub, p.answers);
      ToldTheTruth(ring, labels + [Insert(who)], t', who, AfterInsert(p.sub, stored))
  {
    hide ToldTheTruth, Run, InsertStep, AfterInsert, Reason;
    var t := Run(ring, INITIAL, labels).tables;
    var (t', stored) := InsertStep(ring, t, p.sub, p.answers);
    InsertHasReason(ring, labels, t, who, p);
    ReasonIsTold(ring, labels, t', who, p.sub, stored);
  }

  ghost predicate AllToldTheTruth(ring: KeyRing, labels: seq<Label>) {
    var s := Run(ring, INITIAL, labels);
    forall w | w in s.submitters :: ToldTheTruth(ring, labels, s.tables, w, s.submitters[w])
  }

  lemma TruthStep(ring: KeyRing, labels: seq<Label>, l: Label)
    requires AllToldTheTruth(ring, labels)
    ensures
      var s := Step(ring, Run(ring, INITIAL, labels), l);
      forall w | w in s.submitters :: ToldTheTruth(ring, labels + [l], s.tables, w, s.submitters[w])
  {
    ReachableInv(ring, labels);
    var s := Run(ring, INITIAL, labels);
    StepInv(ring, s, l);
    var s' := Step(ring, s, l);
    hide ToldTheTruth, Run, Inv, InsertStep, ReadStep, AfterInsert;
    forall w | w in s'.submitters ensures ToldTheTruth(ring, labels + [l], s'.tables, w, s'.submitters[w]) {
      if w in s.submitters && (w != l.who || s'.submitters[w] == s.submitters[w]) {
        TruthStays(ring, labels, l, s.tables, s'.tables, w, s.submitters[w]);
      } else if l.Begin? {
        BeginTellsTheTruth(ring, labels, s, l);
      } else if l.Insert? {
        InsertTellsTheTruth(ring, labels, w, s.submitters[w]);
      } else {
        ReadTellsTheTruth(ring, labels, w, s.submitters[w], l);
      }
    }
  }

  lemma BeginTellsTheTruth(ring: KeyRing, labels: seq<Label>, s: State, l: Label)
    requires l.Begin? && l.who !in s.submitters && l.who in Step(ring, s, l).submitters
    ensures
      var s' := Step(ring, s, l);
      ToldTheTruth(ring, labels + [l], s'.tables, l.who, s'.submitters[l.who])
  {
  }

  lemma {:induction false} TruthInEveryRun(ring: KeyRing, labels: seq<Label>)
    ensures AllToldTheTruth(ring, labels)
  {
    hide ToldTheTruth, Step;
    if labels != [] {
      var before, l := labels[..|labels| - 1], labels[|labels| - 1];
      TruthInEveryRun(ring, before);
      TruthStep(ring, before, l);
      assert labels == before + [l];
      assert Run(ring, INITIAL, labels) == Step(ring, Run(ring, INITIAL, before), l);
    }
  }

  /**
    In every run every answer is true.  A submitter is told that its evidence was accepted
    only if the row has its identity; of a key conflict only if another key is registered;
    of a mismatch only with what was the head of the stream at some point of the run, and
    only if that is not where its batch wants to continue; of an error only if one of its
    own steps failed.  And a submitter that lost its position finds it taken.
   */
  lemma AnswersAreTrue(ring: KeyRing, labels: seq<Label>, who: nat)
    requires who in Run(ring, INITIAL, labels).submitters
    ensures
      var s := Run(ring, INITIAL, labels);
      var p, t := s.submitters[who], s.tables;
      && (p.Lost? ==> Extended(t.batches, p.sub.firstPrev))
      && (p.Done? ==> ReplyTrue(ring, labels, t, who, p.sub, p.reply))
  {
    hide ReplyTrue, Run, Extended;
    TruthInEveryRun(ring, labels);
  }

  // ---------------------------------------------------------------------------------
  // Every row has one creator
  // ---------------------------------------------------------------------------------

  predicate IsCreator(p: Submitter, row: nat) { p.Done? && p.reply == Accepted(row, true) }

  ghost predicate HasCreator(s: State, row: nat) { exists w | w in s.submitters :: IsCreator(s.submitters[w], row) }

  ghost predicate OneCreatorEach(s: State) {
    && (forall row: nat | row < |s.tables.batches| :: HasCreator(s, row))
    && (forall row: nat, w, w' | w in s.submitters && w' in s.submitters ::
          IsCreator(s.submitters[w], row) && IsCreator(s.submitters[w'], row) ==> w == w')
    && (forall row: nat, w | w in s.submitters :: IsCreator(s.submitters[w], row) ==> row < |s.tables.batches|)
  }

  /** One submitter moved, and what it created is what was appended. */
  lemma CreatorMoves(s: State, t': Tables, who: nat, p: Submitter)
    requires OneCreatorEach(s) && (who in s.submitters ==> !s.submitters[who].Done? || p == s.submitters[who])
    requires s.tables.batches <= t'.batches && |t'.batches| <= |s.tables.batches| + 1
    requires forall row: nat :: IsCreator(p, row) ==>
      (who in s.submitters && p == s.submitters[who]) || (row == |s.tables.batches| < |t'.batches|)
    requires |t'.batches| > |s.tables.batches| ==> IsCreator(p, |s.tables.batches|)
    ensures OneCreatorEach(State(t', s.submitters[who := p]))
  {
    var s' := State(t', s.submitters[who := p]);
    forall row: nat | row < |t'.batches| ensures HasCreator(s', row) {
      if row < |s.tables.batches| {
        assert HasCreator(s, row);
        var w :| w in s.submitters && IsCreator(s.submitters[w], row);
        assert IsCreator(s'.submitters[w], row);
      } else {
        assert IsCreator(s'.submitters[who], row);
      }
    }
  }

  lemma CreatorsStep(ring: KeyRing, s: State, l: Label)
    requires OneCreatorEach(s)
    ensures OneCreatorEach(Step(ring, s, l))
  {
    hide OneCreatorEach, Verdict, InsertEvents, HeadAnswer, Admissible, Decoded;
    var s' := Step(ring, s, l);
    if l.who in s'.submitters && s' != s {
      CreatorMoves(s, s'.tables, l.who, s'.submitters[l.who]);
      assert s' == State(s'.tables, s.submitters[l.who := s'.submitters[l.who]]);
    }
  }

  /** In every run each row was created by exactly one submitter; everybody else was given it as known. */
  lemma {:induction false} EveryRowHasOneCreator(ring: KeyRing, labels: seq<Label>)
    ensures OneCreatorEach(Run(ring, INITIAL, labels))
  {
    if labels != [] {
      hide OneCreatorEach, Step;
      EveryRowHasOneCreator(ring, labels[..|labels| - 1]);
      CreatorsStep(ring, Run(ring, INITIAL, labels[..|labels| - 1]), labels[|labels| - 1]);
    }
  }

  // ---------------------------------------------------------------------------------
  // Which answer a submitter gets
  // ---------------------------------------------------------------------------------

  /** The submitter has been given a row it did not create. */
  predicate Replays(t: Tables, p: Submitter, sub: Submission) {
    && p.Done? && p.sub == sub && p.reply.Accepted? && !p.reply.created
    && p.reply.row < |t.batches| && t.batches[p.reply.row].identity == sub.identity
  }

  /**
    The insert, from every reachable state: an unanswered lookup is an error; a sound batch
    under another key than the stream's is a key conflict; known evidence is given its row;
    a sound batch at a taken position has lost; and only what is left is stored, verified
    exactly if it is sound.
   */
  lemma InsertAnswers(ring: KeyRing, labels: seq<Label>, who: nat)
    requires
      var s := Run(ring, INITIAL, labels);
      who in s.submitters && s.submitters[who].Verifying? && |s.submitters[who].answers| == |s.submitters[who].sub.events|
    ensures
      var s := Run(ring, INITIAL, labels);
      var s' := Step(ring, s, Insert(who));
      var t, p, n := s.tables, s.submitters[who], |s.tables.batches|;
      var sub := p.sub;
      var sound := Sound(ring, sub, p.answers);
      && who in s'.submitters
      && var p' := s'.submitters[who];
         if Unanswered(ring(sub.fingerprint), sub.events, p.answers) then s'.tables == t && p' == Done(sub, Error)
         else if sound && OtherKey(t, sub) then s'.tables == t && p' == Done(sub, WrongKey)
         else if Known(t.batches, sub.identity) then s'.tables == t && Replays(t, p', sub)
         else if sound && Extended(t.batches, sub.firstPrev) then s'.tables == t && p' == Lost(sub)
         else
           && p' == Done(sub, Accepted(n, true)) && |s'.tables.batches| == n + 1 && s'.tables.batches[..n] == t.batches
           && RowFor(s'.tables.batches[n], sub, sound)
  {
    var s := Run(ring, INITIAL, labels);
    var p := s.submitters[who];
    assert Decoded(p.sub) by { ReachableInv(ring, labels); }
    InsertDecides(ring, s.tables, p.sub, p.answers);
    InsertIs(ring, s, who);
    hide Run, Step, Sound, Unanswered, OtherKey, Known, Extended, InsertStep, RowFor, Decoded;
  }

  lemma InsertIs(ring: KeyRing, s: State, who: nat)
    requires who in s.submitters && s.submitters[who].Verifying? && Decoded(s.submitters[who].sub)
    requires |s.submitters[who].answers| == |s.submitters[who].sub.events|
    ensures
      var p := s.submitters[who];
      var (t', stored) := InsertStep(ring, s.tables, p.sub, p.answers);
      Step(ring, s, Insert(who)) == State(t', s.submitters[who := AfterInsert(p.sub, stored)])
  {
    hide InsertStep, AfterInsert, Decoded;
  }

  /** A batch that lost its position is told the stream's head, and nothing has changed. */
  lemma LoserIsToldTheHead(ring: KeyRing, labels: seq<Label>, who: nat)
    requires
      var s := Run(ring, INITIAL, labels);
      && who in s.submitters && s.submitters[who].Verifying?
      && |s.submitters[who].answers| == |s.submitters[who].sub.events|
      && var p := s.submitters[who];
         && Sound(ring, p.sub, p.answers)
         && !OtherKey(s.tables, p.sub) && !Known(s.tables.batches, p.sub.identity)
         && Extended(s.tables.batches, p.sub.firstPrev)
    ensures
      var s := Run(ring, INITIAL, labels);
      var head := HeadBefore(Chain(s.tables.batches), |Chain(s.tables.batches)|);
      var s' := Run(ring, s, [Insert(who)] + [ReadHead(who, head)]);
      s'.tables == s.tables && who in s'.submitters && s'.submitters[who] == Done(s.submitters[who].sub, Mismatch(head))
  {
    InsertAnswers(ring, labels, who);
    var s := Run(ring, INITIAL, labels);
    var p := s.submitters[who];
    SoundIsAnswered(ring, p.sub, p.answers);
    assert Unforked(Chain(s.tables.batches)) by { ReachableInv(ring, labels); }
    EndIsFree(s.tables.batches);
    var head := HeadBefore(Chain(s.tables.batches), |Chain(s.tables.batches)|);
    RunConcat(ring, s, [Insert(who)], [ReadHead(who, head)]);
    RunOne(ring, s, Insert(who));
    RunOne(ring, Step(ring, s, Insert(who)), ReadHead(who, head));
    hide Run, Extended, Sound, Unforked, HeadAnswer, InsertStep, Unanswered;
  }

  /** Who may submit: one to five hundred events, each claiming a hash, the first one where the request says. */
  lemma AdmittedIff(ring: KeyRing, s: State, who: nat, sub: Submission)
    requires who !in s.submitters
    ensures who in Step(ring, s, Begin(who, sub)).submitters <==>
      && 1 <= |sub.events| <= 500
      && (forall e | e in sub.events :: HexHash(Get(e, EventHash)))
      && (sub.firstPrev.Some? ==> HexHash(sub.firstPrev.value))
      && sub.firstPrev == (if Textual(Get(sub.events[0], PreviousEventHash)) then Some(Get(sub.events[0], PreviousEventHash)) else None)
  {
    forall i | 0 <= i < |sub.events| ensures IsHash(Get(sub.events[i], EventHash)) <==> HexHash(Get(sub.events[i], EventHash)) {
      HashIs(Get(sub.events[i], EventHash));
    }
    if sub.firstPrev.Some? { HashIs(sub.firstPrev.value); }
    hide IsHash, HexHash;
  }

  /** Under another key than the stream's nothing is even looked up. */
  lemma OtherKeyIsRefused(ring: KeyRing, s: State, who: nat, sub: Submission)
    requires who !in s.submitters && Decoded(sub)
    ensures
      var s' := Step(ring, s, Begin(who, sub));
      s'.tables == s.tables && who in s'.submitters && (s'.submitters[who] == Done(sub, WrongKey) <==> OtherKey(s.tables, sub))
  {
  }

  /** Known evidence, verified or rejected, is given its row again, and nothing changes. */
  lemma KnownEvidenceIsReplayed(ring: KeyRing, s: State, who: nat, sub: Submission)
    requires who !in s.submitters && Decoded(sub) && !OtherKey(s.tables, sub) && Known(s.tables.batches, sub.identity)
    ensures
      var s' := Run(ring, s, [Begin(who, sub)] + [LookUp(who)]);
      s'.tables == s.tables && who in s'.submitters && Replays(s.tables, s'.submitters[who], sub)
  {
    RunConcat(ring, s, [Begin(who, sub)], [LookUp(who)]);
    RunOne(ring, s, Begin(who, sub));
    RunOne(ring, Step(ring, s, Begin(who, sub)), LookUp(who));
    hide Run, Decoded;
  }

  /** New evidence that does not continue at the head is turned away with the head, and nothing changes. */
  lemma StaleEvidenceIsTurnedAway(ring: KeyRing, labels: seq<Label>, who: nat, sub: Submission)
    requires
      var s := Run(ring, INITIAL, labels);
      && who !in s.submitters && Decoded(sub) && !OtherKey(s.tables, sub) && !Known(s.tables.batches, sub.identity)
      && sub.firstPrev != HeadBefore(Chain(s.tables.batches), |Chain(s.tables.batches)|)
    ensures
      var s := Run(ring, INITIAL, labels);
      var head := HeadBefore(Chain(s.tables.batches), |Chain(s.tables.batches)|);
      var s' := Run(ring, s, [Begin(who, sub)] + [LookUp(who)] + [ReadHead(who, head)] + [Reread(who)]);
      s'.tables == s.tables && who in s'.submitters && s'.submitters[who] == Done(sub, Mismatch(head))
  {
    var s := Run(ring, INITIAL, labels);
    assert Unforked(Chain(s.tables.batches)) by { ReachableInv(ring, labels); }
    EndIsFree(s.tables.batches);
    var head := HeadBefore(Chain(s.tables.batches), |Chain(s.tables.batches)|);
    var begin, look, read, again := Begin(who, sub), LookUp(who), ReadHead(who, head), Reread(who);
    hide Run, Decoded, Unforked, HeadAnswer;
    var s1 := Step(ring, s, begin);
    var s2 := Step(ring, s1, look);
    var s3 := Step(ring, s2, read);
    RunOne(ring, s, begin);
    RunOne(ring, s1, look);
    RunOne(ring, s2, read);
    RunOne(ring, s3, again);
    RunConcat(ring, s, [begin], [look]);
    RunConcat(ring, s, [begin] + [look], [read]);
    RunConcat(ring, s, [begin] + [look] + [read], [again]);
    assert FindContent(s.tables.batches, sub.identity).None?;
  }

  /**
    Evidence that was stored by somebody else after it was looked up, and whose position is
    no longer the head, is given its row rather than turned away from its own evidence.
   */
  lemma RacedEvidenceIsReplayed(ring: KeyRing, labels: seq<Label>, who: nat, sub: Submission)
    requires
      var s := Run(ring, INITIAL, labels);
      && who in s.submitters && s.submitters[who] == Fresh(sub) && Known(s.tables.batches, sub.identity)
      && sub.firstPrev != HeadBefore(Chain(s.tables.batches), |Chain(s.tables.batches)|)
    ensures
      var s := Run(ring, INITIAL, labels);
      var head := HeadBefore(Chain(s.tables.batches), |Chain(s.tables.batches)|);
      var s' := Run(ring, s, [ReadHead(who, head)] + [Reread(who)]);
      s'.tables == s.tables && who in s'.submitters && Replays(s.tables, s'.submitters[who], sub)
  {
    var s := Run(ring, INITIAL, labels);
    assert Unforked(Chain(s.tables.batches)) by { ReachableInv(ring, labels); }
    EndIsFree(s.tables.batches);
    var head := HeadBefore(Chain(s.tables.batches), |Chain(s.tables.batches)|);
    hide Run, Step, Unforked, HeadAnswer, Known, Chain, ReadStep, Replays;
    var s1 := Step(ring, s, ReadHead(who, head));
    RunOne(ring, s, ReadHead(who, head));
    RunOne(ring, s1, Reread(who));
    RunConcat(ring, s, [ReadHead(who, head)], [Reread(who)]);
    ReadIs(ring, s, ReadHead(who, head));
    ReadIs(ring, s1, Reread(who));
    BecomesStale(s.tables, who, sub, head);
    RereadFinds(s.tables, who, sub, head);
  }

  /** A step that reads moves one submitter. */
  lemma ReadIs(ring: KeyRing, s: State, l: Label)
    requires !l.Begin? && !l.Insert? && l.who in s.submitters
    ensures Step(ring, s, l) == s.(submitters := s.submitters[l.who := ReadStep(s.tables, s.submitters[l.who], l)])
  {
    hide ReadStep;
  }

  lemma BecomesStale(t: Tables, who: nat, sub: Submission, head: Option<Value>)
    requires HeadAnswer(t.batches, head) && head != sub.firstPrev
    ensures ReadStep(t, Fresh(sub), ReadHead(who, head)) == Stale(sub, head)
  {
    hide HeadAnswer;
  }

  lemma RereadFinds(t: Tables, who: nat, sub: Submission, head: Option<Value>)
    requires Known(t.batches, sub.identity)
    ensures Replays(t, ReadStep(t, Stale(sub, head), Reread(who)), sub)
  {
    KnownIff(t.batches, sub.identity);
  }

  // ---------------------------------------------------------------------------------
  // What lookups see
  // ---------------------------------------------------------------------------------

  /**
    In every run the store knows a decision exactly if the recorded history holds it, so an
    outcome finds its decision whichever earlier batch it came in.
   */
  lemma LookupsSeeTheHistory(ring: KeyRing, labels: seq<Label>, id: Value, decision: Value)
    ensures
      var t := Run(ring, INITIAL, labels).tables;
      StoredDecision(t.events, id, decision) <==>
      exists e | e in History(Chain(t.batches)) ::
        Get(e, EventType) == Text("decision") && Get(e, EventId) == id && Get(e, Decision) == decision
  {
    ReachableInv(ring, labels);
    var t := Run(ring, INITIAL, labels).tables;
    hide Run, Unforked, RowsOk, OutcomesAllowed, SubmitterOk;
    if StoredDecision(t.events, id, decision) {
      StoredIsRecorded(t, id, decision);
    }
    if e :| e in History(Chain(t.batches))
            && Get(e, EventType) == Text("decision") && Get(e, EventId) == id && Get(e, Decision) == decision
    {
      RecordedIsStored(t, e);
      assert IsDecision(t.events[HashOf(e)].event);
    }
  }

  lemma StoredIsRecorded(t: Tables, id: Value, decision: Value)
    requires OnlyStored(t) && StoredDecision(t.events, id, decision)
    ensures exists e | e in History(Chain(t.batches)) ::
      Get(e, EventType) == Text("decision") && Get(e, EventId) == id && Get(e, Decision) == decision
  {
    var h :| h in t.events && IsDecision(t.events[h].event)
          && Get(t.events[h].event, EventId) == id && Get(t.events[h].event, Decision) == decision;
    var k := StoredIsHistory(t, h);
    assert t.events[h].event in History(Chain(t.batches));
  }

  lemma RecordedIsStored(t: Tables, e: Event)
    requires AllStored(t) && e in History(Chain(t.batches))
    ensures HashOf(e) in t.events && t.events[HashOf(e)].event == e
  {
    var b := HistorySource(Chain(t.batches), e);
    ChainMember(t.batches, b);
    var n :| 0 <= n < |t.batches| && t.batches[n] == b;
    assert StoredAs(t.events, n, b.content);
    var i :| 0 <= i < |b.content| && b.content[i] == e;
  }

  lemma {:induction false} HistorySource(chain: seq<Batch>, e: Event) returns (b: Batch)
    requires e in History(chain)
    ensures b in chain && e in b.content
  {
    var n := |chain| - 1;
    if e in chain[n].content {
      b := chain[n];
    } else {
      b := HistorySource(chain[..n], e);
    }
  }
}
