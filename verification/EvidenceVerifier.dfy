/**
  The batch verifier as the source runs it (one pass, mutable maps, a bounded issue
  list), and what its verdict means for the whole list of events
  (api/evidence_verify.go).
 */
module EvidenceVerifier {
  import opened Prelude
  import opened Sequences
  import opened EvidenceEvents
  import opened EvidenceForm

  function AddIssue(issues: seq<Issue>, i: nat, code: Code): seq<Issue> {
    if |issues| < MAX_ISSUES then issues + [Issue(i, code)] else issues
  }

  lemma AddIssueCaps(all: seq<Issue>, i: nat, code: Code)
    ensures AddIssue(Cap(all), i, code) == Cap(all + [Issue(i, code)])
  {
    if |all| >= MAX_ISSUES {
      assert (all + [Issue(i, code)])[..MAX_ISSUES] == all[..MAX_ISSUES];
    }
  }

  /** The decisions map of the loop holds exactly the latest decision of every id. */
  ghost predicate Tracks(decisions: map<Value, Value>, events: seq<Event>, n: nat)
    requires n <= |events|
  {
    forall id :: LatestDecision(events, n, id) == if id in decisions then Some(decisions[id]) else None
  }

  /** The outcomes set of the loop holds exactly the references already used. */
  ghost predicate TracksOutcomes(seen: set<Value>, events: seq<Event>, answers: seq<Answer>, n: nat)
    requires |answers| == |events| && n <= |events|
  {
    forall id :: id in seen <==> OutcomeSeen(events, answers, n, id)
  }

  /** Reporting a code under a condition keeps the capped list in step with the full one. */
  lemma AddWhen(all: seq<Issue>, b: bool, i: nat, code: Code)
    ensures (if b then AddIssue(Cap(all), i, code) else Cap(all)) == Cap(all + When(b, i, code))
  {
    if b { AddIssueCaps(all, i, code); } else { assert all + [] == all; }
  }

  /** Chain linkage, hash integrity, key, signature and the type's own value field. */
  method VerifyFields(v: Verifier, e: Event, i: nat, expected: Option<Value>, issues: seq<Issue>, ghost all: seq<Issue>)
    returns (issues': seq<Issue>, ok: bool)
    requires issues == Cap(all)
    ensures issues' == Cap(all + LinkIssues(e, expected, i) + HashIssues(e, i) + KeyIssues(v, e, i) + FieldIssues(e, i))
    ensures ok <==> LinkIssues(e, expected, i) + HashIssues(e, i) + KeyIssues(v, e, i) + FieldIssues(e, i) == []
  {
    issues', ok := issues, true;
    AddWhen(all, PreviousOf(e) != expected, i, ChainBreak);
    if PreviousOf(e) != expected {
      issues', ok := AddIssue(issues', i, ChainBreak), false;
    }
    ghost var all1 := all + LinkIssues(e, expected, i);
    AddWhen(all1, HashOf(e) != Get(e, EventHash), i, HashMismatch);
    if HashOf(e) != Get(e, EventHash) {
      issues', ok := AddIssue(issues', i, HashMismatch), false;
    }
    ghost var all2 := all1 + HashIssues(e, i);
    if Get(e, KeyId) != v.keyId {
      AddIssueCaps(all2, i, UnknownKey);
      issues', ok := AddIssue(issues', i, UnknownKey), false;
    } else {
      AddWhen(all2, !v.signed(Unsigned(e), Get(e, Signature)), i, BadSignature);
      if !v.signed(Unsigned(e), Get(e, Signature)) {
        issues', ok := AddIssue(issues', i, BadSignature), false;
      }
    }
    ghost var all3 := all2 + KeyIssues(v, e, i);
    var valueOk := if IsDecision(e) then IsDecisionValue(Get(e, Decision)) else IsOutcomeStatus(Get(e, Status));
    AddWhen(all3, !valueOk, i, InvalidField);
    if !valueOk {
      issues', ok := AddIssue(issues', i, InvalidField), false;
    }
  }

  /** The decision an outcome refers to, and what the event adds to the loop's maps. */
  method VerifyTransition(events: seq<Event>, answers: seq<Answer>, i: nat,
                          decisions: map<Value, Value>, seen: set<Value>,
                          issues: seq<Issue>, ghost all: seq<Issue>)
    returns (issues': seq<Issue>, decisions': map<Value, Value>, seen': set<Value>, ok: bool, failed: bool)
    requires |answers| == |events| && i < |events|
    requires issues == Cap(all)
    requires Tracks(decisions, events, i) && TracksOutcomes(seen, events, answers, i)
    ensures failed <==> NeedsLookup(events, i) && answers[i].DbError?
    ensures !failed ==> Tracks(decisions', events, i + 1) && TracksOutcomes(seen', events, answers, i + 1)
    ensures !failed ==> issues' == Cap(all + TransitionIssues(events, answers, i))
    ensures !failed ==> (ok <==> TransitionIssues(events, answers, i) == [])
  {
    var e := events[i];
    issues', decisions', seen', ok, failed := issues, decisions, seen, true, false;
    assert all + [] == all;
    SeenStep(seen, events, answers, i);
    if IsDecision(e) {
      if IsDecisionValue(Get(e, Decision)) {
        decisions' := decisions[Get(e, EventId) := Get(e, Decision)];
      }
      return;
    }
    var id := Reference(e);
    if !HasReference(e) {
      AddIssueCaps(all, i, InvalidField);
      issues', ok := AddIssue(issues', i, InvalidField), false;
      return;
    }
    var known := id in decisions;
    var decision := if known then decisions[id] else Null;
    if !known {
      match answers[i]
      case Found(stored) => known, decision := true, stored;
      case DbError => failed := true; return;
      case NoRows =>
    }
    assert Resolve(events, answers, i) == if known then Some(decision) else None;
    if !known {
      AddIssueCaps(all, i, UnknownDecisionReference);
      issues', ok := AddIssue(issues', i, UnknownDecisionReference), false;
    } else if decision == Text("denied") || id in seen {
      AddIssueCaps(all, i, InvalidTransition);
      issues', ok := AddIssue(issues', i, InvalidTransition), false;
    } else {
      seen' := seen + {id};
    }
  }

  /** One more event: a reference is used iff it was used before or this event uses it. */
  lemma SeenStep(seen: set<Value>, events: seq<Event>, answers: seq<Answer>, i: nat)
    requires |answers| == |events| && i < |events|
    requires TracksOutcomes(seen, events, answers, i)
    ensures forall id :: OutcomeSeen(events, answers, i + 1, id) <==>
                         (id in seen || (Permitted(events, answers, i) && Reference(events[i]) == id))
  {
    forall id
      ensures OutcomeSeen(events, answers, i + 1, id) <==>
              (id in seen || (Permitted(events, answers, i) && Reference(events[i]) == id))
    {
      if id in seen {
        var j :| 0 <= j < i && Permitted(events, answers, j) && Reference(events[j]) == id;
      }
    }
  }

  /** An event whose payload has no canonical encoding: only its link has been checked. */
  method VerifyUnencodable(e: Event, i: nat, expected: Option<Value>, issues: seq<Issue>, ghost all: seq<Issue>)
    returns (issues': seq<Issue>)
    requires issues == Cap(all)
    ensures issues' == Cap(all + (LinkIssues(e, expected, i) + [Issue(i, InvalidField)]))
  {
    issues' := issues;
    AddWhen(all, PreviousOf(e) != expected, i, ChainBreak);
    if PreviousOf(e) != expected {
      issues' := AddIssue(issues', i, ChainBreak);
    }
    AddIssueCaps(all + LinkIssues(e, expected, i), i, InvalidField);
    assert all + LinkIssues(e, expected, i) + [Issue(i, InvalidField)] ==
           all + (LinkIssues(e, expected, i) + [Issue(i, InvalidField)]);
    issues' := AddIssue(issues', i, InvalidField);
  }

  lemma FatalsSayWhy(v: Verifier, events: seq<Event>, firstPrev: Option<Value>)
    ensures
      var fatals := Fatals(v, events, firstPrev);
      forall k | 0 <= k < |fatals| && fatals[k].Some? :: fatals[k].value != []
  {
  }

  /** One turn of the loop on a well-formed event. */
  method VerifyEvent(v: Verifier, events: seq<Event>, firstPrev: Option<Value>, answers: seq<Answer>, i: nat,
                     expectedPrev: Option<Value>, decisions: map<Value, Value>, seen: set<Value>,
                     issues: seq<Issue>, ghost all: seq<Issue>)
    returns (issues': seq<Issue>, decisions': map<Value, Value>, seen': set<Value>, ok: bool, failed: bool)
    requires |answers| == |events| && i < |events|
    requires issues == Cap(all)
    requires expectedPrev == ExpectedPrevious(events, firstPrev, i)
    requires Tracks(decisions, events, i) && TracksOutcomes(seen, events, answers, i)
    ensures failed <==> NeedsLookup(events, i) && answers[i].DbError?
    ensures !failed ==> Tracks(decisions', events, i + 1) && TracksOutcomes(seen', events, answers, i + 1)
    ensures !failed ==> issues' == Cap(all + IssuesAt(v, events, firstPrev, answers, i))
    ensures !failed ==> (ok <==> IssuesAt(v, events, firstPrev, answers, i) == [])
  {
    hide LinkIssues, HashIssues, KeyIssues, FieldIssues, TransitionIssues, Cap, NeedsLookup, Tracks, TracksOutcomes;
    var e := events[i];
    var fieldsOk, transitionOk;
    issues', fieldsOk := VerifyFields(v, e, i, expectedPrev, issues, all);
    ghost var found := LinkIssues(e, expectedPrev, i) + HashIssues(e, i) + KeyIssues(v, e, i) + FieldIssues(e, i);
    assert all + LinkIssues(e, expectedPrev, i) + HashIssues(e, i) + KeyIssues(v, e, i) + FieldIssues(e, i) == all + found;
    issues', decisions', seen', transitionOk, failed :=
      VerifyTransition(events, answers, i, decisions, seen, issues', all + found);
    ghost var wrong := WrongAt(v, events, firstPrev, answers, i);
    assert all + found + TransitionIssues(events, answers, i) == all + wrong;
    ok := fieldsOk && transitionOk;
    AddWhen(all + wrong, wrong == [] && !v.encodes(e), i, InvalidField);
    assert all + wrong + When(wrong == [] && !v.encodes(e), i, InvalidField) ==
           all + IssuesAt(v, events, firstPrev, answers, i);
    if !failed && ok && !v.encodes(e) {
      issues', ok := AddIssue(issues', i, InvalidField), false;
    }
  }

  /** How the three ways out of the loop relate to the verdict on the whole list. */
  lemma LoopExits(fatals: seq<Option<seq<Issue>>>, defects: seq<seq<Issue>>, failures: seq<bool>, records: seq<Record>, i: nat)
    requires |fatals| == |defects| == |failures| && i <= |fatals|
    requires Stop(fatals, 0) == Stop(fatals, i)
    requires true !in failures[..i]
    requires forall k | 0 <= k < |fatals| && fatals[k].Some? :: fatals[k].value != []
    ensures i < |fatals| && fatals[i].Some? ==>
              Judge(fatals, defects, failures, records) ==
              Rejected(Cap(Concat(defects[..i]) + fatals[i].value))
    ensures i < |fatals| && fatals[i].None? && failures[i] ==>
              Judge(fatals, defects, failures, records) == LookupFailed
    ensures i == |fatals| ==>
              Judge(fatals, defects, failures, records) ==
              if Concat(defects[..i]) == [] then Verified(records) else Rejected(Cap(Concat(defects[..i])))
  {
    if i < |fatals| && fatals[i].None? && failures[i] {
      assert failures[..Stop(fatals, 0)][i];
    }
  }

  lemma Lengths(v: Verifier, events: seq<Event>, firstPrev: Option<Value>, answers: seq<Answer>)
    requires |answers| == |events|
    ensures |Fatals(v, events, firstPrev)| == |Defects(v, events, firstPrev, answers)| == |events|
    ensures |Failures(events, answers)| == |Records(events)| == |events|
  {
  }

  lemma At(v: Verifier, events: seq<Event>, firstPrev: Option<Value>, answers: seq<Answer>, i: nat)
    requires |answers| == |events| && i < |events|
    ensures Fatals(v, events, firstPrev)[i] == FatalIssues(v, events, firstPrev, i)
    ensures Defects(v, events, firstPrev, answers)[i] == IssuesAt(v, events, firstPrev, answers, i)
    ensures Failures(events, answers)[i] == (NeedsLookup(events, i) && answers[i].DbError?)
    ensures Records(events)[i] == RecordOf(events[i])
  {
    hide FatalIssues, IssuesAt, NeedsLookup, RecordOf;
  }

  lemma NothingTracked(events: seq<Event>, answers: seq<Answer>)
    requires |answers| == |events|
    ensures Tracks(map[], events, 0) && TracksOutcomes({}, events, answers, 0)
  {
  }

  /**
    The verifier.  `answers[i]` is what the store says if event `i` needs a lookup; the
    lookups of one batch are separate queries, so equal ids may be answered differently.
   */
  method VerifyEvidenceEvents(v: Verifier, events: seq<Event>, firstPrev: Option<Value>, answers: seq<Answer>)
    returns (r: Outcome)
    requires |answers| == |events|
    ensures r == Verdict(v, events, firstPrev, answers)
  {
    hide FormCode, IssuesAt, LinkIssues, Judge, AddIssue, NeedsLookup, RecordOf, Tracks, TracksOutcomes;
    Lengths(v, events, firstPrev, answers);
    hide Fatals, Defects, Failures, Records;
    ghost var fatals, defects := Fatals(v, events, firstPrev), Defects(v, events, firstPrev, answers);
    ghost var failures, records := Failures(events, answers), Records(events);
    NothingTracked(events, answers);
    var issues: seq<Issue>, verified: seq<Record> := [], [];
    var expectedPrev := firstPrev;
    var decisions: map<Value, Value>, seen: set<Value> := map[], {};
    FatalsSayWhy(v, events, firstPrev);
    for i := 0 to |events|
      invariant Stop(fatals, 0) == Stop(fatals, i)
      invariant issues == Cap(Concat(defects[..i]))
      invariant expectedPrev == ExpectedPrevious(events, firstPrev, i)
      invariant Tracks(decisions, events, i) && TracksOutcomes(seen, events, answers, i)
      invariant true !in failures[..i]
      invariant issues == [] ==> verified == records[..i]
    {
      var e := events[i];
      LoopExits(fatals, defects, failures, records, i);
      At(v, events, firstPrev, answers, i);
      var form := FormCode(v, e);
      if form.Some? {
        AddIssueCaps(Concat(defects[..i]), i, form.value);
        return Rejected(AddIssue(issues, i, form.value));
      }
      if !v.encodes(Unsigned(e)) {
        issues := VerifyUnencodable(e, i, expectedPrev, issues, Concat(defects[..i]));
        return Rejected(issues);
      }
      var ok, failed;
      issues, decisions, seen, ok, failed :=
        VerifyEvent(v, events, firstPrev, answers, i, expectedPrev, decisions, seen, issues, Concat(defects[..i]));
      if failed {
        return LookupFailed;
      }
      StepFacts(defects, failures, records, i);
      if ok {
        verified := verified + [RecordOf(e)];
      }
      expectedPrev := Some(Get(e, EventHash));
    }
    LoopExits(fatals, defects, failures, records, |events|);
    assert records[..|events|] == records;
    r := if issues != [] then Rejected(issues) else Verified(verified);
  }

  lemma StepFacts(defects: seq<seq<Issue>>, failures: seq<bool>, records: seq<Record>, i: nat)
    requires |defects| == |failures| == |records| && i < |defects|
    ensures Concat(defects[..i + 1]) == Concat(defects[..i]) + defects[i]
    ensures failures[..i + 1] == failures[..i] + [failures[i]]
    ensures records[..i + 1] == records[..i] + [records[i]]
  {
    ConcatTake(defects, i);
  }

  // ---------------------------------------------------------------------------------
  // What the verdict means
  // ---------------------------------------------------------------------------------

  /** The recomputed hash of what comes before index `i` of a chain that starts after `start`. */
  function Before(es: seq<Event>, start: Option<Value>, i: nat): Option<Value>
    requires i <= |es|
  {
    if i == 0 then start else Some(HashOf(es[i - 1]))
  }

  /** `es` is a hash chain that starts after `start`, and each event claims its own hash. */
  ghost predicate Linked(es: seq<Event>, start: Option<Value>) {
    forall i {:trigger Before(es, start, i)} | 0 <= i < |es| ::
      PreviousOf(es[i]) == Before(es, start, i) && Get(es[i], EventHash) == HashOf(es[i])
  }

  /** The event is well formed, of this key, and its signature covers its payload. */
  ghost predicate Authentic(v: Verifier, e: Event) {
    && WellFormed(v, e)
    && v.encodes(Unsigned(e)) && v.encodes(e)
    && Get(e, KeyId) == v.keyId
    && v.signed(Unsigned(e), Get(e, Signature))
    && (Get(e, EventType) == Text("decision") ==>
          Get(e, Decision) == Text("allowed") || Get(e, Decision) == Text("denied"))
    && (Get(e, EventType) == Text("outcome") ==>
          && (Get(e, Status) == Text("succeeded") || Get(e, Status) == Text("failed"))
          && Textual(Get(e, DecisionEventId)) && Get(e, DecisionEventId) != Text(""))
  }

  ghost predicate AllAuthentic(v: Verifier, es: seq<Event>) {
    forall i | 0 <= i < |es| :: Authentic(v, es[i])
  }

  /** Each outcome has a known, undenied decision, and no two share one. */
  ghost predicate Ordered(events: seq<Event>, answers: seq<Answer>)
    requires |answers| == |events|
  {
    forall i | 0 <= i < |events| && IsOutcome(events[i]) ::
      && Resolve(events, answers, i).Some?
      && Resolve(events, answers, i).value != Text("denied")
      && forall j | 0 <= j < i :: IsOutcome(events[j]) ==> Reference(events[j]) != Reference(events[i])
  }

  ghost predicate BatchVerified(v: Verifier, events: seq<Event>, firstPrev: Option<Value>, answers: seq<Answer>)
    requires |answers| == |events|
  {
    && Linked(events, firstPrev)
    && AllAuthentic(v, events)
    && Ordered(events, answers)
  }

  lemma DecisionOrOutcome(v: Verifier, e: Event)
    requires WellFormed(v, e)
    ensures IsOutcome(e) <==> !IsDecision(e)
  {
    assert Text("decision") != Text("outcome") by { assert |"decision"| != |"outcome"|; }
  }

  /** What an event without defects satisfies. */
  ghost predicate CleanAt(v: Verifier, events: seq<Event>, firstPrev: Option<Value>, answers: seq<Answer>, i: nat)
    requires |answers| == |events| && i < |events|
  {
    && PreviousOf(events[i]) == ExpectedPrevious(events, firstPrev, i)
    && Get(events[i], EventHash) == HashOf(events[i])
    && Authentic(v, events[i])
    && (IsOutcome(events[i]) ==>
          Permitted(events, answers, i) && !OutcomeSeen(events, answers, i, Reference(events[i])))
  }

  lemma CleanEvent(v: Verifier, events: seq<Event>, firstPrev: Option<Value>, answers: seq<Answer>, i: nat)
    requires |answers| == |events| && i < |events|
    requires FatalCode(v, events[i]).None?
    requires IssuesAt(v, events, firstPrev, answers, i) == []
    ensures CleanAt(v, events, firstPrev, answers, i)
  {
    FatalCodeIs(v, events[i]);
    DecisionOrOutcome(v, events[i]);
    hide WellFormed, FatalCode;
    var e := events[i];
    assert LinkIssues(e, ExpectedPrevious(events, firstPrev, i), i) == [] && HashIssues(e, i) == []
           && KeyIssues(v, e, i) == [] && FieldIssues(e, i) == [] && TransitionIssues(events, answers, i) == [] by {
      assert WrongAt(v, events, firstPrev, answers, i) == [];
    }
  }

  /** No defect anywhere is the whole-list predicate. */
  lemma CleanBatchIsVerified(v: Verifier, events: seq<Event>, firstPrev: Option<Value>, answers: seq<Answer>)
    requires |answers| == |events|
    requires forall i | 0 <= i < |events| :: CleanAt(v, events, firstPrev, answers, i)
    ensures BatchVerified(v, events, firstPrev, answers)
  {
    forall i | 0 <= i < |events|
      ensures PreviousOf(events[i]) == Before(events, firstPrev, i) && Get(events[i], EventHash) == HashOf(events[i])
      ensures Authentic(v, events[i])
    {
      assert CleanAt(v, events, firstPrev, answers, i);
      if i > 0 { assert CleanAt(v, events, firstPrev, answers, i - 1); }
    }
    forall i, j | 0 <= j < i < |events| && IsOutcome(events[i]) && IsOutcome(events[j])
      ensures Reference(events[j]) != Reference(events[i])
    {
      assert CleanAt(v, events, firstPrev, answers, i) && CleanAt(v, events, firstPrev, answers, j);
    }
    forall i | 0 <= i < |events| && IsOutcome(events[i])
      ensures Permitted(events, answers, i)
    {
      assert CleanAt(v, events, firstPrev, answers, i);
    }
  }

  lemma NoEarlierOutcome(v: Verifier, events: seq<Event>, firstPrev: Option<Value>, answers: seq<Answer>, i: nat)
    requires |answers| == |events| && i < |events|
    requires BatchVerified(v, events, firstPrev, answers)
    requires IsOutcome(events[i])
    ensures !OutcomeSeen(events, answers, i, Reference(events[i]))
  {
    forall j | 0 <= j < i
      ensures !(Permitted(events, answers, j) && Reference(events[j]) == Reference(events[i]))
    {
      assert Authentic(v, events[j]);
      DecisionOrOutcome(v, events[j]);
    }
  }

  lemma VerifiedBatchIsClean(v: Verifier, events: seq<Event>, firstPrev: Option<Value>, answers: seq<Answer>, i: nat)
    requires |answers| == |events| && i < |events|
    requires BatchVerified(v, events, firstPrev, answers)
    ensures FatalCode(v, events[i]).None?
    ensures IssuesAt(v, events, firstPrev, answers, i) == []
    ensures !(NeedsLookup(events, i) && answers[i].DbError?)
  {
    var e := events[i];
    assert Authentic(v, e);
    FatalCodeIs(v, e);
    DecisionOrOutcome(v, e);
    hide WellFormed, FatalCode;
    assert PreviousOf(e) == Before(events, firstPrev, i);
    if i > 0 { assert Before(events, firstPrev, i - 1) == PreviousOf(events[i - 1]); }
    assert LinkIssues(e, ExpectedPrevious(events, firstPrev, i), i) == [] && HashIssues(e, i) == [];
    assert KeyIssues(v, e, i) == [] && FieldIssues(e, i) == [];
    if IsOutcome(e) {
      NoEarlierOutcome(v, events, firstPrev, answers, i);
    }
    assert TransitionIssues(events, answers, i) == [];
  }

  lemma JudgeVerified(fatals: seq<Option<seq<Issue>>>, defects: seq<seq<Issue>>, failures: seq<bool>, records: seq<Record>)
    requires |fatals| == |defects| == |failures|
    requires forall k | 0 <= k < |fatals| && fatals[k].Some? :: fatals[k].value != []
    ensures Judge(fatals, defects, failures, records).Verified? <==>
            forall i | 0 <= i < |fatals| :: fatals[i].None? && defects[i] == [] && !failures[i]
  {
    var stop := Stop(fatals, 0);
    ConcatEmpty(defects[..stop]);
    if Judge(fatals, defects, failures, records).Verified? {
      assert defects[..stop] == defects;
      forall i | 0 <= i < |fatals| ensures !failures[i] {
        assert failures[..stop][i] == failures[i];
      }
    }
  }

  /** Verification succeeds exactly when the whole-list predicate holds. */
  lemma VerifiedIff(v: Verifier, events: seq<Event>, firstPrev: Option<Value>, answers: seq<Answer>)
    requires |answers| == |events|
    ensures Verdict(v, events, firstPrev, answers).Verified? <==> BatchVerified(v, events, firstPrev, answers)
  {
    if BatchVerified(v, events, firstPrev, answers) {
      SoundBatchAccepted(v, events, firstPrev, answers);
    }
    if Verdict(v, events, firstPrev, answers).Verified? {
      AcceptedBatchSound(v, events, firstPrev, answers);
    }
  }

  lemma SoundBatchAccepted(v: Verifier, events: seq<Event>, firstPrev: Option<Value>, answers: seq<Answer>)
    requires |answers| == |events|
    requires BatchVerified(v, events, firstPrev, answers)
    ensures Verdict(v, events, firstPrev, answers).Verified?
  {
    hide Linked, AllAuthentic, Ordered, IssuesAt, NeedsLookup, FormCode, LinkIssues, Judge;
    var fatals, defects := Fatals(v, events, firstPrev), Defects(v, events, firstPrev, answers);
    var failures := Failures(events, answers);
    FatalsSayWhy(v, events, firstPrev);
    JudgeVerified(fatals, defects, failures, Records(events));
    forall i | 0 <= i < |events|
      ensures fatals[i].None? && defects[i] == [] && !failures[i]
    {
      VerifiedBatchIsClean(v, events, firstPrev, answers, i);
    }
  }

  lemma AcceptedBatchSound(v: Verifier, events: seq<Event>, firstPrev: Option<Value>, answers: seq<Answer>)
    requires |answers| == |events|
    requires Verdict(v, events, firstPrev, answers).Verified?
    ensures BatchVerified(v, events, firstPrev, answers)
  {
    hide IssuesAt, NeedsLookup, FormCode, LinkIssues, Judge, CleanAt;
    var fatals, defects := Fatals(v, events, firstPrev), Defects(v, events, firstPrev, answers);
    FatalsSayWhy(v, events, firstPrev);
    JudgeVerified(fatals, defects, Failures(events, answers), Records(events));
    forall i | 0 <= i < |events|
      ensures CleanAt(v, events, firstPrev, answers, i)
    {
      assert fatals[i].None? && defects[i] == [];
      CleanEvent(v, events, firstPrev, answers, i);
    }
    CleanBatchIsVerified(v, events, firstPrev, answers);
  }

  /** The event's previous hash is this one, or null for none. */
  predicate PointsAt(e: Event, previous: Option<Value>) {
    match previous
    case None => Get(e, PreviousEventHash) == Null
    case Some(h) => Get(e, PreviousEventHash) == h && h != Null
  }

  /** The event points at the hash that the event before it claims, or at the given one if it is the first. */
  predicate PointsBack(events: seq<Event>, firstPrev: Option<Value>, i: nat)
    requires i < |events|
  {
    PointsAt(events[i], if i == 0 then firstPrev else Some(Get(events[i - 1], EventHash)))
  }

  /**
    On success there is one record per event, in order, that repeats its fields; its
    recomputed hash is the claimed one, and the event points at the one before it.
   */
  lemma VerifiedRecords(v: Verifier, events: seq<Event>, firstPrev: Option<Value>, answers: seq<Answer>, i: nat)
    requires |answers| == |events| && i < |events|
    requires Verdict(v, events, firstPrev, answers).Verified?
    ensures
      var rs, e := Verdict(v, events, firstPrev, answers).records, events[i];
      && |rs| == |events| && rs[i].event == e && rs[i].hash == HashOf(e) == Get(e, EventHash)
      && rs[i].id == Get(e, EventId) && rs[i].kind == Get(e, EventType) && rs[i].action == Get(e, ActionName)
      && rs[i].contract == Get(e, ContractHash) && rs[i].timestamp == Get(e, TimestampUtc)
      && PointsAt(e, rs[i].previous) && PointsBack(events, firstPrev, i)
  {
    VerifiedIff(v, events, firstPrev, answers);
    hide AllAuthentic, Ordered;
    assert Before(events, firstPrev, i) == PreviousOf(events[i]);
    if i > 0 { assert Before(events, firstPrev, i - 1) == PreviousOf(events[i - 1]); }
  }

  /** What an issue code claims about the event at its index. */
  ghost predicate Justified(v: Verifier, events: seq<Event>, firstPrev: Option<Value>, answers: seq<Answer>, issue: Issue)
    requires |answers| == |events|
  {
    && issue.index < |events|
    && var e := events[issue.index];
       var i := issue.index;
       match issue.code
       case UnknownSchema => !KnownSchema(e)
       case UnknownEventType => KnownSchema(e) && !KnownType(e)
       case MissingFields => KnownSchema(e) && KnownType(e) && !Complete(e)
       case InvalidTimestamp =>
         KnownSchema(e) && KnownType(e) && Complete(e) && WellTyped(v, e) && !v.timestamp(Get(e, TimestampUtc))
       case InvalidField =>
         || (KnownSchema(e) && KnownType(e) && Complete(e) && !WellTyped(v, e))
         || (WellFormed(v, e) && (!v.encodes(Unsigned(e)) || !v.encodes(e) || ValueIsWrong(e)))
       case ChainBreak => !PointsBack(events, firstPrev, i)
       case HashMismatch => Get(e, EventHash) != HashOf(e)
       case UnknownKey => Get(e, KeyId) != v.keyId
       case BadSignature => Get(e, KeyId) == v.keyId && !v.signed(Unsigned(e), Get(e, Signature))
       case UnknownDecisionReference =>
         NamesADecision(e) && LatestDecision(events, i, Reference(e)).None? && !answers[i].Found?
       case InvalidTransition =>
         && NamesADecision(e) && Resolve(events, answers, i).Some?
         && (Resolve(events, answers, i).value == Text("denied") || OutcomeSeen(events, answers, i, Reference(e)))
  }

  /** An outcome that names a decision. */
  predicate NamesADecision(e: Event) {
    Get(e, EventType) != Text("decision") && Textual(Get(e, DecisionEventId)) && Get(e, DecisionEventId) != Text("")
  }

  predicate ValueIsWrong(e: Event) {
    if Get(e, EventType) == Text("decision") then
      Get(e, Decision) != Text("allowed") && Get(e, Decision) != Text("denied")
    else
      || (Get(e, Status) != Text("succeeded") && Get(e, Status) != Text("failed"))
      || !NamesADecision(e)
  }

  lemma IssuesAtJustified(v: Verifier, events: seq<Event>, firstPrev: Option<Value>, answers: seq<Answer>, i: nat, issue: Issue)
    requires |answers| == |events| && i < |events|
    requires FatalCode(v, events[i]).None? && issue in IssuesAt(v, events, firstPrev, answers, i)
    ensures Justified(v, events, firstPrev, answers, issue)
  {
    var e := events[i];
    var expected := ExpectedPrevious(events, firstPrev, i);
    FatalCodeIs(v, e);
    hide WellFormed, FatalCode, ExpectedPrevious, Justified;
    hide LinkIssues, HashIssues, KeyIssues, FieldIssues, TransitionIssues;
    if issue !in WrongAt(v, events, firstPrev, answers, i) {
      EncodingJustified(v, events, firstPrev, answers, i);
    } else if issue in TransitionIssues(events, answers, i) {
      TransitionIssuesJustified(v, events, firstPrev, answers, i, issue);
    } else if issue in LinkIssues(e, expected, i) || issue in HashIssues(e, i) {
      LinkIssuesJustified(v, events, firstPrev, answers, i, issue);
    } else {
      FieldIssuesJustified(v, events, firstPrev, answers, i, issue);
    }
  }

  lemma EncodingJustified(v: Verifier, events: seq<Event>, firstPrev: Option<Value>, answers: seq<Answer>, i: nat)
    requires |answers| == |events| && i < |events| && WellFormed(v, events[i]) && !v.encodes(events[i])
    ensures Justified(v, events, firstPrev, answers, Issue(i, InvalidField))
  {
    hide WellFormed, KnownSchema, KnownType, Complete, WellTyped;
  }

  lemma LinkIssuesJustified(v: Verifier, events: seq<Event>, firstPrev: Option<Value>, answers: seq<Answer>, i: nat, issue: Issue)
    requires |answers| == |events| && i < |events|
    requires issue in LinkIssues(events[i], ExpectedPrevious(events, firstPrev, i), i) || issue in HashIssues(events[i], i)
    ensures Justified(v, events, firstPrev, answers, issue)
  {
    hide WellFormed, KnownSchema, KnownType, Complete, WellTyped, Resolve, LatestDecision, OutcomeSeen;
  }

  lemma FieldIssuesJustified(v: Verifier, events: seq<Event>, firstPrev: Option<Value>, answers: seq<Answer>, i: nat, issue: Issue)
    requires |answers| == |events| && i < |events| && WellFormed(v, events[i])
    requires issue in KeyIssues(v, events[i], i) || issue in FieldIssues(events[i], i)
    ensures Justified(v, events, firstPrev, answers, issue)
  {
    hide WellFormed, KnownSchema, KnownType, Complete, WellTyped, Resolve, LatestDecision, OutcomeSeen, PointsBack;
  }

  lemma TransitionIssuesJustified(v: Verifier, events: seq<Event>, firstPrev: Option<Value>, answers: seq<Answer>, i: nat, issue: Issue)
    requires |answers| == |events| && i < |events|
    requires WellFormed(v, events[i]) && issue in TransitionIssues(events, answers, i)
    ensures Justified(v, events, firstPrev, answers, issue)
  {
  }

  lemma FatalJustified(v: Verifier, events: seq<Event>, firstPrev: Option<Value>, answers: seq<Answer>, i: nat, issue: Issue)
    requires |answers| == |events| && i < |events|
    requires FatalIssues(v, events, firstPrev, i).Some? && issue in FatalIssues(v, events, firstPrev, i).value
    ensures Justified(v, events, firstPrev, answers, issue)
  {
    FormCodeIs(v, events[i]);
    hide FormCode, KnownSchema, KnownType, Complete, WellTyped;
  }

  /** A rejected batch carries between 1 and 20 issues, and every one of them is true. */
  lemma RejectedIssues(v: Verifier, events: seq<Event>, firstPrev: Option<Value>, answers: seq<Answer>)
    requires |answers| == |events|
    requires Verdict(v, events, firstPrev, answers).Rejected?
    ensures 1 <= |Verdict(v, events, firstPrev, answers).issues| <= 20
    ensures forall issue | issue in Verdict(v, events, firstPrev, answers).issues ::
              Justified(v, events, firstPrev, answers, issue)
  {
    var fatals, defects := Fatals(v, events, firstPrev), Defects(v, events, firstPrev, answers);
    var stop := Stop(fatals, 0);
    forall issue | issue in Cap(AllIssues(fatals, defects))
      ensures Justified(v, events, firstPrev, answers, issue)
    {
      assert issue in AllIssues(fatals, defects);
      if issue in Concat(defects[..stop]) {
        var i := ConcatSource(defects[..stop], issue);
        assert fatals[i].None?;
        IssuesAtJustified(v, events, firstPrev, answers, i, issue);
      } else {
        FatalJustified(v, events, firstPrev, answers, stop, issue);
      }
    }
  }

  /** The codes that say what is wrong with an event that is well formed. */
  predicate IsDefect(c: Code) {
    c.ChainBreak? || c.HashMismatch? || c.UnknownKey? || c.BadSignature? || c.UnknownDecisionReference? || c.InvalidTransition?
  }

  lemma JustifiedIsFound(v: Verifier, events: seq<Event>, firstPrev: Option<Value>, answers: seq<Answer>, i: nat, c: Code)
    requires |answers| == |events| && i < |events| && IsDefect(c)
    requires Justified(v, events, firstPrev, answers, Issue(i, c))
    ensures Issue(i, c) in IssuesAt(v, events, firstPrev, answers, i)
  {
    hide FormCode, WellFormed, KnownSchema, KnownType, Complete, WellTyped;
    var e := events[i];
    var wrong := WrongAt(v, events, firstPrev, answers, i);
    var link, hash, key := LinkIssues(e, ExpectedPrevious(events, firstPrev, i), i), HashIssues(e, i), KeyIssues(v, e, i);
    var field, transition := FieldIssues(e, i), TransitionIssues(events, answers, i);
    assert Issue(i, c) in link || Issue(i, c) in hash || Issue(i, c) in key || Issue(i, c) in transition by {
      match c
      case ChainBreak => assert link[0] == Issue(i, c);
      case HashMismatch => assert hash[0] == Issue(i, c);
      case UnknownKey => assert key[0] == Issue(i, c);
      case BadSignature => assert key[0] == Issue(i, c);
      case UnknownDecisionReference => assert transition[0] == Issue(i, c);
      case InvalidTransition => assert transition[0] == Issue(i, c);
    }
    assert wrong == link + hash + key + field + transition;
    assert Issue(i, c) in wrong;
  }

  /**
    Nothing is kept back: unless the list is full, a rejection names a defect of an event
    exactly if the event has it, for every event up to the first that is not well formed.
   */
  lemma EveryDefectIsReported(v: Verifier, events: seq<Event>, firstPrev: Option<Value>, answers: seq<Answer>, i: nat, c: Code)
    requires |answers| == |events| && i < |events| && IsDefect(c)
    requires Verdict(v, events, firstPrev, answers).Rejected? && |Verdict(v, events, firstPrev, answers).issues| < 20
    requires forall k | 0 <= k <= i :: WellFormed(v, events[k]) && v.encodes(Unsigned(events[k]))
    ensures Issue(i, c) in Verdict(v, events, firstPrev, answers).issues <==> Justified(v, events, firstPrev, answers, Issue(i, c))
  {
    hide FormCode, WellFormed, IssuesAt;
    RejectedIssues(v, events, firstPrev, answers);
    var fatals, defects := Fatals(v, events, firstPrev), Defects(v, events, firstPrev, answers);
    var stop := Stop(fatals, 0);
    assert i < stop by {
      forall k | 0 <= k <= i ensures fatals[k].None? { FormCodeIs(v, events[k]); }
    }
    if Justified(v, events, firstPrev, answers, Issue(i, c)) {
      JustifiedIsFound(v, events, firstPrev, answers, i, c);
      ConcatMember(defects[..stop], i, Issue(i, c));
    }
  }

  /** Verification gives up exactly if a lookup fails that an event needs before the first one that is not well formed. */
  lemma LookupFailedIff(v: Verifier, events: seq<Event>, firstPrev: Option<Value>, answers: seq<Answer>)
    requires |answers| == |events|
    ensures Verdict(v, events, firstPrev, answers).LookupFailed? <==>
      exists i :: 0 <= i < |events| && NeedsLookup(events, i) && answers[i].DbError?
        && forall k | 0 <= k <= i :: WellFormed(v, events[k]) && v.encodes(Unsigned(events[k]))
  {
    hide FormCode, WellFormed, NeedsLookup;
    var fatals, failures := Fatals(v, events, firstPrev), Failures(events, answers);
    var stop := Stop(fatals, 0);
    forall k | 0 <= k < |events| ensures fatals[k].None? <==> WellFormed(v, events[k]) && v.encodes(Unsigned(events[k])) {
      FormCodeIs(v, events[k]);
    }
    if true in failures[..stop] {
      var i :| 0 <= i < stop && failures[..stop][i];
      assert NeedsLookup(events, i) && answers[i].DbError?;
    }
    if i :| 0 <= i < |events| && NeedsLookup(events, i) && answers[i].DbError?
            && forall k | 0 <= k <= i :: WellFormed(v, events[k]) && v.encodes(Unsigned(events[k]))
    {
      assert i < stop;
      assert failures[..stop][i];
    }
  }
}
