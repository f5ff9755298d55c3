/**
  Signed SDK evidence events and the server-side verifier of one submitted batch
  (api/evidence_verify.go).

  An event is a JSON object.  Protocol fields are constructors of `Field`; any other key
  is `Extra`.  SHA-256 is symbolic: `Digest(p)` is the lowercase hex text of the hash of
  the canonical encoding of the payload `p`, and `Text(s)` is any other text.  Distinct
  payloads therefore have distinct hashes.  Signature checking, the action-name pattern,
  timestamp parsing, text lengths in bytes and whether a canonical encoding exists are
  parameters (`Verifier`).
 */
module EvidenceEvents {
  import opened Prelude
  import opened Sequences

  datatype Field =
    | SchemaVersion | EventType | EventId | ActionId | ActionName | ContractHash
    | TimestampUtc | KeyId | EventHash | Signature | PreviousEventHash
    | Decision | Risk | ApprovalMode | RedactedInputSummary | InputHash
    | Status | DecisionEventId
    | Extra(name: string)

  datatype Value =
    | Null
    | Bool(b: bool)
    | Number(literal: string)
    | Text(s: string)
    | Digest(payload: map<Field, Value>)
    | Array(items: seq<Value>)
    | Object(fields: map<string, Value>)

  type Event = map<Field, Value>

  /** What the verifier is told about the submitted key and the library parsers. */
  datatype Verifier = Verifier(
    keyId: Value,
    actionName: Value -> bool,
    timestamp: Value -> bool,
    bytes: Value -> nat,
    encodes: Event -> bool,
    signed: (Event, Value) -> bool)

  datatype Code =
    | UnknownSchema | UnknownEventType | MissingFields | InvalidField | InvalidTimestamp
    | ChainBreak | HashMismatch | UnknownKey | BadSignature
    | UnknownDecisionReference | InvalidTransition

  datatype Issue = Issue(index: nat, code: Code)

  datatype Record = Record(
    event: Event, hash: Value, id: Value, kind: Value, action: Value, contract: Value,
    previous: Option<Value>, timestamp: Value)

  /** The answer of one decision lookup in the store. */
  datatype Answer = Found(decision: Value) | NoRows | DbError

  datatype Outcome =
    | Verified(records: seq<Record>)
    | Rejected(issues: seq<Issue>)
    | LookupFailed

  const MAX_ISSUES := 20
  const MAX_EVENT_ID_CHARS := 128

  const SHARED_REQUIRED :=
    [SchemaVersion, EventType, EventId, ActionId, ActionName, ContractHash, TimestampUtc,
     KeyId, EventHash, Signature]
  const DECISION_REQUIRED := [Decision, Risk, ApprovalMode, RedactedInputSummary, InputHash]
  const OUTCOME_REQUIRED := [Status, DecisionEventId]

  predicate IsText(v: Value) { v.Text? || v.Digest? }

  predicate IsHexChar(c: char) { '0' <= c <= '9' || 'a' <= c <= 'f' }

  predicate IsHash(v: Value) {
    v.Digest? || (v.Text? && |v.s| == 64 && forall i | 0 <= i < 64 :: IsHexChar(v.s[i]))
  }

  function Get(e: Event, f: Field): Value { if f in e then e[f] else Null }

  /** The payload that is hashed and signed. */
  function Unsigned(e: Event): Event { e - {EventHash, Signature} }

  /** The hash the server recomputes. */
  function HashOf(e: Event): Value { Digest(Unsigned(e)) }

  function PreviousOf(e: Event): Option<Value> {
    var p := Get(e, PreviousEventHash);
    if p.Null? then None else Some(p)
  }

  predicate IsDecision(e: Event) { Get(e, EventType) == Text("decision") }
  predicate IsOutcome(e: Event) { Get(e, EventType) == Text("outcome") }
  predicate IsDecisionValue(v: Value) { v == Text("allowed") || v == Text("denied") }
  predicate IsOutcomeStatus(v: Value) { v == Text("succeeded") || v == Text("failed") }

  function Reference(e: Event): Value { Get(e, DecisionEventId) }
  predicate HasReference(e: Event) { IsText(Reference(e)) && Reference(e) != Text("") }

  predicate HasAll(e: Event, fields: seq<Field>) {
    forall i | 0 <= i < |fields| :: fields[i] in e
  }

  /** The checks of the event's form, in the order they are made; the first that fails ends verification. */
  function FormCode(v: Verifier, e: Event): Option<Code> {
    if Get(e, SchemaVersion) != Text("1") then Some(UnknownSchema)
    else if !IsDecision(e) && !IsOutcome(e) then Some(UnknownEventType)
    else if !HasAll(e, SHARED_REQUIRED) || !HasAll(e, if IsDecision(e) then DECISION_REQUIRED else OUTCOME_REQUIRED) || PreviousEventHash !in e then Some(MissingFields)
    else if !IsText(Get(e, EventHash)) || !IsHash(Get(e, EventHash)) then Some(InvalidField)
    else if !IsText(Get(e, Signature)) then Some(InvalidField)
    else if !IsText(Get(e, EventId)) || !IsText(Get(e, ActionName)) || !IsText(Get(e, ContractHash))
            || !IsText(Get(e, KeyId)) || !IsText(Get(e, TimestampUtc))
            || Get(e, EventId) == Text("") || v.bytes(Get(e, EventId)) > MAX_EVENT_ID_CHARS
    then Some(InvalidField)
    else if !v.actionName(Get(e, ActionName)) || !IsHash(Get(e, ContractHash)) then Some(InvalidField)
    else if !Get(e, PreviousEventHash).Null? && !IsText(Get(e, PreviousEventHash)) then Some(InvalidField)
    else if !v.timestamp(Get(e, TimestampUtc)) then Some(InvalidTimestamp)
    else None
  }

  /** What ends verification at an event: its form, or a payload without a canonical encoding. */
  function FatalCode(v: Verifier, e: Event): Option<Code> {
    if FormCode(v, e).Some? then FormCode(v, e)
    else if !v.encodes(Unsigned(e)) then Some(InvalidField)
    else None
  }

  /** The hash event `i` must point at: the claimed hash of the event before it. */
  function ExpectedPrevious(events: seq<Event>, firstPrev: Option<Value>, i: nat): Option<Value>
    requires i <= |events|
  {
    if i == 0 then firstPrev else Some(Get(events[i - 1], EventHash))
  }

  /** The last well-valued decision with this id among the first `n` events. */
  function LatestDecision(events: seq<Event>, n: nat, id: Value): Option<Value>
    requires n <= |events|
  {
    if n == 0 then None
    else
      var e := events[n - 1];
      if IsDecision(e) && IsDecisionValue(Get(e, Decision)) && Get(e, EventId) == id
      then Some(Get(e, Decision))
      else LatestDecision(events, n - 1, id)
  }

  predicate NeedsLookup(events: seq<Event>, i: nat)
    requires i < |events|
  {
    && !IsDecision(events[i])
    && HasReference(events[i])
    && LatestDecision(events, i, Reference(events[i])).None?
  }

  /** The decision that outcome `i` refers to: from this batch, else from the store. */
  function Resolve(events: seq<Event>, answers: seq<Answer>, i: nat): Option<Value>
    requires |answers| == |events| && i < |events|
  {
    var own := LatestDecision(events, i, Reference(events[i]));
    if own.Some? then own
    else if answers[i].Found? then Some(answers[i].decision)
    else None
  }

  /** Event `i` is an outcome of a decision that is known and not denied. */
  predicate Permitted(events: seq<Event>, answers: seq<Answer>, i: nat)
    requires |answers| == |events| && i < |events|
  {
    && !IsDecision(events[i])
    && HasReference(events[i])
    && Resolve(events, answers, i).Some?
    && Resolve(events, answers, i).value != Text("denied")
  }

  predicate OutcomeSeen(events: seq<Event>, answers: seq<Answer>, n: nat, id: Value)
    requires |answers| == |events| && n <= |events|
  {
    exists j | 0 <= j < n :: Permitted(events, answers, j) && Reference(events[j]) == id
  }

  function When(b: bool, i: nat, code: Code): seq<Issue> { if b then [Issue(i, code)] else [] }

  function LinkIssues(e: Event, expected: Option<Value>, i: nat): seq<Issue> {
    When(PreviousOf(e) != expected, i, ChainBreak)
  }

  function HashIssues(e: Event, i: nat): seq<Issue> {
    When(HashOf(e) != Get(e, EventHash), i, HashMismatch)
  }

  function KeyIssues(v: Verifier, e: Event, i: nat): seq<Issue> {
    if Get(e, KeyId) != v.keyId then [Issue(i, UnknownKey)]
    else When(!v.signed(Unsigned(e), Get(e, Signature)), i, BadSignature)
  }

  function FieldIssues(e: Event, i: nat): seq<Issue> {
    When(if IsDecision(e) then !IsDecisionValue(Get(e, Decision)) else !IsOutcomeStatus(Get(e, Status)),
         i, InvalidField)
  }

  function TransitionIssues(events: seq<Event>, answers: seq<Answer>, i: nat): seq<Issue>
    requires |answers| == |events| && i < |events|
  {
    var e := events[i];
    if IsDecision(e) then []
    else if !HasReference(e) then [Issue(i, InvalidField)]
    else if Resolve(events, answers, i).None? then [Issue(i, UnknownDecisionReference)]
    else When(!Permitted(events, answers, i) || OutcomeSeen(events, answers, i, Reference(e)),
              i, InvalidTransition)
  }

  /** What is wrong with a well-formed event, in the order it is reported. */
  function WrongAt(v: Verifier, events: seq<Event>, firstPrev: Option<Value>, answers: seq<Answer>, i: nat): seq<Issue>
    requires |answers| == |events| && i < |events|
  {
    LinkIssues(events[i], ExpectedPrevious(events, firstPrev, i), i) + HashIssues(events[i], i)
    + KeyIssues(v, events[i], i) + FieldIssues(events[i], i) + TransitionIssues(events, answers, i)
  }

  /** Every defect of a well-formed event; that the whole event can be encoded is tried only if nothing else is wrong. */
  function IssuesAt(v: Verifier, events: seq<Event>, firstPrev: Option<Value>, answers: seq<Answer>, i: nat): seq<Issue>
    requires |answers| == |events| && i < |events|
  {
    var wrong := WrongAt(v, events, firstPrev, answers, i);
    wrong + When(wrong == [] && !v.encodes(events[i]), i, InvalidField)
  }

  /** The defects of each event. */
  function Defects(v: Verifier, events: seq<Event>, firstPrev: Option<Value>, answers: seq<Answer>): seq<seq<Issue>>
    requires |answers| == |events|
  {
    seq(|events|, i requires 0 <= i < |events| => IssuesAt(v, events, firstPrev, answers, i))
  }

  /** The issues verification ends with at event `i`, if it ends there; a bad encoding is found after the link was checked. */
  function FatalIssues(v: Verifier, events: seq<Event>, firstPrev: Option<Value>, i: nat): Option<seq<Issue>>
    requires i < |events|
  {
    var e := events[i];
    if FormCode(v, e).Some? then Some([Issue(i, FormCode(v, e).value)])
    else if !v.encodes(Unsigned(e)) then
      Some(LinkIssues(e, ExpectedPrevious(events, firstPrev, i), i) + [Issue(i, InvalidField)])
    else None
  }

  /** What ends verification at each event, if anything. */
  function Fatals(v: Verifier, events: seq<Event>, firstPrev: Option<Value>): seq<Option<seq<Issue>>> {
    seq(|events|, i requires 0 <= i < |events| => FatalIssues(v, events, firstPrev, i))
  }

  /** Whether the lookup that event needs, if any, fails. */
  function Failures(events: seq<Event>, answers: seq<Answer>): seq<bool>
    requires |answers| == |events|
  {
    seq(|events|, i requires 0 <= i < |events| => NeedsLookup(events, i) && answers[i].DbError?)
  }

  /** The first index, from `i` on, that ends verification; the length if none does. */
  function Stop(fatals: seq<Option<seq<Issue>>>, i: nat): (r: nat)
    requires i <= |fatals|
    ensures i <= r <= |fatals|
    ensures forall j | i <= j < r :: fatals[j].None?
    ensures r < |fatals| ==> fatals[r].Some?
    decreases |fatals| - i
  {
    if i == |fatals| || fatals[i].Some? then i else Stop(fatals, i + 1)
  }

  function AllIssues(fatals: seq<Option<seq<Issue>>>, defects: seq<seq<Issue>>): seq<Issue>
    requires |fatals| == |defects|
  {
    var stop := Stop(fatals, 0);
    Concat(defects[..stop]) + if stop < |fatals| then fatals[stop].value else []
  }

  function Cap(issues: seq<Issue>): seq<Issue> {
    if |issues| <= MAX_ISSUES then issues else issues[..MAX_ISSUES]
  }

  function RecordOf(e: Event): Record {
    Record(e, HashOf(e), Get(e, EventId), Get(e, EventType), Get(e, ActionName),
           Get(e, ContractHash), PreviousOf(e), Get(e, TimestampUtc))
  }

  function Records(events: seq<Event>): seq<Record> {
    seq(|events|, i requires 0 <= i < |events| => RecordOf(events[i]))
  }

  function Judge(fatals: seq<Option<seq<Issue>>>, defects: seq<seq<Issue>>, failures: seq<bool>, records: seq<Record>): Outcome
    requires |fatals| == |defects| == |failures|
  {
    if true in failures[..Stop(fatals, 0)] then LookupFailed
    else
      var all := AllIssues(fatals, defects);
      if all == [] then Verified(records) else Rejected(Cap(all))
  }

  /** What verification of a batch returns. */
  function Verdict(v: Verifier, events: seq<Event>, firstPrev: Option<Value>, answers: seq<Answer>): Outcome
    requires |answers| == |events|
  {
    Judge(Fatals(v, events, firstPrev), Defects(v, events, firstPrev, answers), Failures(events, answers), Records(events))
  }
}
