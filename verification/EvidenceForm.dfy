/**
  What a well-formed event is, said field by field and apart from the checks that find it
  out (api/evidence_verify.go), and what the verifier's helper functions mean.
 */
module EvidenceForm {
  import opened Prelude
  import opened EvidenceEvents

  predicate KnownSchema(e: Event) { Get(e, SchemaVersion) == Text("1") }

  predicate KnownType(e: Event) {
    Get(e, EventType) == Text("decision") || Get(e, EventType) == Text("outcome")
  }

  predicate Complete(e: Event) {
    && SchemaVersion in e && EventType in e && EventId in e && ActionId in e && ActionName in e
    && ContractHash in e && TimestampUtc in e && KeyId in e && EventHash in e && Signature in e
    && PreviousEventHash in e
    && (Get(e, EventType) == Text("decision") ==>
          Decision in e && Risk in e && ApprovalMode in e && RedactedInputSummary in e && InputHash in e)
    && (Get(e, EventType) == Text("outcome") ==> Status in e && DecisionEventId in e)
  }

  /** JSON text of any kind. */
  predicate Textual(x: Value) { x.Text? || x.Digest? }

  /** 64 lower-case hex digits. */
  predicate HexHash(x: Value) {
    x.Digest? || (x.Text? && |x.s| == 64 && forall c | c in x.s :: c in "0123456789abcdef")
  }

  predicate WellTyped(v: Verifier, e: Event) {
    && HexHash(Get(e, EventHash)) && HexHash(Get(e, ContractHash))
    && Textual(Get(e, Signature)) && Textual(Get(e, KeyId)) && Textual(Get(e, TimestampUtc))
    && Textual(Get(e, EventId)) && Get(e, EventId) != Text("") && v.bytes(Get(e, EventId)) <= 128
    && Textual(Get(e, ActionName)) && v.actionName(Get(e, ActionName))
    && (Get(e, PreviousEventHash) == Null || Textual(Get(e, PreviousEventHash)))
  }

  predicate WellFormed(v: Verifier, e: Event) {
    KnownSchema(e) && KnownType(e) && Complete(e) && WellTyped(v, e) && v.timestamp(Get(e, TimestampUtc))
  }

  lemma HexCharIs(c: char)
    ensures IsHexChar(c) <==> c in "0123456789abcdef"
  {
    var hex := "0123456789abcdef";
    if IsHexChar(c) {
      var i := if c <= '9' then (c - '0') as int else 10 + (c - 'a') as int;
      assert hex[i] == c;
    }
  }

  lemma HashIs(x: Value)
    ensures IsHash(x) <==> HexHash(x)
  {
    if x.Text? {
      forall i | 0 <= i < |x.s| ensures IsHexChar(x.s[i]) <==> x.s[i] in "0123456789abcdef" { HexCharIs(x.s[i]); }
      forall c | c in x.s ensures IsHexChar(c) <==> c in "0123456789abcdef" { HexCharIs(c); }
    }
  }

  lemma CompleteIs(e: Event)
    requires KnownType(e)
    ensures Complete(e) <==>
      && HasAll(e, SHARED_REQUIRED) && HasAll(e, if IsDecision(e) then DECISION_REQUIRED else OUTCOME_REQUIRED)
      && PreviousEventHash in e
  {
    assert Text("decision") != Text("outcome") by { assert |"decision"| != |"outcome"|; }
    var shared, own := SHARED_REQUIRED, if IsDecision(e) then DECISION_REQUIRED else OUTCOME_REQUIRED;
    if Complete(e) {
      forall i | 0 <= i < |shared| ensures shared[i] in e {}
      forall i | 0 <= i < |own| ensures own[i] in e {}
    }
    if HasAll(e, shared) && HasAll(e, own) {
      assert shared[0] in e && shared[1] in e && shared[2] in e && shared[3] in e && shared[4] in e
             && shared[5] in e && shared[6] in e && shared[7] in e && shared[8] in e && shared[9] in e;
      assert own[0] in e && own[1] in e;
      if IsDecision(e) { assert own[2] in e && own[3] in e && own[4] in e; }
    }
  }

  /** The checks accept exactly the well-formed events, and each refusal says what is the first thing wrong. */
  lemma FormCodeIs(v: Verifier, e: Event)
    ensures FormCode(v, e) ==
      if !KnownSchema(e) then Some(UnknownSchema)
      else if !KnownType(e) then Some(UnknownEventType)
      else if !Complete(e) then Some(MissingFields)
      else if !WellTyped(v, e) then Some(InvalidField)
      else if !v.timestamp(Get(e, TimestampUtc)) then Some(InvalidTimestamp)
      else None
    ensures FormCode(v, e).None? <==> WellFormed(v, e)
  {
    HashIs(Get(e, EventHash));
    HashIs(Get(e, ContractHash));
    if KnownType(e) { CompleteIs(e); }
    hide HasAll, IsHash, HexHash, Complete;
  }

  lemma FatalCodeIs(v: Verifier, e: Event)
    ensures FatalCode(v, e).None? <==> WellFormed(v, e) && v.encodes(Unsigned(e))
  {
    hide WellFormed, FormCode;
    FormCodeIs(v, e);
  }

  /** The hash covers everything but the hash itself and the signature. */
  lemma HashCovers(e: Event, e': Event)
    ensures HashOf(e) == HashOf(e') <==>
      forall f: Field | f != EventHash && f != Signature :: (f in e <==> f in e') && (f in e && f in e' ==> e[f] == e'[f])
  {
    if forall f: Field | f != EventHash && f != Signature :: (f in e <==> f in e') && (f in e && f in e' ==> e[f] == e'[f]) {
      assert Unsigned(e) == Unsigned(e');
    }
    if HashOf(e) == HashOf(e') {
      forall f: Field | f != EventHash && f != Signature
        ensures (f in e <==> f in e') && (f in e && f in e' ==> e[f] == e'[f])
      {
        assert f in e <==> f in Unsigned(e);
        assert f in e' <==> f in Unsigned(e');
        if f in e { assert Unsigned(e)[f] == e[f]; }
      }
    }
  }

  /** The event is a decision on this id with this value. */
  predicate Decides(e: Event, id: Value, decision: Value) {
    && Get(e, EventType) == Text("decision") && Get(e, EventId) == id && Get(e, Decision) == decision
    && (decision == Text("allowed") || decision == Text("denied"))
  }

  /** Event `j` decides on this id, and no later one of the first `n` does. */
  ghost predicate LastToDecide(events: seq<Event>, n: nat, id: Value, decision: Value, j: nat)
    requires n <= |events|
  {
    j < n && Decides(events[j], id, decision) && forall k, d | j < k < n :: !Decides(events[k], id, d)
  }

  /** The decision on an id is what the last event to decide on it says, if there is one. */
  lemma {:induction false} LatestDecisionIs(events: seq<Event>, n: nat, id: Value, decision: Value)
    requires n <= |events|
    ensures LatestDecision(events, n, id) == Some(decision) <==> exists j :: LastToDecide(events, n, id, decision, j)
    ensures LatestDecision(events, n, id) == None <==> forall j, d | 0 <= j < n :: !Decides(events[j], id, d)
  {
    if n > 0 {
      var m := n - 1;
      var e := events[m];
      LatestDecisionIs(events, m, id, decision);
      if IsDecision(e) && IsDecisionValue(Get(e, Decision)) && Get(e, EventId) == id {
        assert Decides(e, id, Get(e, Decision));
        if Get(e, Decision) == decision { assert LastToDecide(events, n, id, decision, m); }
      } else {
        assert forall d :: !Decides(e, id, d);
        if j :| LastToDecide(events, m, id, decision, j) { assert LastToDecide(events, n, id, decision, j); }
        if j :| LastToDecide(events, n, id, decision, j) { assert LastToDecide(events, m, id, decision, j); }
      }
    }
  }
}
