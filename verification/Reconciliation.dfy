/**
  Operator reconciliation of one run whose effect is unknown
  (api/operator_reconciliation.go; the table's rules are in
  database/migrations/072_operator_reconciliation_events.sql).

  The log of a run is append-only, and appends are serialised by a lock on the run.  The
  reader sees the rows sorted by a server clock, which need not agree with append order.
 */
module Reconciliation {
  import opened Prelude

  datatype Resolution = Succeeded | Failed | RemainsUnknown

  datatype Reference = Reference(kind: string, value: string)

  /** A decoded operator request. */
  datatype Request = Request(actor: string, id: nat, resolution: Resolution, reason: string, reference: Option<Reference>)

  /** A row: what the runtime observed, or what an operator resolved.  A missing reference is stored as empty text. */
  datatype Row =
    | Observed
    | Operator(actor: string, email: string, requestId: nat, resolution: Resolution, reason: string,
               referenceKind: string, referenceValue: string)

  datatype Answer = Appended(row: Row) | Replayed(row: Row) | NotRequired | ResolutionConflict

  predicate IsTerminal(r: Row) { r.Operator? && !r.resolution.RemainsUnknown? }

  function RowOf(q: Request, email: string): Row {
    Operator(q.actor, email, q.id, q.resolution, q.reason,
             if q.reference.Some? then q.reference.value.kind else "",
             if q.reference.Some? then q.reference.value.value else "")
  }

  /** The stored row answers the same request: the actor's address is not compared. */
  predicate RequestMatches(row: Row, q: Request) {
    && row.Operator?
    && row.actor == q.actor && row.resolution == q.resolution && row.reason == q.reason
    && (if q.reference.None? then row.referenceKind == "" && row.referenceValue == ""
        else row.referenceKind == q.reference.value.kind && row.referenceValue == q.reference.value.value)
  }

  function FindRequest(log: seq<Row>, id: nat): (r: Option<Row>)
    ensures r.Some? ==> r.value in log && r.value.Operator? && r.value.requestId == id
    ensures r.None? ==> forall row | row in log && row.Operator? :: row.requestId != id
  {
    if log == [] then None
    else if log[0].Operator? && log[0].requestId == id then Some(log[0])
    else FindRequest(log[1..], id)
  }

  predicate HasTerminal(log: seq<Row>) { exists i | 0 <= i < |log| :: IsTerminal(log[i]) }

  /** The append, under the lock. */
  function Append(log: seq<Row>, q: Request, email: string): (seq<Row>, Answer) {
    var existing := FindRequest(log, q.id);
    if existing.Some? then
      (log, if RequestMatches(existing.value, q) then Replayed(existing.value) else ResolutionConflict)
    else if HasTerminal(log) then (log, ResolutionConflict)
    else if Observed !in log then (log, NotRequired)
    else (log + [RowOf(q, email)], Appended(RowOf(q, email)))
  }

  /** The runtime records its observation once; a second one is ignored. */
  function Observe(log: seq<Row>): seq<Row> { if Observed in log then log else log + [Observed] }

  datatype Label = ObserveEffect | Resolve(q: Request, email: string)

  function Step(log: seq<Row>, l: Label): seq<Row> {
    match l
    case ObserveEffect => Observe(log)
    case Resolve(q, email) => Append(log, q, email).0
  }

  function Run(log: seq<Row>, labels: seq<Label>): seq<Row> {
    if labels == [] then log else Step(Run(log, labels[..|labels| - 1]), labels[|labels| - 1])
  }

  // ---------------------------------------------------------------------------------
  // The log
  // ---------------------------------------------------------------------------------

  ghost predicate Inv(log: seq<Row>) {
    && (log != [] ==> log[0].Observed?)
    && (forall i | 0 < i < |log| :: log[i].Operator?)
    && (forall i | 0 <= i < |log| && IsTerminal(log[i]) :: i == |log| - 1)
    && (forall i, j | 0 < i < j < |log| :: log[i].requestId != log[j].requestId)
  }

  lemma StepInv(log: seq<Row>, l: Label)
    requires Inv(log)
    ensures Inv(Step(log, l)) && log <= Step(log, l)
  {
    if l.Resolve? && Append(log, l.q, l.email).1.Appended? {
      assert log != [];
      var log' := Append(log, l.q, l.email).0;
      forall i | 0 < i < |log| ensures log[i].requestId != l.q.id {
        assert log[i] in log;
      }
    }
    if l.ObserveEffect? && log != [] {
      assert log[0] in log;
    }
  }

  lemma {:induction false} RunInv(log: seq<Row>, labels: seq<Label>)
    requires Inv(log)
    ensures Inv(Run(log, labels)) && log <= Run(log, labels)
  {
    if labels != [] {
      RunInv(log, labels[..|labels| - 1]);
      StepInv(Run(log, labels[..|labels| - 1]), labels[|labels| - 1]);
    }
  }

  /**
    In every run: at most one row is terminal and nothing follows it, no two rows carry
    one request id, and there is an operator row only after the one observation.
   */
  lemma {:induction false} LogIsOrderly(labels: seq<Label>)
    ensures
      var log := Run([], labels);
      && (forall i | 0 <= i < |log| && IsTerminal(log[i]) :: i == |log| - 1)
      && (forall i, j | 0 <= i < j < |log| && log[i].Operator? && log[j].Operator? :: log[i].requestId != log[j].requestId)
      && (forall i | 0 <= i < |log| :: log[i].Observed? <==> i == 0)
  {
    RunInv([], labels);
  }

  lemma {:induction false} FindRequestFinds(log: seq<Row>, i: nat)
    requires i < |log| && log[i].Operator?
    requires forall j | 0 <= j < i && log[j].Operator? :: log[j].requestId != log[i].requestId
    ensures FindRequest(log, log[i].requestId) == Some(log[i])
  {
    if i > 0 {
      assert !(log[0].Operator? && log[0].requestId == log[i].requestId);
      FindRequestFinds(log[1..], i - 1);
    }
  }

  /**
    Replay: once a request has been appended, sending it again, after whatever else has
    happened, appends nothing and returns the row of the first time.
   */
  lemma ReplayReturnsOriginal(labels: seq<Label>, q: Request, email: string, more: seq<Label>, email': string)
    requires Append(Run([], labels), q, email).1.Appended?
    ensures
      var first := Append(Run([], labels), q, email);
      var later := Run(first.0, more);
      Append(later, q, email') == (later, Replayed(first.1.row))
  {
    var log := Run([], labels);
    RunInv([], labels);
    StepInv(log, Resolve(q, email));
    var log' := Append(log, q, email).0;
    RunInv(log', more);
    var later := Run(log', more);
    var i := |log|;
    assert later[i] == log'[i] == RowOf(q, email);
    assert forall j | 0 <= j < i :: later[j] == log[j] && log[j] in log;
    FindRequestFinds(later, i);
  }

  /** A used request id with different content is a conflict, whatever else is in the log. */
  lemma ReusedIdConflicts(labels: seq<Label>, row: Row, q: Request, email: string)
    requires row in Run([], labels) && row.Operator? && row.requestId == q.id && !RequestMatches(row, q)
    ensures Append(Run([], labels), q, email) == (Run([], labels), ResolutionConflict)
  {
    var log := Run([], labels);
    RunInv([], labels);
    var i :| 0 <= i < |log| && log[i] == row;
    FindRequestFinds(log, i);
  }

  /** The row is an operator's answer to a request with this id. */
  predicate Answers(row: Row, id: nat) { row.Operator? && row.requestId == id }

  /** An operator has said that the effect happened, or that it did not. */
  predicate Settles(row: Row) { row.Operator? && (row.resolution == Succeeded || row.resolution == Failed) }

  /** The row carries the request, word for word, with empty text where it has no reference. */
  predicate Carries(row: Row, q: Request) {
    && row.Operator?
    && row.actor == q.actor && row.requestId == q.id && row.resolution == q.resolution && row.reason == q.reason
    && match q.reference
       case None => row.referenceKind == "" && row.referenceValue == ""
       case Some(r) => row.referenceKind == r.kind && row.referenceValue == r.value
  }

  /**
    What a request is answered, in every run: it is appended exactly if the effect was
    observed, the id is new and nobody has settled the run, and then the new row carries
    the request; it is not required exactly if the id is new and nothing was observed; it
    is a replay exactly if the row with its id carries it, which is then returned; and
    anything else is a conflict.  Only an append changes the log.
   */
  lemma AppendAnswers(labels: seq<Label>, q: Request, email: string)
    ensures
      var log := Run([], labels);
      var (log', answer) := Append(log, q, email);
      var used, settled := exists row | row in log :: Answers(row, q.id), exists row | row in log :: Settles(row);
      && (answer.Appended? <==> Observed in log && !used && !settled)
      && (answer.NotRequired? <==> Observed !in log && !used)
      && (answer.Replayed? <==> exists row | row in log :: Answers(row, q.id) && Carries(row, q))
      && (answer.Appended? ==> log' == log + [answer.row] && Carries(answer.row, q) && answer.row.email == email)
      && (answer.Replayed? ==> answer.row in log && Carries(answer.row, q))
      && (!answer.Appended? ==> log' == log)
  {
    RunInv([], labels);
    var log := Run([], labels);
    TerminalIsSettled(log);
    hide Run, HasTerminal, Settles, FindRequest;
    if row :| row in log && Answers(row, q.id) {
      UsedIdAnswers(log, row, q, email);
    } else {
      assert FindRequest(log, q.id).None?;
      if Observed !in log { assert log == []; }
    }
  }

  lemma UsedIdAnswers(log: seq<Row>, row: Row, q: Request, email: string)
    requires Inv(log) && row in log && Answers(row, q.id)
    ensures forall r | r in log && Answers(r, q.id) :: r == row
    ensures Append(log, q, email) == (log, if Carries(row, q) then Replayed(row) else ResolutionConflict)
  {
    var i :| 0 <= i < |log| && log[i] == row;
    FindRequestFinds(log, i);
  }

  lemma TerminalIsSettled(log: seq<Row>)
    ensures HasTerminal(log) <==> exists row | row in log :: Settles(row)
  {
    if HasTerminal(log) {
      var i :| 0 <= i < |log| && IsTerminal(log[i]);
      assert log[i] in log && Settles(log[i]);
    }
    if row :| row in log && Settles(row) {
      var i :| 0 <= i < |log| && log[i] == row;
      assert IsTerminal(log[i]);
    }
  }

  // ---------------------------------------------------------------------------------
  // The reader
  // ---------------------------------------------------------------------------------

  datatype Current = StillRequired | Resolved(resolution: Resolution)
  datatype Status = Status(required: bool, current: Current, history: seq<Row>)

  /** Loads the state from the rows in the order the query returns them. */
  method LoadState(rows: seq<Row>) returns (r: Option<Status>)
    ensures r.None? <==> rows == [] || !rows[0].Observed?
    ensures r.Some? ==> r.value == Status(!Settled(rows), CurrentOf(rows), rows)
  {
    var history: seq<Row> := [];
    var current := StillRequired;
    var terminal: Option<Resolution> := None;
    for i := 0 to |rows|
      invariant history == rows[..i]
      invariant terminal == LastTerminal(rows[..i])
      invariant terminal.None? ==> current == CurrentOf(rows[..i])
    {
      var row := rows[i];
      assert rows[..i + 1] == rows[..i] + [row];
      CurrentSnoc(rows[..i], row);
      history := history + [row];
      if IsTerminal(row) {
        terminal := Some(row.resolution);
      } else if row.Operator? && terminal.None? {
        current := Resolved(row.resolution);
      }
    }
    assert rows[..|rows|] == rows;
    if history == [] || !history[0].Observed? {
      return None;
    }
    if terminal.Some? {
      current := Resolved(terminal.value);
    }
    SettledIffTerminal(rows);
    r := Some(Status(current.StillRequired? || current.resolution.RemainsUnknown?, current, history));
  }

  /** The last terminal resolution in the order given. */
  function LastTerminal(rows: seq<Row>): Option<Resolution> {
    if rows == [] then None
    else if IsTerminal(rows[|rows| - 1]) then Some(rows[|rows| - 1].resolution)
    else LastTerminal(rows[..|rows| - 1])
  }

  function CurrentOf(rows: seq<Row>): Current {
    if LastTerminal(rows).Some? then Resolved(LastTerminal(rows).value)
    else if exists i | 0 <= i < |rows| :: rows[i].Operator? then Resolved(RemainsUnknown)
    else StillRequired
  }

  /** One more row, in the order given. */
  lemma CurrentSnoc(rows: seq<Row>, row: Row)
    ensures LastTerminal(rows + [row]) == if IsTerminal(row) then Some(row.resolution) else LastTerminal(rows)
    ensures LastTerminal(rows + [row]).None? ==>
              CurrentOf(rows + [row]) == if row.Operator? then Resolved(row.resolution) else CurrentOf(rows)
  {
    var rows' := rows + [row];
    assert rows'[..|rows|] == rows && rows'[|rows|] == row;
    if exists i | 0 <= i < |rows| :: rows[i].Operator? {
      var i :| 0 <= i < |rows| && rows[i].Operator?;
      assert rows'[i].Operator?;
    }
  }

  predicate Settled(rows: seq<Row>) { HasTerminal(rows) }

  lemma {:induction false} LastTerminalHolds(rows: seq<Row>)
    ensures LastTerminal(rows).Some? <==> HasTerminal(rows)
    ensures LastTerminal(rows).Some? ==>
              exists i | 0 <= i < |rows| :: IsTerminal(rows[i]) && rows[i].resolution == LastTerminal(rows).value
  {
    if rows != [] {
      var n := |rows| - 1;
      LastTerminalHolds(rows[..n]);
      if HasTerminal(rows) && !IsTerminal(rows[n]) {
        var i :| 0 <= i < |rows| && IsTerminal(rows[i]);
        assert rows[..n][i] == rows[i];
      }
    }
  }

  lemma SettledIffTerminal(rows: seq<Row>)
    ensures Settled(rows) <==> CurrentOf(rows).Resolved? && !CurrentOf(rows).resolution.RemainsUnknown?
  {
    LastTerminalHolds(rows);
  }

  lemma SameMembers(rows: seq<Row>, log: seq<Row>, row: Row)
    requires multiset(rows) == multiset(log)
    ensures row in rows <==> row in log
  {
    assert row in rows <==> row in multiset(rows);
    assert row in log <==> row in multiset(log);
  }

  lemma TerminalTransfers(a: seq<Row>, b: seq<Row>)
    requires multiset(a) == multiset(b) && HasTerminal(a)
    ensures HasTerminal(b)
  {
    var i :| 0 <= i < |a| && IsTerminal(a[i]);
    SameMembers(a, b, a[i]);
    var j :| 0 <= j < |b| && b[j] == a[i];
  }

  /** The one terminal row of a log is the last terminal row in any order. */
  lemma TerminalInAnyOrder(log: seq<Row>, rows: seq<Row>)
    requires Inv(log) && multiset(rows) == multiset(log)
    ensures LastTerminal(rows) == LastTerminal(log)
  {
    LastTerminalHolds(rows);
    LastTerminalHolds(log);
    if HasTerminal(log) { TerminalTransfers(log, rows); }
    if HasTerminal(rows) {
      TerminalTransfers(rows, log);
      var i :| 0 <= i < |rows| && IsTerminal(rows[i]) && rows[i].resolution == LastTerminal(rows).value;
      SameMembers(rows, log, rows[i]);
      var j :| 0 <= j < |log| && log[j] == rows[i];
      var k :| 0 <= k < |log| && IsTerminal(log[k]) && log[k].resolution == LastTerminal(log).value;
    }
  }

  /**
    The order of timestamps does not matter: however a reachable log's rows are sorted,
    the reader sees the same state: still required as long as no operator has answered,
    unknown as long as none has settled the run, and then what the settling row says.
   */
  lemma ReaderIgnoresOrder(labels: seq<Label>, rows: seq<Row>)
    requires multiset(rows) == multiset(Run([], labels))
    ensures
      var log := Run([], labels);
      && CurrentOf(rows) == CurrentOf(log)
      && (CurrentOf(rows) == StillRequired <==> forall row | row in log :: !row.Operator?)
      && (CurrentOf(rows) == Resolved(RemainsUnknown) <==>
            (exists row | row in log :: row.Operator?) && forall row | row in log :: !Settles(row))
      && (forall row | row in log && Settles(row) :: CurrentOf(rows) == Resolved(row.resolution))
      && (Settled(rows) <==> exists row | row in log :: Settles(row))
  {
    RunInv([], labels);
    var log := Run([], labels);
    OrderDoesNotMatter(log, rows);
    TerminalIsSettled(log);
    LastTerminalHolds(log);
    hide Run, Inv;
    if row :| row in log && row.Operator? {
      var i :| 0 <= i < |log| && log[i] == row;
      assert log[i].Operator?;
    }
  }

  lemma OrderDoesNotMatter(log: seq<Row>, rows: seq<Row>)
    requires Inv(log) && multiset(rows) == multiset(log)
    ensures CurrentOf(rows) == CurrentOf(log)
    ensures Settled(rows) <==> HasTerminal(log)
    ensures forall row | row in log && IsTerminal(row) :: CurrentOf(rows) == Resolved(row.resolution)
  {
    TerminalInAnyOrder(log, rows);
    LastTerminalHolds(rows);
    LastTerminalHolds(log);
    OperatorsInAnyOrder(log, rows);
    OperatorsInAnyOrder(rows, log);
    forall row | row in log && IsTerminal(row) ensures LastTerminal(log) == Some(row.resolution) {
      TheTerminalRow(log, row);
    }
  }

  lemma TheTerminalRow(log: seq<Row>, row: Row)
    requires Inv(log) && row in log && IsTerminal(row)
    ensures LastTerminal(log) == Some(row.resolution)
  {
    var k :| 0 <= k < |log| && log[k] == row;
    assert k == |log| - 1;
  }

  lemma OperatorsInAnyOrder(a: seq<Row>, b: seq<Row>)
    requires multiset(a) == multiset(b)
    ensures (exists i | 0 <= i < |a| :: a[i].Operator?) ==> exists i | 0 <= i < |b| :: b[i].Operator?
  {
    if i :| 0 <= i < |a| && a[i].Operator? {
      SameMembers(a, b, a[i]);
      var j :| 0 <= j < |b| && b[j] == a[i];
    }
  }

  /** Once settled, a run stays settled with the same state, whatever happens and however rows are sorted. */
  lemma SettledForever(labels: seq<Label>, more: seq<Label>, rows: seq<Row>)
    requires HasTerminal(Run([], labels))
    requires multiset(rows) == multiset(Run(Run([], labels), more))
    ensures Run(Run([], labels), more) == Run([], labels)
    ensures Settled(rows) && CurrentOf(rows) == CurrentOf(Run([], labels))
  {
    RunInv([], labels);
    TerminalFreezes(Run([], labels), more);
    ReaderIgnoresOrder(labels, rows);
  }

  lemma {:induction false} TerminalFreezes(log: seq<Row>, labels: seq<Label>)
    requires Inv(log) && HasTerminal(log)
    ensures Run(log, labels) == log
  {
    if labels != [] {
      TerminalFreezes(log, labels[..|labels| - 1]);
      assert log[0] in log;
    }
  }

  // ---------------------------------------------------------------------------------
  // The log as the store appends to it
  // ---------------------------------------------------------------------------------

  class Log {
    var rows: seq<Row>

    constructor ()
      ensures rows == []
    {
      rows := [];
    }

    method ObserveEffect()
      modifies this
      ensures rows == Step(old(rows), Label.ObserveEffect)
    {
      if Observed !in rows {
        rows := rows + [Observed];
      }
    }

    method AppendOperatorReconciliation(q: Request, email: string) returns (answer: Answer)
      modifies this
      ensures (rows, answer) == Append(old(rows), q, email)
    {
      var i := 0;
      while i < |rows|
        invariant 0 <= i <= |rows|
        invariant FindRequest(rows, q.id) == FindRequest(rows[i..], q.id)
      {
        var row := rows[i];
        assert rows[i..][1..] == rows[i + 1..];
        if row.Operator? && row.requestId == q.id {
          return if RequestMatches(row, q) then Replayed(row) else ResolutionConflict;
        }
        i := i + 1;
      }
      if exists k | 0 <= k < |rows| :: IsTerminal(rows[k]) {
        return ResolutionConflict;
      }
      if Observed !in rows {
        return NotRequired;
      }
      answer := Appended(RowOf(q, email));
      rows := rows + [RowOf(q, email)];
    }
  }
}
