/**
  What becomes of an alert that a worker delivers, and when it can crash the process:
  moving an exhausted alert to the dead letters writes into its details map, which must
  not be missing.
 */
module AlertCrash {
  import opened AlertQueue
  import opened AlertQueueTheorems

  /** The process has crashed on this alert: a worker still holds it, exhausted. */
  ghost predicate CrashedOn(s: State, token: nat) {
    s.crashed && exists a | a in s.hands :: a.token == token && !Pending(a)
  }

  // ---------------------------------------------------------------------------------
  // Only an alert without details, sent somewhere, can
  // ---------------------------------------------------------------------------------

  /** The alert is as it was enqueued. */
  predicate Same(a: Alert, channels: seq<string>, max: int, hasDetails: bool) {
    a.channels == channels && a.max == max && a.hasDetails == hasDetails
  }

  /** Wherever the alert is, it is as it was enqueued; and who crashes has a channel. */
  ghost predicate Keeps(s: State, token: nat, channels: seq<string>, max: int, hasDetails: bool) {
    && (forall a | a in s.queue && a.token == token :: Same(a, channels, max, hasDetails))
    && (forall a | a in s.hands && a.token == token :: Same(a, channels, max, hasDetails))
    && (forall a | a in s.timers && a.token == token :: Same(a, channels, max, hasDetails))
    && (forall a | a in s.dead && a.token == token :: Same(a, channels, max, hasDetails))
    && (forall a | a in s.hands && a.token == token && !Pending(a) :: !hasDetails && channels != [])
    && token < s.stats.enqueued
  }

  lemma KeepsStep(s: State, l: Label, token: nat, channels: seq<string>, max: int, hasDetails: bool)
    requires Inv(s) && Keeps(s, token, channels, max, hasDetails)
    ensures Keeps(Step(s, l), token, channels, max, hasDetails)
  {
    hide Conserved;
    if !s.crashed {
      match l
      case Enqueue(_, _, _) =>
      case Take => TakeKeeps(s, token, channels, max, hasDetails);
      case Process(i, results) =>
        if i < |s.hands| && |results| == |s.hands[i].channels| {
          ProcessKeeps(s, i, results, token, channels, max, hasDetails);
        }
      case Fire(i) =>
        if i < |s.timers| && s.timers[i].attempts >= 1 { FireKeeps(s, i, token, channels, max, hasDetails); }
    }
  }

  lemma TakeKeeps(s: State, token: nat, channels: seq<string>, max: int, hasDetails: bool)
    requires ListsOk(s) && Keeps(s, token, channels, max, hasDetails)
    ensures Keeps(TakeStep(s), token, channels, max, hasDetails)
  {
    if s.queue != [] { assert s.queue[|s.queue| - 1] in s.queue; }
  }

  lemma FireKeeps(s: State, i: nat, token: nat, channels: seq<string>, max: int, hasDetails: bool)
    requires Keeps(s, token, channels, max, hasDetails) && i < |s.timers| && s.timers[i].attempts >= 1
    ensures Keeps(FireStep(s, i), token, channels, max, hasDetails)
  {
    hide Pending;
    assert s.timers[i] in s.timers;
    forall a | a in Remove(s.timers, i) ensures a in s.timers { RemovedMembers(s.timers, i, a); }
  }

  lemma ProcessKeeps(s: State, i: nat, results: seq<bool>, token: nat, channels: seq<string>, max: int, hasDetails: bool)
    requires ListsOk(s) && !s.crashed && Keeps(s, token, channels, max, hasDetails)
    requires i < |s.hands| && |results| == |s.hands[i].channels|
    ensures Keeps(ProcessStep(s, i, results), token, channels, max, hasDetails)
  {
    hide TotalWait;
    assert s.hands[i] in s.hands;
    forall a | a in Remove(s.hands, i) ensures a in s.hands { RemovedMembers(s.hands, i, a); }
  }

  lemma {:induction false} KeepsRun(s: State, labels: seq<Label>, token: nat, channels: seq<string>, max: int, hasDetails: bool)
    requires Inv(s) && Keeps(s, token, channels, max, hasDetails)
    ensures Keeps(Run(s, labels), token, channels, max, hasDetails)
  {
    hide Inv, Keeps, Step;
    if labels != [] {
      RunInv(s, labels[..|labels| - 1]);
      KeepsRun(s, labels[..|labels| - 1], token, channels, max, hasDetails);
      KeepsStep(Run(s, labels[..|labels| - 1]), labels[|labels| - 1], token, channels, max, hasDetails);
    }
  }

  lemma {:induction false} NotCounted(alerts: seq<Alert>, token: nat)
    requires Count(alerts, token) == 0
    ensures forall a | a in alerts :: a.token != token
  {
    if alerts != [] {
      NotCounted(alerts[1..], token);
    }
  }

  lemma NewAlertIsKept(s: State, channels: seq<string>, max: int, hasDetails: bool)
    requires Inv(s) && !s.crashed
    ensures Keeps(Step(s, Enqueue(channels, max, hasDetails)), s.stats.enqueued, channels,
                  if max == 0 then 3 else max, hasDetails)
  {
    hide ListsOk, Count;
    var token := s.stats.enqueued;
    assert Places(s, token) == 0;
    NotCounted(s.queue, token);
    NotCounted(s.hands, token);
    NotCounted(s.timers, token);
    NotCounted(s.dead, token);
  }

  // ---------------------------------------------------------------------------------
  // Any such alert can
  // ---------------------------------------------------------------------------------

  lemma {:induction false} RunConcat(s: State, a: seq<Label>, b: seq<Label>)
    ensures Run(s, a + b) == Run(Run(s, a), b)
    decreases |b|
  {
    if b == [] {
      assert a + b == a;
    } else {
      assert (a + b)[..|a + b| - 1] == a + b[..|b| - 1];
      RunConcat(s, a, b[..|b| - 1]);
    }
  }

  lemma RunOne(s: State, l: Label)
    ensures Run(s, [l]) == Step(s, l)
  {
    assert [l][..0] == [];
  }

  /** The workers empty the queue; the alert pushed last is taken last. */
  lemma {:induction false} TakeAll(s: State) returns (labels: seq<Label>)
    requires !s.crashed && s.queue != []
    ensures
      var t := Run(s, labels);
      !t.crashed && t.queue == [] && t.hands != [] && t.hands[|t.hands| - 1] == s.queue[0]
    decreases |s.queue|
  {
    RunOne(s, Take);
    labels := [Take];
    if |s.queue| > 1 {
      var rest := TakeAll(Step(s, Take));
      RunConcat(s, [Take], rest);
      labels := [Take] + rest;
    }
  }

  /** One failed attempt of the alert in hand `i`. */
  function Failure(a: Alert): seq<bool> { seq(|a.channels|, _ => false) }

  lemma FailOnce(s: State, i: nat)
    requires !s.crashed && s.queue == [] && i < |s.hands| && !s.hands[i].hasDetails && s.hands[i].channels != []
    ensures
      var a := s.hands[i];
      var t := Step(s, Process(i, Failure(a)));
      if a.attempts + 1 < a.max then
        var u := Step(Step(t, Fire(|s.timers|)), Take);
        && !u.crashed && u.queue == [] && u.hands != []
        && var b := u.hands[|u.hands| - 1];
           b.token == a.token && b.channels == a.channels && b.max == a.max && !b.hasDetails
           && b.attempts == a.attempts + 1
      else CrashedOn(t, a.token)
  {
    hide Wait, TotalWait;
    var a := s.hands[i];
    assert Failure(a)[0] == false;
    var t := Step(s, Process(i, Failure(a)));
    var a' := a.(attempts := a.attempts + 1);
    if a'.attempts < a.max {
      assert t.timers[|s.timers|] == a' && t.queue == [];
    } else {
      assert t.hands[i] == a' && !Pending(a');
    }
  }

  /** An alert without details whose deliveries keep failing ends in a crash. */
  lemma {:induction false} FailUntilCrash(s: State, i: nat) returns (labels: seq<Label>)
    requires !s.crashed && s.queue == [] && i < |s.hands| && !s.hands[i].hasDetails && s.hands[i].channels != []
    ensures CrashedOn(Run(s, labels), s.hands[i].token)
    decreases s.hands[i].max - s.hands[i].attempts
  {
    hide CrashedOn, Step;
    var a := s.hands[i];
    var process := Process(i, Failure(a));
    FailOnce(s, i);
    RunOne(s, process);
    labels := [process];
    if a.attempts + 1 < a.max {
      var fire := Fire(|s.timers|);
      var u := Step(Step(Step(s, process), fire), Take);
      RunOne(Step(s, process), fire);
      RunOne(Step(Step(s, process), fire), Take);
      RunConcat(s, [process], [fire]);
      RunConcat(s, [process] + [fire], [Take]);
      var rest := FailUntilCrash(u, |u.hands| - 1);
      RunConcat(s, [process] + [fire] + [Take], rest);
      labels := [process] + [fire] + [Take] + rest;
    }
  }

  /** One alert without details that fails once is enough. */
  lemma AlertWithoutDetailsCrashes()
    ensures Run(INITIAL, [Enqueue(["email"], 1, false), Take, Process(0, [false])]).crashed
  {
    var enqueue, process := Enqueue(["email"], 1, false), Process(0, [false]);
    RunOne(INITIAL, enqueue);
    RunOne(Step(INITIAL, enqueue), Take);
    RunOne(Step(Step(INITIAL, enqueue), Take), process);
    RunConcat(INITIAL, [enqueue], [Take]);
    RunConcat(INITIAL, [enqueue] + [Take], [process]);
    assert [enqueue, Take, process] == [enqueue] + [Take] + [process];
    assert Step(Step(INITIAL, enqueue), Take).hands == [Alert(0, ["email"], 1, 0, false, 0)];
    assert [false][0] == false;
  }

  lemma CrashesOnlyWithoutDetails(s: State, channels: seq<string>, max: int, hasDetails: bool, more: seq<Label>)
    requires Inv(s) && !s.crashed
    requires CrashedOn(Run(Step(s, Enqueue(channels, max, hasDetails)), more), s.stats.enqueued)
    ensures !hasDetails && channels != []
  {
    hide Inv, Step, Run;
    var s' := Step(s, Enqueue(channels, max, hasDetails));
    StepInv(s, Enqueue(channels, max, hasDetails));
    NewAlertIsKept(s, channels, max, hasDetails);
    KeepsRun(s', more, s.stats.enqueued, channels, if max == 0 then 3 else max, hasDetails);
  }

  lemma CrashesWithoutDetails(s: State, channels: seq<string>, max: int) returns (more: seq<Label>)
    requires !s.crashed && channels != []
    ensures CrashedOn(Run(Step(s, Enqueue(channels, max, false)), more), s.stats.enqueued)
  {
    hide CrashedOn, Run;
    var s' := Step(s, Enqueue(channels, max, false));
    var takes := TakeAll(s');
    var t := Run(s', takes);
    var fails := FailUntilCrash(t, |t.hands| - 1);
    RunConcat(s', takes, fails);
    more := takes + fails;
  }

  /**
    What a caller can check before enqueueing: from every reachable state, an alert can
    crash the process in some continuation exactly if it has no details and at least one
    channel, whatever its number of attempts.
   */
  lemma CanCrashIff(labels: seq<Label>, channels: seq<string>, max: int, hasDetails: bool)
    requires !Run(INITIAL, labels).crashed
    ensures
      var s := Run(INITIAL, labels);
      (exists more :: CrashedOn(Run(Step(s, Enqueue(channels, max, hasDetails)), more), s.stats.enqueued)) <==>
      !hasDetails && channels != []
  {
    InitialInv();
    RunInv(INITIAL, labels);
    hide Inv, Run, Step, CrashedOn;
    var s := Run(INITIAL, labels);
    var s' := Step(s, Enqueue(channels, max, hasDetails));
    if more :| CrashedOn(Run(s', more), s.stats.enqueued) {
      CrashesOnlyWithoutDetails(s, channels, max, hasDetails, more);
    }
    if !hasDetails && channels != [] {
      var more := CrashesWithoutDetails(s, channels, max);
    }
  }

  // ---------------------------------------------------------------------------------
  // What one delivery does, and how often the default tries
  // ---------------------------------------------------------------------------------

  ghost predicate Holds(alerts: seq<Alert>, token: nat) { exists a | a in alerts :: a.token == token }

  lemma {:induction false} HeldIsCounted(alerts: seq<Alert>, a: Alert)
    requires a in alerts
    ensures Count(alerts, a.token) >= 1
  {
    if alerts[0] != a { HeldIsCounted(alerts[1..], a); }
  }

  /** An alert in a worker's hands is nowhere else. */
  lemma OnlyInHands(s: State, i: nat)
    requires Inv(s) && i < |s.hands|
    ensures !Holds(s.timers, s.hands[i].token) && !Holds(s.dead, s.hands[i].token) && !Holds(s.done, s.hands[i].token)
  {
    hide ListsOk, Count;
    var a := s.hands[i];
    HeldIsCounted(s.hands, a);
    assert Places(s, a.token) <= 1;
    NotCounted(s.timers, a.token);
    NotCounted(s.dead, a.token);
    NotCounted(s.done, a.token);
  }

  lemma HoldsOneMore(alerts: seq<Alert>, a: Alert)
    ensures Holds(alerts + [a], a.token) && Holds([a] + alerts, a.token)
  {
    assert a in alerts + [a] && a in [a] + alerts;
  }

  /**
    A delivery, from every reachable state: the alert is done exactly if no channel failed;
    it is retried exactly if one did and it has attempts left; it is a dead letter exactly
    if one did, it has none left, and it has details; and the counters say so.
   */
  lemma DeliveryOutcome(labels: seq<Label>, i: nat, results: seq<bool>)
    requires
      var s := Run(INITIAL, labels);
      !s.crashed && i < |s.hands| && |results| == |s.hands[i].channels|
    ensures
      var s := Run(INITIAL, labels);
      var s', a := Step(s, Process(i, results)), s.hands[i];
      var failed, last := false in results, a.attempts + 1 >= a.max;
      && (Holds(s'.done, a.token) <==> !failed)
      && (Holds(s'.timers, a.token) <==> failed && !last)
      && (Holds(s'.dead, a.token) <==> failed && last && a.hasDetails)
      && (s'.crashed <==> failed && last && !a.hasDetails)
      && s'.stats.delivered == s.stats.delivered + (if true in results then 1 else 0)
      && s'.stats.retried == s.stats.retried + (if failed && !last then 1 else 0)
      && s'.stats.failed == s.stats.failed + (if failed && last && a.hasDetails then 1 else 0)
  {
    InitialInv();
    RunInv(INITIAL, labels);
    var s := Run(INITIAL, labels);
    OnlyInHands(s, i);
    var a := s.hands[i].(attempts := s.hands[i].attempts + 1);
    HoldsOneMore(s.done, a);
    HoldsOneMore(s.timers, a);
    HoldsOneMore(s.dead, a);
    hide Inv, Run, Holds, Remove;
  }

  /** An alert that does not say how often to try and ends up a dead letter was tried three times, one and two minutes apart. */
  lemma DefaultIsThreeAttempts(labels: seq<Label>, channels: seq<string>, hasDetails: bool, more: seq<Label>, a: Alert)
    requires !Run(INITIAL, labels).crashed
    requires
      var s := Run(INITIAL, labels);
      a in Run(Step(s, Enqueue(channels, 0, hasDetails)), more).dead && a.token == s.stats.enqueued
    ensures a.attempts == 3 && a.waited == 3 * 60_000_000_000
  {
    InitialInv();
    RunInv(INITIAL, labels);
    var s := Run(INITIAL, labels);
    var l := Enqueue(channels, 0, hasDetails);
    StepInv(s, l);
    RunInv(Step(s, l), more);
    NewAlertIsKept(s, channels, 0, hasDetails);
    KeepsRun(Step(s, l), more, s.stats.enqueued, channels, 3, hasDetails);
    assert Exhausted(a);
    TotalWaitIs(2);
    assert Pow2(2) == 4;
  }
}
