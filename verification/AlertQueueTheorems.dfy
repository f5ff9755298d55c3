/** What every run of the alert queue keeps, and the queue as the workers change it in place. */
module AlertQueueTheorems {
  import opened AlertQueue

  lemma RemovedMembers(s: seq<Alert>, i: nat, a: Alert)
    requires i < |s|
    ensures a in Remove(s, i) ==> a in s
  {
  }

  lemma EnqueueInv(s: State, channels: seq<string>, max: int, hasDetails: bool)
    requires Inv(s) && !s.crashed
    ensures Inv(EnqueueStep(s, channels, max, hasDetails))
  {
    var s' := EnqueueStep(s, channels, max, hasDetails);
    forall token: nat
      ensures Places(s', token) == if token < s'.stats.enqueued then 1 else 0
    {
      var before := Places(s, token);
      Pushed(s.queue, s'.queue[0], token);
    }
    Pushed(s.queue, s'.queue[0], 0);
  }

  lemma TakeInv(s: State)
    requires Inv(s) && !s.crashed
    ensures Inv(TakeStep(s))
  {
    if s.queue != [] {
      var s' := TakeStep(s);
      var n := |s.queue| - 1;
      assert Remove(s.queue, n) == s'.queue;
      forall token: nat
        ensures Places(s', token) == Places(s, token)
      {
        Removed(s.queue, n, token);
        Pushed(s.hands, s.queue[n], token);
      }
      Removed(s.queue, n, 0);
      Pushed(s.hands, s.queue[n], 0);
    }
  }

  lemma FireInv(s: State, i: nat)
    requires Inv(s) && !s.crashed && i < |s.timers| && s.timers[i].attempts >= 1
    ensures Inv(FireStep(s, i))
  {
    var s' := FireStep(s, i);
    var a := s'.queue[0];
    assert s.timers[i] in s.timers;
    forall token: nat ensures Places(s', token) == Places(s, token) {
      Removed(s.timers, i, token);
      Pushed(s.queue, a, token);
    }
    Removed(s.timers, i, 0);
    Pushed(s.queue, a, 0);
    assert ListsOk(s') by {
      forall x | x in s'.queue ensures Pending(x) { if x != a { assert x in s.queue; } }
      forall x | x in s'.timers ensures Sleeping(x) { RemovedMembers(s.timers, i, x); }
    }
  }

  /** Where the alert goes after one more attempt, and that nothing else moves. */
  lemma ProcessLists(s: State, i: nat, results: seq<bool>)
    requires ListsOk(s) && !s.crashed && i < |s.hands|
    ensures ListsOk(ProcessStep(s, i, results))
  {
    var s' := ProcessStep(s, i, results);
    var b := s.hands[i];
    assert b in s.hands && Pending(b);
    var a := b.(attempts := b.attempts + 1);
    assert a.waited == TotalWait(a.attempts - 1);
    forall x | x in Remove(s.hands, i) ensures Pending(x) { RemovedMembers(s.hands, i, x); }
    if s'.crashed {
      assert s'.hands[i] == a && !Pending(a);
      forall x | x in s'.hands ensures Pending(x) || (Exhausted(x) && !x.hasDetails) {
        if x != a { assert x in s.hands; }
      }
    }
  }

  lemma Replaced(s: seq<Alert>, i: nat, a: Alert, token: nat)
    requires i < |s|
    ensures Count(s[i := a], token) == Count(Remove(s, i), token) + One(a, token)
    ensures Work(s[i := a]) == Work(Remove(s, i)) + a.attempts
  {
    Removed(s[i := a], i, token);
    assert Remove(s[i := a], i) == Remove(s, i);
  }

  lemma ProcessPlaces(s: State, i: nat, results: seq<bool>, token: nat)
    requires i < |s.hands|
    ensures
      var s' := ProcessStep(s, i, results);
      && Places(s', token) == Places(s, token)
      && TotalWork(s') == TotalWork(s) + 1
  {
    var b := s.hands[i];
    var a := b.(attempts := b.attempts + 1);
    hide Count, Work;
    Removed(s.hands, i, token);
    if false !in results {
      Pushed(s.done, a, token);
    } else if a.attempts < a.max {
      Pushed(s.timers, a, token);
    } else if a.hasDetails {
      Pushed(s.dead, a, token);
    } else {
      Replaced(s.hands, i, a, token);
    }
  }

  lemma ProcessInv(s: State, i: nat, results: seq<bool>)
    requires Inv(s) && !s.crashed && i < |s.hands|
    ensures Inv(ProcessStep(s, i, results))
  {
    hide ListsOk, Places, TotalWork;
    ProcessLists(s, i, results);
    forall token: nat ensures Places(ProcessStep(s, i, results), token) == Places(s, token) {
      ProcessPlaces(s, i, results, token);
    }
    ProcessPlaces(s, i, results, 0);
  }

  lemma StepInv(s: State, l: Label)
    requires Inv(s)
    ensures Inv(Step(s, l))
  {
    hide Inv, EnqueueStep, TakeStep, ProcessStep, FireStep;
    if !s.crashed {
      match l
      case Enqueue(channels, max, hasDetails) => EnqueueInv(s, channels, max, hasDetails);
      case Take => TakeInv(s);
      case Process(i, results) =>
        if i < |s.hands| && |results| == |s.hands[i].channels| { ProcessInv(s, i, results); }
      case Fire(i) =>
        if i < |s.timers| && s.timers[i].attempts >= 1 { FireInv(s, i); }
    }
  }

  lemma {:induction false} RunInv(s: State, labels: seq<Label>)
    requires Inv(s)
    ensures Inv(Run(s, labels))
  {
    hide Inv, Step;
    if labels != [] {
      RunInv(s, labels[..|labels| - 1]);
      StepInv(Run(s, labels[..|labels| - 1]), labels[|labels| - 1]);
    }
  }

  lemma InitialInv()
    ensures Inv(INITIAL)
  {
  }

  // ---------------------------------------------------------------------------------
  // The theorems
  // ---------------------------------------------------------------------------------

  /**
    Conservation: with any number of workers and timers, every alert that was ever
    enqueued is in exactly one of queue, hands, timers, dead letters and done; and every
    attempt ever made ended in exactly one retry, dead letter or completion (or the one
    crash).
   */
  lemma NoAlertIsLostOrDuplicated(labels: seq<Label>, token: nat)
    ensures
      var s := Run(INITIAL, labels);
      && Places(s, token) == (if token < s.stats.enqueued then 1 else 0)
      && TotalWork(s) == s.stats.retried + |s.dead| + |s.done| + (if s.crashed then 1 else 0)
      && s.stats.failed == |s.dead|
  {
    InitialInv();
    RunInv(INITIAL, labels);
  }

  /** No alert is processed more often than it asks for, or once if it asks for none. */
  lemma AttemptsAreBounded(labels: seq<Label>)
    ensures
      var s := Run(INITIAL, labels);
      && (forall a | a in s.queue + s.timers + s.done + s.dead + s.hands :: a.attempts <= Limit(a.max))
      && (forall a | a in s.dead :: a.attempts == Limit(a.max))
  {
    InitialInv();
    RunInv(INITIAL, labels);
    hide Conserved;
    var s := Run(INITIAL, labels);
    forall a | a in s.queue + s.timers + s.done + s.dead + s.hands ensures a.attempts <= Limit(a.max) {
      assert a in s.queue || a in s.timers || a in s.done || a in s.dead || a in s.hands;
    }
  }

  /**
    A dead letter that asked for M attempts has waited 2^(M-1) - 1 minutes of backoff in
    total exactly when M is at most 29; beyond that the duration has overflowed.
   */
  lemma DeadLettersHaveWaited(labels: seq<Label>, a: Alert)
    requires a in Run(INITIAL, labels).dead && a.max >= 1
    ensures a.waited == (Pow2(a.max - 1) - 1) * 60_000_000_000 <==> a.max <= 29
  {
    InitialInv();
    RunInv(INITIAL, labels);
    TotalWaitIs(a.max - 1);
  }

  /** The process crashes on a delivery exactly when its last permitted attempt fails and the alert has no details. */
  lemma CrashesIff(labels: seq<Label>, i: nat, results: seq<bool>)
    requires
      var s := Run(INITIAL, labels);
      !s.crashed && i < |s.hands| && |results| == |s.hands[i].channels|
    ensures
      var s := Run(INITIAL, labels);
      Step(s, Process(i, results)).crashed <==>
      false in results && s.hands[i].attempts + 1 == Limit(s.hands[i].max) && !s.hands[i].hasDetails
  {
    InitialInv();
    RunInv(INITIAL, labels);
    hide Conserved;
    var s := Run(INITIAL, labels);
    assert s.hands[i] in s.hands;
  }

  /** A crashed process holds the alert that crashed it, and it was enqueued without details. */
  lemma CrashNeedsAnAlertWithoutDetails(labels: seq<Label>)
    requires Run(INITIAL, labels).crashed
    ensures exists a | a in Run(INITIAL, labels).hands :: !a.hasDetails && a.attempts == Limit(a.max)
  {
    InitialInv();
    RunInv(INITIAL, labels);
    hide Conserved;
    var s := Run(INITIAL, labels);
    var a :| a in s.hands && !Pending(a);
  }

  // ---------------------------------------------------------------------------------
  // Order and delivery counts
  // ---------------------------------------------------------------------------------

  /** The alert a step puts into the queue, fresh or from a timer. */
  function Arrival(s: State, l: Label): seq<nat> {
    if s.crashed then []
    else if l.Enqueue? then [s.stats.enqueued]
    else if l.Fire? && l.timer < |s.timers| && s.timers[l.timer].attempts >= 1 then [s.timers[l.timer].token]
    else []
  }

  /** The alert a step puts into a worker's hands. */
  function Departure(s: State, l: Label): seq<nat> {
    if |Step(s, l).hands| > |s.hands| then [Step(s, l).hands[|s.hands|].token] else []
  }

  function Arrivals(labels: seq<Label>): seq<nat> {
    if labels == [] then []
    else
      var before := labels[..|labels| - 1];
      Arrivals(before) + Arrival(Run(INITIAL, before), labels[|labels| - 1])
  }

  function Departures(labels: seq<Label>): seq<nat> {
    if labels == [] then []
    else
      var before := labels[..|labels| - 1];
      Departures(before) + Departure(Run(INITIAL, before), labels[|labels| - 1])
  }

  /** The waiting alerts, the one to be taken next first. */
  function Waiting(queue: seq<Alert>): seq<nat> {
    if queue == [] then [] else Waiting(queue[1..]) + [queue[0].token]
  }

  lemma {:induction false} NextIsOldest(queue: seq<Alert>)
    requires queue != []
    ensures Waiting(queue) == [queue[|queue| - 1].token] + Waiting(queue[..|queue| - 1])
  {
    if |queue| == 1 {
      assert queue[1..] == [] && queue[..0] == [];
    } else {
      NextIsOldest(queue[1..]);
      assert queue[1..][..|queue| - 2] == queue[..|queue| - 1][1..];
    }
  }

  lemma StepKeepsOrder(s: State, l: Label)
    ensures Waiting(s.queue) + Arrival(s, l) == Departure(s, l) + Waiting(Step(s, l).queue)
  {
    if !s.crashed {
      match l
      case Enqueue(_, _, _) => assert Step(s, l).queue[1..] == s.queue;
      case Fire(i) => if i < |s.timers| && s.timers[i].attempts >= 1 { assert Step(s, l).queue[1..] == s.queue; }
      case Take => if s.queue != [] { NextIsOldest(s.queue); }
      case Process(i, results) =>
    }
  }

  /** Workers get alerts in the order in which they were queued, retries included. */
  lemma {:induction false} FirstInFirstOut(labels: seq<Label>)
    ensures Arrivals(labels) == Departures(labels) + Waiting(Run(INITIAL, labels).queue)
  {
    if labels != [] {
      hide Step, Arrival, Departure, Waiting;
      var before, l := labels[..|labels| - 1], labels[|labels| - 1];
      var s := Run(INITIAL, before);
      FirstInFirstOut(before);
      StepKeepsOrder(s, l);
      assert Departures(before) + Waiting(s.queue) + Arrival(s, l) ==
             Departures(before) + (Waiting(s.queue) + Arrival(s, l));
    }
  }

  /** The alerts that were sent through at least one channel, among those that are done. */
  function Sent(done: seq<Alert>): nat {
    if done == [] then 0
    else Sent(done[..|done| - 1]) + if done[|done| - 1].channels != [] then 1 else 0
  }

  lemma ProcessDelivers(s: State, i: nat, results: seq<bool>)
    requires i < |s.hands| && |results| == |s.hands[i].channels|
    ensures
      var s' := ProcessStep(s, i, results);
      && Sent(s'.done) - Sent(s.done) <= s'.stats.delivered - s.stats.delivered <= 1
      && s'.stats.delivered >= s.stats.delivered
  {
    var s' := ProcessStep(s, i, results);
    if false !in results {
      assert s'.done[..|s.done|] == s.done;
      if results != [] { assert results[0] in results && results[0] == true; }
    }
  }

  /** Every alert that is done and had a channel was counted as delivered, and no attempt was counted twice. */
  lemma {:induction false} DeliveredIsCounted(labels: seq<Label>)
    ensures
      var s := Run(INITIAL, labels);
      Sent(s.done) <= s.stats.delivered <= TotalWork(s)
  {
    if labels != [] {
      hide Step, Sent, TotalWork;
      var before := labels[..|labels| - 1];
      DeliveredIsCounted(before);
      DeliveredStep(Run(INITIAL, before), labels[|labels| - 1]);
    }
  }

  lemma DeliveredStep(s: State, l: Label)
    requires Sent(s.done) <= s.stats.delivered <= TotalWork(s)
    ensures Sent(Step(s, l).done) <= Step(s, l).stats.delivered <= TotalWork(Step(s, l))
  {
    hide Sent;
    if !s.crashed {
      match l
      case Process(i, results) =>
        if i < |s.hands| && |results| == |s.hands[i].channels| {
          ProcessDelivers(s, i, results);
          ProcessPlaces(s, i, results, 0);
        }
      case Enqueue(_, _, _) => Pushed(s.queue, Step(s, l).queue[0], 0);
      case Take =>
        if s.queue != [] {
          var n := |s.queue| - 1;
          assert Remove(s.queue, n) == Step(s, l).queue;
          Removed(s.queue, n, 0);
          Pushed(s.hands, s.queue[n], 0);
        }
      case Fire(i) =>
        if i < |s.timers| && s.timers[i].attempts >= 1 {
          Removed(s.timers, i, 0);
          Pushed(s.queue, Step(s, l).queue[0], 0);
        }
    }
  }

  // ---------------------------------------------------------------------------------
  // The queue as the workers change it
  // ---------------------------------------------------------------------------------

  class Queue {
    var queue: seq<Alert>
    var hands: seq<Alert>
    var timers: seq<Alert>
    var dead: seq<Alert>
    var done: seq<Alert>
    var crashed: bool
    var stats: Stats

    ghost function View(): State
      reads this
    {
      State(queue, hands, timers, dead, done, crashed, stats)
    }

    constructor ()
      ensures View() == INITIAL
    {
      queue, hands, timers, dead, done := [], [], [], [], [];
      crashed, stats := false, Stats(0, 0, 0, 0);
    }

    method EnqueueAlert(channels: seq<string>, max: int, hasDetails: bool)
      requires !crashed
      modifies this
      ensures View() == Step(old(View()), Enqueue(channels, max, hasDetails))
    {
      var attempts := max;
      if attempts == 0 {
        attempts := DEFAULT_ATTEMPTS;
      }
      queue := [Alert(stats.enqueued, channels, attempts, 0, hasDetails, 0)] + queue;
      stats := stats.(enqueued := stats.enqueued + 1);
    }

    /** A worker pops the oldest alert. */
    method TakeAlert()
      requires !crashed
      modifies this
      ensures View() == Step(old(View()), Take)
    {
      if queue != [] {
        hands := hands + [queue[|queue| - 1]];
        queue := queue[..|queue| - 1];
      }
    }

    /** Sends through every channel and settles the alert. */
    method ProcessAlert(i: nat, results: seq<bool>)
      requires !crashed && i < |hands| && |results| == |hands[i].channels|
      modifies this
      ensures View() == Step(old(View()), Process(i, results))
    {
      var alert := hands[i];
      alert := alert.(attempts := alert.attempts + 1);
      var errors, delivered := 0, 0;
      for c := 0 to |alert.channels|
        invariant errors > 0 <==> false in results[..c]
        invariant delivered > 0 <==> true in results[..c]
      {
        assert results[..c + 1] == results[..c] + [results[c]];
        if results[c] {
          delivered := delivered + 1;
        } else {
          errors := errors + 1;
        }
      }
      assert results[..|results|] == results;
      if delivered > 0 {
        stats := stats.(delivered := stats.delivered + 1);
      }
      if errors == 0 {
        hands, done := Remove(hands, i), done + [alert];
      } else if alert.attempts < alert.max {
        hands, timers := Remove(hands, i), timers + [alert];
        stats := stats.(retried := stats.retried + 1);
      } else if !alert.hasDetails {
        hands, crashed := hands[i := alert], true;
      } else {
        hands, dead := Remove(hands, i), [alert] + dead;
        stats := stats.(failed := stats.failed + 1);
      }
    }

    /** A backoff timer runs out and pushes its alert again. */
    method FireTimer(i: nat)
      requires !crashed && i < |timers| && timers[i].attempts >= 1
      modifies this
      ensures View() == Step(old(View()), Fire(i))
    {
      var alert := timers[i];
      timers := Remove(timers, i);
      queue := [alert.(waited := alert.waited + Wait(alert.attempts))] + queue;
    }
  }
}
