/**
  The alert delivery queue (alerts/alert_sender.go): workers take alerts, send them
  through their channels, and on a failure schedule a retry with exponential backoff or
  move the alert to the dead-letter queue.  Steps of any number of workers and timers
  interleave; pushes to Redis succeed.
 */
module AlertQueue {

  /** `token` tells enqueued alerts apart; `waited` is the backoff the alert has sat through, in nanoseconds. */
  datatype Alert = Alert(token: nat, channels: seq<string>, max: int, attempts: nat, hasDetails: bool, waited: nat)

  datatype Stats = Stats(enqueued: nat, delivered: nat, retried: nat, failed: nat)

  datatype State = State(
    queue: seq<Alert>, hands: seq<Alert>, timers: seq<Alert>, dead: seq<Alert>, done: seq<Alert>,
    crashed: bool, stats: Stats)

  const DEFAULT_ATTEMPTS := 3

  // ---------------------------------------------------------------------------------
  // Backoff, in 64-bit arithmetic
  // ---------------------------------------------------------------------------------

  const MINUTE := 60_000_000_000
  const TWO_63 := 0x8000_0000_0000_0000
  const TWO_64 := 0x1_0000_0000_0000_0000

  function Pow2(n: nat): (r: nat)
    ensures r > 0
  {
    if n == 0 then 1 else 2 * Pow2(n - 1)
  }

  /** A 64-bit signed integer after wrap-around. */
  function Wrap(x: int): (r: int)
    ensures -TWO_63 <= r < TWO_63
    ensures -TWO_63 <= x < TWO_63 ==> r == x
  {
    (x + TWO_63) % TWO_64 - TWO_63
  }

  /** `1 << n`; a shift by the width or more gives zero. */
  function ShiftOne(n: nat): int { if n >= 64 then 0 else Wrap(Pow2(n)) }

  /** The duration computed before the retry that follows attempt `attempts`. */
  function Backoff(attempts: nat): int
    requires attempts >= 1
  {
    Wrap(ShiftOne(attempts - 1) * MINUTE)
  }

  /** A timer with a negative duration fires at once. */
  function Wait(attempts: nat): nat
    requires attempts >= 1
  {
    if Backoff(attempts) < 0 then 0 else Backoff(attempts)
  }

  /** What an alert has waited once it comes back after attempt `attempts`. */
  function TotalWait(attempts: nat): nat {
    if attempts == 0 then 0 else TotalWait(attempts - 1) + Wait(attempts)
  }

  lemma {:induction false} Pow2Grows(m: nat, n: nat)
    requires m <= n
    ensures Pow2(m) <= Pow2(n)
    decreases n
  {
    if m < n { Pow2Grows(m, n - 1); }
  }

  lemma Pow2At27()
    ensures Pow2(27) == 134_217_728
  {
    assert Pow2(9) == 512 by { assert Pow2(3) == 8; assert Pow2(6) == 64; }
    assert Pow2(18) == 262_144 by { assert Pow2(12) == 4096; assert Pow2(15) == 32768; }
    assert Pow2(27) == 134_217_728 by { assert Pow2(21) == 2097152; assert Pow2(24) == 16777216; }
  }

  /** The documented doubling, 1, 2, 4, ... minutes, is what is computed up to the 28th attempt and never after. */
  lemma BackoffDoublesIff(attempts: nat)
    requires attempts >= 1
    ensures Backoff(attempts) == Pow2(attempts - 1) * 60_000_000_000 <==> attempts <= 28
  {
    Pow2At27();
    if attempts <= 28 {
      Pow2Grows(attempts - 1, 27);
    } else {
      assert Pow2(28) == 2 * Pow2(27);
      Pow2Grows(28, attempts - 1);
    }
  }

  lemma WaitAtMost(attempts: nat)
    requires attempts >= 1
    ensures Wait(attempts) <= Pow2(attempts - 1) * MINUTE
    ensures Wait(attempts) == Pow2(attempts - 1) * MINUTE <==> attempts <= 28
  {
    BackoffDoublesIff(attempts);
    Pow2At27();
    if attempts > 28 {
      assert Pow2(28) == 2 * Pow2(27);
      Pow2Grows(28, attempts - 1);
    }
  }

  /** The waits add up to all but one minute of the next power, as long as none has overflowed. */
  lemma {:induction false} TotalWaitIs(attempts: nat)
    ensures TotalWait(attempts) <= (Pow2(attempts) - 1) * 60_000_000_000
    ensures TotalWait(attempts) == (Pow2(attempts) - 1) * 60_000_000_000 <==> attempts <= 28
  {
    if attempts > 0 {
      TotalWaitIs(attempts - 1);
      WaitAtMost(attempts);
    }
  }

  // ---------------------------------------------------------------------------------
  // The queue
  // ---------------------------------------------------------------------------------

  datatype Label =
    | Enqueue(channels: seq<string>, max: int, hasDetails: bool)
    | Take
    | Process(hand: nat, results: seq<bool>)
    | Fire(timer: nat)

  function Remove<T>(s: seq<T>, i: nat): seq<T>
    requires i < |s|
  {
    s[..i] + s[i + 1..]
  }

  /** Pushed at the front; the queue is popped from the back. */
  function EnqueueStep(s: State, channels: seq<string>, max: int, hasDetails: bool): State {
    var a := Alert(s.stats.enqueued, channels, if max == 0 then DEFAULT_ATTEMPTS else max, 0, hasDetails, 0);
    s.(queue := [a] + s.queue, stats := s.stats.(enqueued := s.stats.enqueued + 1))
  }

  function TakeStep(s: State): State {
    if s.queue == [] then s
    else
      var n := |s.queue| - 1;
      s.(queue := s.queue[..n], hands := s.hands + [s.queue[n]])
  }

  /** One delivery: `results` says, channel by channel, whether there was a provider and it sent. */
  function ProcessStep(s: State, i: nat, results: seq<bool>): State
    requires i < |s.hands|
  {
    var a := s.hands[i].(attempts := s.hands[i].attempts + 1);
    var s1 := s.(stats := s.stats.(delivered := s.stats.delivered + if true in results then 1 else 0));
    if false !in results then s1.(hands := Remove(s.hands, i), done := s.done + [a])
    else if a.attempts < a.max then
      s1.(hands := Remove(s.hands, i), timers := s.timers + [a],
          stats := s1.stats.(retried := s1.stats.retried + 1))
    else if !a.hasDetails then s1.(hands := s.hands[i := a], crashed := true)
    else
      s1.(hands := Remove(s.hands, i), dead := [a] + s.dead,
          stats := s1.stats.(failed := s1.stats.failed + 1))
  }

  function FireStep(s: State, i: nat): State
    requires i < |s.timers| && s.timers[i].attempts >= 1
  {
    var a := s.timers[i];
    s.(timers := Remove(s.timers, i), queue := [a.(waited := a.waited + Wait(a.attempts))] + s.queue)
  }

  /** One step; the process does nothing any more once it has crashed. */
  function Step(s: State, l: Label): State {
    if s.crashed then s
    else match l
      case Enqueue(channels, max, hasDetails) => EnqueueStep(s, channels, max, hasDetails)
      case Take => TakeStep(s)
      case Process(i, results) =>
        if i < |s.hands| && |results| == |s.hands[i].channels| then ProcessStep(s, i, results) else s
      case Fire(i) => if i < |s.timers| && s.timers[i].attempts >= 1 then FireStep(s, i) else s
  }

  const INITIAL := State([], [], [], [], [], false, Stats(0, 0, 0, 0))

  function Run(s: State, labels: seq<Label>): State {
    if labels == [] then s else Step(Run(s, labels[..|labels| - 1]), labels[|labels| - 1])
  }

  // ---------------------------------------------------------------------------------
  // Counting
  // ---------------------------------------------------------------------------------

  /** How often a token occurs in a list. */
  function Count(alerts: seq<Alert>, token: nat): nat {
    if alerts == [] then 0
    else (if alerts[0].token == token then 1 else 0) + Count(alerts[1..], token)
  }

  /** How often the alerts of a list have been processed, in total. */
  function Work(alerts: seq<Alert>): nat {
    if alerts == [] then 0 else alerts[0].attempts + Work(alerts[1..])
  }

  lemma {:induction false} Concat(a: seq<Alert>, b: seq<Alert>, token: nat)
    ensures Count(a + b, token) == Count(a, token) + Count(b, token)
    ensures Work(a + b) == Work(a) + Work(b)
  {
    if a == [] {
      assert a + b == b;
    } else {
      assert (a + b)[1..] == a[1..] + b;
      Concat(a[1..], b, token);
    }
  }

  function One(a: Alert, token: nat): nat { if a.token == token then 1 else 0 }

  lemma Single(a: Alert, token: nat)
    ensures Count([a], token) == One(a, token) && Work([a]) == a.attempts
  {
    assert [a][1..] == [];
  }

  lemma Removed(s: seq<Alert>, i: nat, token: nat)
    requires i < |s|
    ensures Count(s, token) == Count(Remove(s, i), token) + One(s[i], token)
    ensures Work(s) == Work(Remove(s, i)) + s[i].attempts
  {
    assert s == s[..i] + ([s[i]] + s[i + 1..]);
    Concat(s[..i], [s[i]] + s[i + 1..], token);
    Concat([s[i]], s[i + 1..], token);
    Concat(s[..i], s[i + 1..], token);
    Single(s[i], token);
  }

  lemma Pushed(s: seq<Alert>, a: Alert, token: nat)
    ensures Count([a] + s, token) == Count(s + [a], token) == Count(s, token) + One(a, token)
    ensures Work([a] + s) == Work(s + [a]) == Work(s) + a.attempts
  {
    Concat([a], s, token);
    Concat(s, [a], token);
    Single(a, token);
  }

  /** All places an alert can be in. */
  function Places(s: State, token: nat): nat {
    Count(s.queue, token) + Count(s.hands, token) + Count(s.timers, token) + Count(s.dead, token) + Count(s.done, token)
  }

  function TotalWork(s: State): nat {
    Work(s.queue) + Work(s.hands) + Work(s.timers) + Work(s.dead) + Work(s.done)
  }

  // ---------------------------------------------------------------------------------
  // The invariant
  // ---------------------------------------------------------------------------------

  /** An alert is processed at least once and at most as often as it asks for. */
  function Limit(max: int): nat { if max < 1 then 1 else max }

  /** An alert that waits for a worker, or is in a worker's hands. */
  predicate Pending(a: Alert) { (a.attempts == 0 || a.attempts < a.max) && a.waited == TotalWait(a.attempts) }

  predicate Sleeping(a: Alert) { 1 <= a.attempts < a.max && a.waited == TotalWait(a.attempts - 1) }

  predicate Exhausted(a: Alert) { a.attempts == Limit(a.max) && a.waited == TotalWait(a.attempts - 1) }

  predicate Finished(a: Alert) { 1 <= a.attempts <= Limit(a.max) && a.waited == TotalWait(a.attempts - 1) }

  ghost predicate ListsOk(s: State) {
    && (forall a | a in s.queue :: Pending(a))
    && (forall a | a in s.timers :: Sleeping(a))
    && (forall a | a in s.dead :: Exhausted(a) && a.hasDetails)
    && (forall a | a in s.done :: Finished(a))
    && (forall a | a in s.hands :: Pending(a) || (s.crashed && Exhausted(a) && !a.hasDetails))
    && (s.crashed <==> exists a | a in s.hands :: !Pending(a))
  }

  ghost predicate Conserved(s: State) {
    && (forall token: nat :: Places(s, token) == if token < s.stats.enqueued then 1 else 0)
    && TotalWork(s) == s.stats.retried + |s.dead| + |s.done| + (if s.crashed then 1 else 0)
    && s.stats.failed == |s.dead|
  }

  ghost predicate Inv(s: State) { ListsOk(s) && Conserved(s) }
}
