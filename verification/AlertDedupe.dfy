/**
  Deduplication of alerts (alerts/alert_sender.go): before an alert with a key is queued,
  the cache of recent keys is asked whether one was accepted less than the window ago, and
  if not the key is stamped with the current time.  Asking and stamping are two separate
  critical sections, and a background pass deletes old stamps, so all three interleave.
 */
module AlertDedupe {

  const DEFAULT_WINDOW := 300_000_000_000

  type Cache = map<string, int>

  predicate Duplicate(cache: Cache, window: int, key: string, now: int) {
    key in cache && now - cache[key] < window
  }

  function Cleaned(cache: Cache, window: int, now: int): Cache {
    map key | key in cache && now - cache[key] <= window :: cache[key]
  }

  // ---------------------------------------------------------------------------------
  // Any number of callers and the cleaner, interleaved
  // ---------------------------------------------------------------------------------

  /** A caller that was told its key is no duplicate: when, and how many alerts had been accepted by then. */
  datatype Asked = Asked(key: string, at: int, seen: nat)

  /** An accepted alert: what its caller was told and when the key was stamped. */
  datatype Accepted = Accepted(asked: Asked, at: int)

  datatype State = State(window: int, clock: int, cache: Cache, callers: map<nat, Asked>, accepted: seq<Accepted>)

  datatype Label =
    | Ask(caller: nat, key: string, now: int)
    | Stamp(caller: nat, now: int)
    | Clean(now: int)

  /** One critical section; the clock never runs backwards. */
  function Step(s: State, l: Label): State {
    if l.now < s.clock then s
    else
      var s1 := s.(clock := l.now);
      match l
      case Ask(caller, key, now) =>
        if caller in s.callers || Duplicate(s.cache, s.window, key, now) then s1
        else s1.(callers := s.callers[caller := Asked(key, now, |s.accepted|)])
      case Stamp(caller, now) =>
        if caller !in s.callers then s1
        else
          var asked := s.callers[caller];
          s1.(cache := s.cache[asked.key := now], callers := s.callers - {caller},
              accepted := s.accepted + [Accepted(asked, now)])
      case Clean(now) => s1.(cache := Cleaned(s.cache, s.window, now))
  }

  function Initial(window: int): State { State(window, 0, map[], map[], []) }

  function Run(s: State, labels: seq<Label>): State {
    if labels == [] then s else Step(Run(s, labels[..|labels| - 1]), labels[|labels| - 1])
  }

  /** What deduplication is meant to say: an alert with this key was accepted less than the window ago. */
  ghost predicate Recent(accepted: seq<Accepted>, window: int, key: string, now: int) {
    exists i :: 0 <= i < |accepted| && accepted[i].asked.key == key && now - accepted[i].at < window
  }

  // ---------------------------------------------------------------------------------
  // The invariant
  // ---------------------------------------------------------------------------------

  /** Every stamp is the latest of its key, and what was deleted can never be recent again. */
  ghost predicate CacheOk(s: State) {
    && (forall key | key in s.cache ::
          exists i :: 0 <= i < |s.accepted| && s.accepted[i].asked.key == key && s.accepted[i].at == s.cache[key])
    && (forall i | 0 <= i < |s.accepted| ::
          var a := s.accepted[i];
          && a.at <= s.clock
          && (if a.asked.key in s.cache then a.at <= s.cache[a.asked.key] else s.clock - a.at > s.window))
  }

  /** Nothing recent had been accepted when a caller was told to go ahead. */
  ghost predicate Clear(accepted: seq<Accepted>, window: int, asked: Asked) {
    asked.seen <= |accepted| &&
    forall i | 0 <= i < asked.seen :: accepted[i].asked.key == asked.key ==> asked.at - accepted[i].at >= window
  }

  ghost predicate CallersOk(s: State) {
    && (forall c | c in s.callers :: s.callers[c].at <= s.clock && Clear(s.accepted, s.window, s.callers[c]))
    && (forall j | 0 <= j < |s.accepted| ::
          && s.accepted[j].asked.at <= s.accepted[j].at
          && s.accepted[j].asked.seen <= j
          && Clear(s.accepted, s.window, s.accepted[j].asked))
  }

  ghost predicate Inv(s: State) { CacheOk(s) && CallersOk(s) }

  lemma DuplicateIffRecentHere(s: State, key: string, now: int)
    requires CacheOk(s) && now >= s.clock
    ensures Duplicate(s.cache, s.window, key, now) <==> Recent(s.accepted, s.window, key, now)
  {
    if Duplicate(s.cache, s.window, key, now) {
      var i :| 0 <= i < |s.accepted| && s.accepted[i].asked.key == key && s.accepted[i].at == s.cache[key];
    }
  }

  lemma AskInv(s: State, caller: nat, key: string, now: int)
    requires Inv(s)
    ensures Inv(Step(s, Ask(caller, key, now)))
  {
    if now >= s.clock {
      DuplicateIffRecentHere(s, key, now);
    }
  }

  lemma StampCacheOk(s: State, caller: nat, now: int)
    requires CacheOk(s)
    ensures CacheOk(Step(s, Stamp(caller, now)))
  {
    if now >= s.clock && caller in s.callers {
      var s' := Step(s, Stamp(caller, now));
      var n := |s.accepted|;
      forall key | key in s'.cache
        ensures exists i :: 0 <= i < |s'.accepted| && s'.accepted[i].asked.key == key && s'.accepted[i].at == s'.cache[key]
      {
        if key == s.callers[caller].key {
          assert s'.accepted[n].asked.key == key;
        } else {
          var i :| 0 <= i < n && s.accepted[i].asked.key == key && s.accepted[i].at == s.cache[key];
          assert s'.accepted[i] == s.accepted[i];
        }
      }
      forall i | 0 <= i < |s'.accepted|
        ensures
          var a := s'.accepted[i];
          && a.at <= s'.clock
          && (if a.asked.key in s'.cache then a.at <= s'.cache[a.asked.key] else s'.clock - a.at > s'.window)
      {
        if i < n { assert s'.accepted[i] == s.accepted[i]; }
      }
    }
  }

  lemma StampCallersOk(s: State, caller: nat, now: int)
    requires CallersOk(s)
    ensures CallersOk(Step(s, Stamp(caller, now)))
  {
  }

  lemma CleanInv(s: State, now: int)
    requires Inv(s)
    ensures Inv(Step(s, Clean(now)))
  {
  }

  lemma {:induction false} RunInv(window: int, labels: seq<Label>)
    ensures Inv(Run(Initial(window), labels)) && Run(Initial(window), labels).window == window
  {
    hide CacheOk, CallersOk;
    if labels == [] {
      assert Inv(Initial(window)) by { InitialInv(window); }
    } else {
      var s := Run(Initial(window), labels[..|labels| - 1]);
      RunInv(window, labels[..|labels| - 1]);
      match labels[|labels| - 1]
      case Ask(caller, key, now) => AskInv(s, caller, key, now);
      case Stamp(caller, now) => StampCacheOk(s, caller, now); StampCallersOk(s, caller, now);
      case Clean(now) => CleanInv(s, now);
    }
  }

  lemma InitialInv(window: int)
    ensures Inv(Initial(window))
  {
  }

  // ---------------------------------------------------------------------------------
  // The theorems
  // ---------------------------------------------------------------------------------

  /**
    In every interleaving the cache, which keeps one stamp per key and is swept in the
    background, answers exactly as the full history of accepted alerts would.
   */
  lemma DuplicateIffRecent(window: int, labels: seq<Label>, key: string, now: int)
    requires now >= Run(Initial(window), labels).clock
    ensures
      var s := Run(Initial(window), labels);
      Duplicate(s.cache, window, key, now) <==> Recent(s.accepted, window, key, now)
  {
    RunInv(window, labels);
    DuplicateIffRecentHere(Run(Initial(window), labels), key, now);
  }

  /** Two accepted alerts with one key, closer than the window. */
  ghost predicate Repeats(accepted: seq<Accepted>, window: int) {
    exists i, j :: 0 <= i < j < |accepted| && Close(accepted, window, i, j)
  }

  predicate Close(accepted: seq<Accepted>, window: int, i: nat, j: nat)
    requires i < j < |accepted|
  {
    accepted[i].asked.key == accepted[j].asked.key && accepted[j].at - accepted[i].at < window
  }

  /** A step lets a key through again too soon: the guard, evaluated again when the key is stamped, would refuse it. */
  predicate StampsADuplicate(s: State, l: Label) {
    l.Stamp? && l.now >= s.clock && l.caller in s.callers
    && Duplicate(s.cache, s.window, s.callers[l.caller].key, l.now)
  }

  /** A step makes a pair closer than the window exactly when it stamps what is a duplicate by then. */
  lemma StepRepeatsIff(window: int, labels: seq<Label>, l: Label)
    ensures
      var s := Run(Initial(window), labels);
      Repeats(Step(s, l).accepted, window) <==> Repeats(s.accepted, window) || StampsADuplicate(s, l)
  {
    RunInv(window, labels);
    var s := Run(Initial(window), labels);
    var s' := Step(s, l);
    if s'.accepted != s.accepted {
      StampRepeatsIff(s, l.caller, l.now);
    }
  }

  lemma StampRepeatsIff(s: State, caller: nat, now: int)
    requires CacheOk(s) && now >= s.clock && caller in s.callers
    ensures
      Repeats(Step(s, Stamp(caller, now)).accepted, s.window) <==>
      Repeats(s.accepted, s.window) || Duplicate(s.cache, s.window, s.callers[caller].key, now)
  {
    var key, n := s.callers[caller].key, |s.accepted|;
    var after := Step(s, Stamp(caller, now)).accepted;
    assert after[..n] == s.accepted;
    DuplicateIffRecentHere(s, key, now);
    if Repeats(after, s.window) {
      var i, j :| 0 <= i < j < |after| && Close(after, s.window, i, j);
      if j < n { assert Close(s.accepted, s.window, i, j); }
    }
    if Repeats(s.accepted, s.window) {
      var i, j :| 0 <= i < j < n && Close(s.accepted, s.window, i, j);
      assert Close(after, s.window, i, j);
    }
    if Recent(s.accepted, s.window, key, now) {
      var i :| 0 <= i < n && s.accepted[i].asked.key == key && now - s.accepted[i].at < s.window;
      assert Close(after, s.window, i, n);
    }
  }

  /** Step `n` of the run stamps what is a duplicate by then. */
  predicate TooSoon(window: int, labels: seq<Label>, n: nat)
    requires n < |labels|
  {
    StampsADuplicate(Run(Initial(window), labels[..n]), labels[n])
  }

  lemma TooSoonInPrefix(window: int, labels: seq<Label>, m: nat, n: nat)
    requires n < m <= |labels|
    ensures TooSoon(window, labels[..m], n) <==> TooSoon(window, labels, n)
  {
    assert labels[..m][..n] == labels[..n];
  }

  /** Deduplication keeps its promise in a run exactly when no step of it stamps a key that is a duplicate by then. */
  lemma {:induction false} RepeatsIff(window: int, labels: seq<Label>)
    ensures
      Repeats(Run(Initial(window), labels).accepted, window) <==>
      exists n :: 0 <= n < |labels| && TooSoon(window, labels, n)
  {
    if labels == [] {
      assert !Repeats([], window);
    } else {
      var last := |labels| - 1;
      RepeatsIff(window, labels[..last]);
      StepRepeatsIff(window, labels[..last], labels[last]);
      assert TooSoon(window, labels, last) <==> StampsADuplicate(Run(Initial(window), labels[..last]), labels[last]);
      hide *;
      forall n | 0 <= n < last ensures TooSoon(window, labels[..last], n) <==> TooSoon(window, labels, n) {
        TooSoonInPrefix(window, labels, last, n);
      }
    }
  }

  /** A pair closer than the window overlapped: the later one had been let through when the earlier one was stamped. */
  lemma CloserThanTheWindowOnlyIfOverlapping(window: int, labels: seq<Label>, i: nat, j: nat)
    requires i < j < |Run(Initial(window), labels).accepted|
    requires Close(Run(Initial(window), labels).accepted, window, i, j)
    ensures Run(Initial(window), labels).accepted[j].asked.seen <= i
  {
    RunInv(window, labels);
    var accepted := Run(Initial(window), labels).accepted;
    assert Clear(accepted, window, accepted[j].asked);
  }

  /** No caller asks about a key while another is between its two steps for that key. */
  ghost predicate OneAtATime(window: int, labels: seq<Label>) {
    forall n | 0 <= n < |labels| && labels[n].Ask? ::
      forall c | c in Run(Initial(window), labels[..n]).callers ::
        Run(Initial(window), labels[..n]).callers[c].key != labels[n].key
  }

  /** Nobody holds a key twice, and what was let through is still no duplicate. */
  ghost predicate AloneInv(s: State) {
    && (forall c, c' | c in s.callers && c' in s.callers && s.callers[c].key == s.callers[c'].key :: c == c')
    && (forall c | c in s.callers :: !Duplicate(s.cache, s.window, s.callers[c].key, s.clock))
  }

  lemma AloneStep(s: State, l: Label)
    requires AloneInv(s)
    requires l.Ask? ==> forall c | c in s.callers :: s.callers[c].key != l.key
    ensures AloneInv(Step(s, l)) && !StampsADuplicate(s, l)
  {
  }

  lemma {:induction false} AloneRun(window: int, labels: seq<Label>)
    requires OneAtATime(window, labels)
    ensures AloneInv(Run(Initial(window), labels))
    ensures forall n | 0 <= n < |labels| :: !TooSoon(window, labels, n)
  {
    if labels != [] {
      hide StampsADuplicate, Step, AloneInv;
      var last := |labels| - 1;
      assert forall n | 0 <= n < last :: labels[..last][..n] == labels[..n] && labels[..last][n] == labels[n];
      AloneRun(window, labels[..last]);
      AloneStep(Run(Initial(window), labels[..last]), labels[last]);
      forall n | 0 <= n < |labels| ensures !TooSoon(window, labels, n) {
        if n < last { TooSoonInPrefix(window, labels, last, n); }
      }
    } else {
      assert AloneInv(Initial(window));
    }
  }

  /** Callers that take turns on each key never repeat one within the window, whatever the cleaner does. */
  lemma OneAtATimeNeverRepeats(window: int, labels: seq<Label>)
    requires OneAtATime(window, labels)
    ensures !Repeats(Run(Initial(window), labels).accepted, window)
  {
    AloneRun(window, labels);
    RepeatsIff(window, labels);
  }

  /** Two callers that overlap both get through, at the very same moment, whatever the key. */
  lemma OverlapAcceptsTwice(window: int, key: string, now: int)
    requires now >= 0
    ensures
      var accepted := Run(Initial(window), [Ask(0, key, now), Ask(1, key, now), Stamp(0, now), Stamp(1, now)]).accepted;
      |accepted| == 2 && accepted[0].asked.key == accepted[1].asked.key == key && accepted[0].at == accepted[1].at
  {
    var labels := [Ask(0, key, now), Ask(1, key, now), Stamp(0, now), Stamp(1, now)];
    var s1 := State(window, now, map[], map[0 := Asked(key, now, 0)], []);
    assert labels[..3][..2][..1] == [Ask(0, key, now)];
    assert Run(Initial(window), labels[..3][..2][..1]) == s1 by { assert labels[..3][..2][..1][..0] == []; }
    var s2 := s1.(callers := map[0 := Asked(key, now, 0), 1 := Asked(key, now, 0)]);
    assert Run(Initial(window), labels[..3][..2]) == s2;
    assert Run(Initial(window), labels[..3]) == Step(s2, Stamp(0, now));
    assert Run(Initial(window), labels) == Step(Step(s2, Stamp(0, now)), Stamp(1, now));
  }

  // ---------------------------------------------------------------------------------
  // The cache as it is changed in place
  // ---------------------------------------------------------------------------------

  class DedupeCache {
    var window: int
    var cache: Cache

    constructor (configured: int)
      ensures window == (if configured == 0 then 5 * 60 * 1_000_000_000 else configured) && cache == map[]
    {
      window, cache := if configured == 0 then DEFAULT_WINDOW else configured, map[];
    }

    method IsDuplicate(key: string, now: int) returns (r: bool)
      ensures r == Duplicate(cache, window, key, now)
    {
      if key !in cache {
        return false;
      }
      var lastSent := cache[key];
      return now - lastSent < window;
    }

    method MarkSent(key: string, now: int)
      modifies `cache
      ensures cache == old(cache)[key := now]
    {
      cache := cache[key := now];
    }

    /** Visits the keys in any order and deletes the ones that are too old. */
    method Cleanup(now: int)
      modifies `cache
      ensures cache == Cleaned(old(cache), window, now)
    {
      var keys := cache.Keys;
      while keys != {}
        invariant keys <= cache.Keys <= old(cache).Keys
        invariant forall key | key in cache :: cache[key] == old(cache)[key]
        invariant forall key | key in old(cache) && key !in keys ::
          key in cache <==> now - old(cache)[key] <= window
        decreases |keys|
      {
        var key :| key in keys;
        keys := keys - {key};
        if now - cache[key] > window {
          cache := cache - {key};
        }
      }
    }

    /** An alert without a key is never a duplicate; a duplicate is dropped without an error. */
    method Admit(key: string, now: int, later: int) returns (accepted: bool)
      requires later >= now
      modifies `cache
      ensures accepted == (key == "" || !Duplicate(old(cache), window, key, now))
      ensures cache == if accepted && key != "" then old(cache)[key := later] else old(cache)
    {
      if key != "" {
        var duplicate := IsDuplicate(key, now);
        if duplicate {
          return false;
        }
        MarkSent(key, later);
      }
      return true;
    }
  }
}
