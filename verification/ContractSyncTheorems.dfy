/** The guarantees of contract synchronisation, over all runs of concurrent transactions. */
module ContractSyncTheorems {
  import opened Prelude
  import opened ContractVersions
  import opened ContractSync

  // ---------------------------------------------------------------------------------
  // Every step keeps the invariant
  // ---------------------------------------------------------------------------------

  /** Replacing one open transaction by a well-formed one that takes no key and no held hash. */
  lemma ReplaceInv(s: State, tx: nat, p: Transaction)
    requires Inv(s) && tx in s.open && TransactionOk(s.records, s.versions, p)
    requires p.key == s.open[tx].key
    requires p.version == s.open[tx].version || !HashHeld(s, tx, p.contract.hash)
    ensures Inv(s.(open := s.open[tx := p]))
  {
    hide TransactionOk, RecordOk, ReplyOk, ExecutedOnce, HashesDistinct, Compared;
    var open := s.open[tx := p];
    forall t, u | t in open && u in open && t != u
      ensures open[t].key.Some? ==> open[t].key != open[u].key
      ensures open[t].version.Some? && open[u].version.Some? ==>
                open[t].version.value.contract.hash != open[u].version.value.contract.hash
    {
      VersionIsOfContract(s.records, s.versions, open[t]);
      VersionIsOfContract(s.records, s.versions, open[u]);
    }
  }

  lemma VersionIsOfContract(records: map<string, Record>, versions: seq<Version>, p: Transaction)
    requires TransactionOk(records, versions, p)
    ensures p.version.Some? ==> p.version.value.contract == p.contract
  {
  }

  lemma OpenInv(s: State, tx: nat, p: Transaction)
    requires Inv(s) && tx !in s.open && TransactionOk(s.records, s.versions, p) && p.version.None?
    requires p.key.Some? ==> !KeyHeld(s, p.key.value)
    ensures Inv(s.(open := s.open[tx := p]))
  {
    hide TransactionOk, RecordOk, ReplyOk, ExecutedOnce, HashesDistinct, Compared;
  }

  lemma ReplayInv(s: State, key: string, c: Contract)
    requires Inv(s) && key in s.records
    ensures Inv(s.(replies := s.replies + [Replay(key, s.records[key], c)]))
  {
    hide TransactionOk, RecordOk, HashesDistinct, Compared, Exclusive;
    var r := Replay(key, s.records[key], c);
    var replies := s.replies + [r];
    forall k | k in s.records ensures exists i | 0 <= i < |replies| :: Executed(replies[i], k) {
      var i :| 0 <= i < |s.replies| && Executed(s.replies[i], k);
      assert replies[i] == s.replies[i];
    }
    assert forall k :: !Executed(r, k);
  }

  lemma ClaimInv(s: State, tx: nat, key: Option<string>, c: Contract)
    requires Inv(s)
    ensures Inv(ClaimStep(s, tx, key, c))
  {
    hide Inv, TransactionOk;
    if tx in s.open {
    } else if key.None? {
      NewTransactionOk(s, None, c);
      OpenInv(s, tx, Transaction(None, c, None, None, Started));
    } else if key.value in s.records {
      ReplayInv(s, key.value, c);
    } else if !KeyHeld(s, key.value) {
      NewTransactionOk(s, key, c);
      OpenInv(s, tx, Transaction(key, c, Some(Record(c.hash, PLACEHOLDER_STATUS, Empty)), None, Started));
    }
  }

  lemma NewTransactionOk(s: State, key: Option<string>, c: Contract)
    requires key.Some? ==> key.value !in s.records
    ensures
      var row := if key.Some? then Some(Record(c.hash, PLACEHOLDER_STATUS, Empty)) else None;
      TransactionOk(s.records, s.versions, Transaction(key, c, row, None, Started))
  {
  }

  lemma ReadOk(s: State, p: Transaction)
    requires TransactionOk(s.records, s.versions, p)
    ensures TransactionOk(s.records, s.versions, ReadStep(s, p))
  {
  }

  lemma InsertOk(s: State, tx: nat, p: Transaction)
    requires TransactionOk(s.records, s.versions, p)
    ensures TransactionOk(s.records, s.versions, InsertStep(s, tx, p))
  {
  }

  lemma CompleteOk(s: State, p: Transaction)
    requires TransactionOk(s.records, s.versions, p)
    ensures TransactionOk(s.records, s.versions, CompleteStep(p))
  {
  }

  /** Others are not disturbed when a transaction that excludes them commits. */
  lemma OtherOk(records: map<string, Record>, versions: seq<Version>, p: Transaction,
                key: Option<string>, row: Record, v: Option<Version>)
    requires TransactionOk(records, versions, p)
    requires p.key.Some? ==> p.key != key
    requires p.version.Some? && v.Some? ==> p.version.value.contract.hash != v.value.contract.hash
    ensures
      var records' := if key.Some? then records[key.value := row] else records;
      TransactionOk(records', versions + (if v.Some? then [v.value] else []), p)
  {
    if p.version.Some? && v.Some? {
      forall i | 0 <= i < |versions + [v.value]| ensures (versions + [v.value])[i].contract.hash != p.contract.hash {
        if i < |versions| { assert !HasHash(versions, p.contract.hash); }
      }
    }
  }

  lemma VersionsGrow(s: State, p: Transaction)
    requires HashesDistinct(s.versions) && Compared(s.versions) && TransactionOk(s.records, s.versions, p)
    ensures
      var versions := s.versions + if p.version.Some? then [p.version.value] else [];
      HashesDistinct(versions) && Compared(versions)
  {
  }

  /** What the committing transaction leaves behind. */
  lemma CommittedRecordOk(s: State, p: Transaction)
    requires TransactionOk(s.records, s.versions, p) && p.key.Some? && p.phase.Completed?
    ensures RecordOk(s.versions + (if p.version.Some? then [p.version.value] else []), p.row.value)
  {
  }

  lemma CommitRecordsOk(s: State, p: Transaction, versions: seq<Version>)
    requires forall k | k in s.records :: RecordOk(s.versions, s.records[k])
    requires s.versions <= versions && p.key.Some? && p.row.Some? && RecordOk(versions, p.row.value)
    ensures
      var records := s.records[p.key.value := p.row.value];
      forall k | k in records :: RecordOk(versions, records[k])
  {
  }

  lemma CommitRepliesOk(s: State, key: string, row: Record)
    requires key !in s.records
    requires forall i | 0 <= i < |s.replies| :: ReplyOk(s.records, s.replies[i])
    requires ExecutedOnce(s.records, s.replies)
    ensures
      var records := s.records[key := row];
      var replies := s.replies + [Reply(Some(key), row.fingerprint, Answered(row.status, row.body, false))];
      && (forall i | 0 <= i < |replies| :: ReplyOk(records, replies[i]))
      && ExecutedOnce(records, replies)
  {
    var records := s.records[key := row];
    var r := Reply(Some(key), row.fingerprint, Answered(row.status, row.body, false));
    var replies := s.replies + [r];
    forall i | 0 <= i < |replies| ensures ReplyOk(records, replies[i]) {
      if i < |s.replies| { assert ReplyOk(s.records, s.replies[i]); }
    }
    forall k | k in records ensures exists i | 0 <= i < |replies| :: Executed(replies[i], k) {
      if k == key {
        assert Executed(replies[|s.replies|], k);
      } else {
        var i :| 0 <= i < |s.replies| && Executed(s.replies[i], k);
        assert replies[i] == s.replies[i];
      }
    }
    forall i | 0 <= i < |s.replies| ensures !Executed(s.replies[i], key) {
      assert ReplyOk(s.records, s.replies[i]);
    }
  }

  lemma CommitKeyedInv(s: State, tx: nat)
    requires Inv(s) && tx in s.open
    requires s.open[tx].key.Some? && s.open[tx].row.Some? && s.open[tx].phase.Completed?
    ensures Inv(CommitStep(s, tx, s.open[tx]))
  {
    var p := s.open[tx];
    var s' := CommitStep(s, tx, p);
    hide ReplyOk, ExecutedOnce, RecordOk, HashesDistinct, Compared, Describes;
    assert p.row.value.fingerprint == p.contract.hash && p.key.value !in s.records;
    VersionsGrow(s, p);
    CommittedRecordOk(s, p);
    CommitRecordsOk(s, p, s'.versions);
    CommitRepliesOk(s, p.key.value, p.row.value);
    forall t | t in s'.open ensures TransactionOk(s'.records, s'.versions, s'.open[t]) {
      OtherOk(s.records, s.versions, s.open[t], p.key, p.row.value, p.version);
    }
  }

  lemma PlainRepliesOk(s: State, r: Reply)
    requires r.key.None?
    requires forall i | 0 <= i < |s.replies| :: ReplyOk(s.records, s.replies[i])
    requires ExecutedOnce(s.records, s.replies)
    ensures forall i | 0 <= i < |s.replies + [r]| :: ReplyOk(s.records, (s.replies + [r])[i])
    ensures ExecutedOnce(s.records, s.replies + [r])
  {
    var replies := s.replies + [r];
    forall k | k in s.records ensures exists i | 0 <= i < |replies| :: Executed(replies[i], k) {
      var i :| 0 <= i < |s.replies| && Executed(s.replies[i], k);
      assert replies[i] == s.replies[i];
    }
  }

  lemma RecordsOkGrow(s: State, versions: seq<Version>)
    requires forall k | k in s.records :: RecordOk(s.versions, s.records[k])
    requires s.versions <= versions
    ensures forall k | k in s.records :: RecordOk(versions, s.records[k])
  {
  }

  lemma CommitPlainInv(s: State, tx: nat)
    requires Inv(s) && tx in s.open && s.open[tx].key.None? && s.open[tx].phase.Synced?
    ensures Inv(CommitStep(s, tx, s.open[tx]))
  {
    var p := s.open[tx];
    var s' := CommitStep(s, tx, p);
    hide ReplyOk, ExecutedOnce, RecordOk, HashesDistinct, Compared, TransactionOk;
    VersionsGrow(s, p);
    RecordsOkGrow(s, s'.versions);
    PlainRepliesOk(s, Reply(None, p.contract.hash, Answered(p.phase.status, p.phase.body, false)));
    forall t | t in s'.open ensures TransactionOk(s'.records, s'.versions, s'.open[t]) {
      OtherOk(s.records, s.versions, s.open[t], None, Record("", 0, Empty), p.version);
    }
  }

  lemma StepInv(s: State, l: Label)
    requires Inv(s)
    ensures Inv(Step(s, l))
  {
    hide TransactionOk, RecordOk, ReplyOk, ExecutedOnce, HashesDistinct, Compared;
    if l.Claim? {
      ClaimInv(s, l.tx, l.key, l.contract);
    } else if l.tx in s.open {
      var p := s.open[l.tx];
      match l
      case ReadVersions(tx) => ReadOk(s, p); ReplaceInv(s, tx, ReadStep(s, p));
      case InsertVersion(tx) => InsertOk(s, tx, p); ReplaceInv(s, tx, InsertStep(s, tx, p));
      case Complete(tx) => CompleteOk(s, p); ReplaceInv(s, tx, CompleteStep(p));
      case Commit(tx) =>
        if p.key.None? && p.phase.Synced? {
          CommitPlainInv(s, tx);
        } else if p.key.Some? && p.row.Some? && p.phase.Completed? {
          CommitKeyedInv(s, tx);
        }
      case Rollback(tx) =>
    }
  }

  lemma {:induction false} RunInv(s: State, labels: seq<Label>)
    requires Inv(s)
    ensures Inv(Run(s, labels))
  {
    hide Inv, Step;
    if labels != [] {
      RunInv(s, labels[..|labels| - 1]);
      StepInv(Run(s, labels[..|labels| - 1]), labels[|labels| - 1]);
    }
  }

  lemma ReachableInv(labels: seq<Label>)
    ensures Inv(Run(INITIAL, labels))
  {
    RunInv(INITIAL, labels);
  }

  /** Committed rows and versions are never rewritten. */
  lemma StepKeeps(s: State, l: Label)
    requires Inv(s)
    ensures s.versions <= Step(s, l).versions
    ensures forall k | k in s.records :: k in Step(s, l).records && Step(s, l).records[k] == s.records[k]
  {
    hide RecordOk, ReplyOk, ExecutedOnce, HashesDistinct, Compared, Exclusive, Describes, HasHash, HashHeld, KeyHeld;
    if !l.Claim? && l.tx in s.open {
      assert TransactionOk(s.records, s.versions, s.open[l.tx]);
    }
  }

  lemma {:induction false} RunKeeps(s: State, labels: seq<Label>)
    requires Inv(s)
    ensures s.versions <= Run(s, labels).versions
    ensures forall k | k in s.records :: k in Run(s, labels).records && Run(s, labels).records[k] == s.records[k]
  {
    hide Inv, Step;
    if labels != [] {
      var init := labels[..|labels| - 1];
      RunKeeps(s, init);
      RunInv(s, init);
      StepKeeps(Run(s, init), labels[|labels| - 1]);
    }
  }

  // ---------------------------------------------------------------------------------
  // The theorems
  // ---------------------------------------------------------------------------------

  /**
    Whatever the interleaving, and wherever transactions roll back: a key is executed at
    most once, and exactly once if it has a row; every answer to a request with the
    row's fingerprint carries the row's status and body; every other request for the key
    gets a conflict; and the placeholder status is never answered.
   */
  lemma ExactlyOnce(labels: seq<Label>, key: string)
    ensures
      var s := Run(INITIAL, labels);
      && (key in s.records <==> exists i | 0 <= i < |s.replies| :: Executed(s.replies[i], key))
      && (forall i, j | 0 <= i < |s.replies| && 0 <= j < |s.replies| && Executed(s.replies[i], key) && Executed(s.replies[j], key) :: i == j)
      && (forall r | r in s.replies && r.key == Some(key) ::
            && key in s.records
            && r.outcome == (if r.fingerprint != s.records[key].fingerprint then Conflict
                             else Answered(s.records[key].status, s.records[key].body, r.outcome.Answered? && r.outcome.replayed))
            && (r.outcome.Answered? ==> r.outcome.body.Body? && r.outcome.status == if r.outcome.body.created then 201 else 200))
  {
    ReachableInv(labels);
    var s := Run(INITIAL, labels);
    forall r | r in s.replies && r.key == Some(key) ensures ReplyOk(s.records, r) {
      var i :| 0 <= i < |s.replies| && s.replies[i] == r;
    }
  }

  /** Once a key has a row, nothing that happens later changes it, or any version. */
  lemma CommittedIsPermanent(labels: seq<Label>, more: seq<Label>, key: string)
    ensures
      var s := Run(INITIAL, labels);
      && s.versions <= Run(s, more).versions
      && (key in s.records ==> key in Run(s, more).records && Run(s, more).records[key] == s.records[key])
  {
    ReachableInv(labels);
    RunKeeps(Run(INITIAL, labels), more);
  }

  /** A recorded answer describes a version that is in the history under the row's fingerprint. */
  lemma AnswersDescribeVersions(labels: seq<Label>, key: string)
    ensures
      var s := Run(INITIAL, labels);
      key in s.records ==>
        var r := s.records[key];
        && r.body.Body? && r.body.version in s.versions && r.body.version.contract.hash == r.fingerprint
        && r.status == if r.body.created then 201 else 200
  {
    ReachableInv(labels);
  }

  /** No contract hash ever has two versions, in any interleaving. */
  lemma OneVersionPerHash(labels: seq<Label>)
    ensures HashesDistinct(Run(INITIAL, labels).versions)
  {
    ReachableInv(labels);
  }

  /** A claim of a committed key with another fingerprint. */
  predicate Conflicting(s: State, l: Label) {
    l.Claim? && l.tx !in s.open && l.key.Some? && l.key.value in s.records
    && s.records[l.key.value].fingerprint != l.contract.hash
  }

  /** The run without its conflicting claims. */
  function Harmonious(labels: seq<Label>): seq<Label> {
    if labels == [] then []
    else
      var before, l := labels[..|labels| - 1], labels[|labels| - 1];
      Harmonious(before) + if Conflicting(Run(INITIAL, before), l) then [] else [l]
  }

  function WithoutConflicts(replies: seq<Reply>): seq<Reply> {
    if replies == [] then []
    else
      var last := replies[|replies| - 1];
      WithoutConflicts(replies[..|replies| - 1]) + if last.outcome.Conflict? then [] else [last]
  }

  /** What a step adds to the replies. */
  function NewReplies(s: State, l: Label): seq<Reply> { Step(s.(replies := []), l).replies }

  /** Replies are only ever written: a step does the same whatever has been answered before. */
  lemma RepliesAreOnlyWritten(s: State, l: Label, replies: seq<Reply>)
    ensures Step(s.(replies := replies), l) == Step(s, l).(replies := replies + NewReplies(s, l))
  {
    assert replies + [] == replies;
  }

  lemma ConflictIffConflicting(s: State, l: Label)
    ensures |NewReplies(s, l)| <= 1
    ensures (exists r | r in NewReplies(s, l) :: r.outcome.Conflict?) <==> Conflicting(s, l)
    ensures Conflicting(s, l) ==> Step(s, l) == s.(replies := s.replies + NewReplies(s, l))
  {
    if Conflicting(s, l) { assert NewReplies(s, l)[0].outcome.Conflict?; }
  }

  lemma WithoutConflictsGrows(replies: seq<Reply>, more: seq<Reply>)
    requires |more| <= 1
    ensures WithoutConflicts(replies + more) ==
            WithoutConflicts(replies) + if exists r | r in more :: r.outcome.Conflict? then [] else more
  {
    if more == [] {
      assert replies + more == replies;
    } else {
      assert more == [more[0]] && (replies + more)[..|replies|] == replies;
    }
  }

  /**
    A request with the wrong fingerprint is as if it had never been made: taking all such
    requests out of a run leaves the records, the versions, the open transactions and
    every other answer as they are.
   */
  lemma {:induction false} ConflictChangesNothing(labels: seq<Label>)
    ensures Run(INITIAL, Harmonious(labels)) ==
            Run(INITIAL, labels).(replies := WithoutConflicts(Run(INITIAL, labels).replies))
  {
    if labels != [] {
      hide Step, Conflicting, NewReplies, WithoutConflicts;
      var before, l := labels[..|labels| - 1], labels[|labels| - 1];
      var s := Run(INITIAL, before);
      var calm := WithoutConflicts(s.replies);
      ConflictChangesNothing(before);
      RepliesAreOnlyWritten(s, l, s.replies);
      RepliesAreOnlyWritten(s, l, calm);
      ConflictIffConflicting(s, l);
      WithoutConflictsGrows(s.replies, NewReplies(s, l));
      if !Conflicting(s, l) {
        assert (Harmonious(before) + [l])[..|Harmonious(before)|] == Harmonious(before);
      } else {
        assert Harmonious(before) + [] == Harmonious(before) && calm + [] == calm;
      }
    } else {
      assert WithoutConflicts([]) == [];
    }
  }

  // ---------------------------------------------------------------------------------
  // Security flags
  // ---------------------------------------------------------------------------------

  /** The transaction can commit. */
  predicate Ready(p: Transaction) { if p.key.None? then p.phase.Synced? else p.row.Some? && p.phase.Completed? }

  /**
    The exact condition, known before the commit: a history that shows every weakening
    goes on doing so exactly when the new version does not weaken the last committed one,
    or is weaker than what its transaction read.
   */
  lemma CommitShowsIff(labels: seq<Label>, tx: nat)
    requires
      var s := Run(INITIAL, labels);
      EveryWeakeningShows(s.versions) && tx in s.open && Ready(s.open[tx]) && s.open[tx].version.Some?
    ensures
      var s := Run(INITIAL, labels);
      var v := s.open[tx].version.value;
      EveryWeakeningShows(Step(s, Commit(tx)).versions) <==>
      || s.versions == []
      || !Weaker(s.versions[|s.versions| - 1].contract, v.contract)
      || (v.against.Some? && Weaker(v.against.value, v.contract))
  {
    hide EveryWeakeningShows, Weaker, Step, Run, Ready;
    var s := Run(INITIAL, labels);
    StepVersions(s, Commit(tx));
    AppendShowsIff(s.versions, s.open[tx].version.value);
    VersionIsCompared(labels, tx);
  }

  /** A version that waits to be committed is flagged exactly if it weakens what its transaction read. */
  lemma VersionIsCompared(labels: seq<Label>, tx: nat)
    requires tx in Run(INITIAL, labels).open && Run(INITIAL, labels).open[tx].version.Some?
    ensures
      var v := Run(INITIAL, labels).open[tx].version.value;
      v.sensitive <==> v.against.Some? && Weaker(v.against.value, v.contract)
  {
    hide Exclusive, HashesDistinct, Compared, RecordOk, ReplyOk, ExecutedOnce, Weaker, Run;
    ReachableInv(labels);
    var s := Run(INITIAL, labels);
    var v := s.open[tx].version.value;
    assert TransactionOk(s.records, s.versions, s.open[tx]);
    if v.against.Some? { FlaggedIffWeaker(v.against.value, v.contract); }
  }

  /** A commit that hides a weakening: the version weakens the last committed one, but not what its transaction read. */
  predicate Hides(s: State, l: Label) {
    l.Commit? && l.tx in s.open && Ready(s.open[l.tx]) && s.open[l.tx].version.Some? && s.versions != []
    && var v := s.open[l.tx].version.value;
       && Weaker(s.versions[|s.versions| - 1].contract, v.contract)
       && !(v.against.Some? && Weaker(v.against.value, v.contract))
  }

  /** Only a commit adds to the history, and only what its transaction inserted. */
  lemma StepVersions(s: State, l: Label)
    ensures Step(s, l).versions == s.versions +
      if l.Commit? && l.tx in s.open && Ready(s.open[l.tx]) && s.open[l.tx].version.Some?
      then [s.open[l.tx].version.value] else []
  {
    assert s.versions + [] == s.versions;
  }

  lemma StepHidesIff(labels: seq<Label>, l: Label)
    requires EveryWeakeningShows(Run(INITIAL, labels).versions)
    ensures EveryWeakeningShows(Step(Run(INITIAL, labels), l).versions) <==> !Hides(Run(INITIAL, labels), l)
  {
    hide EveryWeakeningShows, Step, Run, Ready, Weaker;
    var s := Run(INITIAL, labels);
    StepVersions(s, l);
    if l.Commit? && l.tx in s.open && Ready(s.open[l.tx]) && s.open[l.tx].version.Some? {
      CommitShowsIff(labels, l.tx);
    } else {
      assert s.versions + [] == s.versions;
    }
  }

  /** Once hidden, a weakening stays hidden. */
  lemma HiddenStaysHidden(labels: seq<Label>, l: Label)
    requires EveryWeakeningShows(Step(Run(INITIAL, labels), l).versions)
    ensures EveryWeakeningShows(Run(INITIAL, labels).versions)
  {
    hide Step;
    ReachableInv(labels);
    var s := Run(INITIAL, labels);
    StepKeeps(s, l);
    var log, log' := s.versions, Step(s, l).versions;
    forall i, j | 0 <= i < j < |log| && Weaker(log[i].contract, log[j].contract)
      ensures exists k | i < k <= j :: log[k].sensitive
    {
      assert log'[i] == log[i] && log'[j] == log[j];
      var k :| i < k <= j && log'[k].sensitive;
      assert log'[k] == log[k];
    }
  }

  predicate HidesAt(labels: seq<Label>, n: nat)
    requires n < |labels|
  {
    Hides(Run(INITIAL, labels[..n]), labels[n])
  }

  lemma HidesInPrefix(labels: seq<Label>, m: nat, n: nat)
    requires n < m <= |labels|
    ensures HidesAt(labels[..m], n) <==> HidesAt(labels, n)
  {
    assert labels[..m][..n] == labels[..n];
  }

  /**
    In every run, every weakening between two versions, however far apart, shows as a flag
    after the earlier and up to the later one exactly when no commit of the run hid one.
   */
  lemma {:induction false} FlagsInEveryRun(labels: seq<Label>)
    ensures EveryWeakeningShows(Run(INITIAL, labels).versions) <==>
            forall n | 0 <= n < |labels| :: !HidesAt(labels, n)
  {
    if labels != [] {
      var last := |labels| - 1;
      FlagsInEveryRun(labels[..last]);
      assert HidesAt(labels, last) <==> Hides(Run(INITIAL, labels[..last]), labels[last]);
      if EveryWeakeningShows(Run(INITIAL, labels[..last]).versions) {
        StepHidesIff(labels[..last], labels[last]);
      } else if EveryWeakeningShows(Run(INITIAL, labels).versions) {
        HiddenStaysHidden(labels[..last], labels[last]);
      }
      hide HidesAt, EveryWeakeningShows;
      forall n | 0 <= n < last ensures HidesAt(labels[..last], n) <==> HidesAt(labels, n) {
        HidesInPrefix(labels, last, n);
      }
    }
  }

  /** No transaction starts while another is open, and each starts later than every version was created. */
  ghost predicate Serialised(labels: seq<Label>) {
    forall n | 0 <= n < |labels| && labels[n].Claim? ::
      && Run(INITIAL, labels[..n]).open == map[]
      && CreatedBefore(Run(INITIAL, labels[..n]).versions, labels[n].contract)
  }

  predicate CreatedBefore(log: seq<Version>, c: Contract) {
    forall i | 0 <= i < |log| :: log[i].contract.created < c.created
  }

  function Last(log: seq<Version>): Option<Contract> {
    if log == [] then None else Some(log[|log| - 1].contract)
  }

  ghost predicate InOrder(log: seq<Version>) {
    forall i, j | 0 <= i < j < |log| :: log[i].contract.created < log[j].contract.created
  }

  /** Where versions were created in commit order, the latest is the last one committed. */
  lemma LatestIsLast(log: seq<Version>)
    requires InOrder(log)
    ensures Latest(log) == Last(log)
  {
    if log != [] {
      var i :| 0 <= i < |log| && log[i].contract == Latest(log).value;
    }
  }

  /** Each version was compared with the one before it. */
  ghost predicate Successive(log: seq<Version>) {
    forall k | 0 <= k < |log| :: log[k].against == Last(log[..k])
  }

  ghost predicate SerialInv(s: State) {
    && (forall t, u | t in s.open && u in s.open :: t == u)
    && Successive(s.versions)
    && InOrder(s.versions)
    && forall t | t in s.open ::
         && CreatedBefore(s.versions, s.open[t].contract)
         && (s.open[t].phase.PriorRead? ==> s.open[t].phase.prior == Last(s.versions))
         && (s.open[t].version.Some? ==>
               s.open[t].version.value.against == Last(s.versions) && s.open[t].version.value.contract == s.open[t].contract)
  }

  lemma SuccessiveSnoc(log: seq<Version>, v: Version)
    requires Successive(log) && v.against == Last(log)
    ensures Successive(log + [v])
  {
    forall k | 0 <= k < |log + [v]| ensures (log + [v])[k].against == Last((log + [v])[..k]) {
      assert (log + [v])[..k] == log[..k];
      assert log[..|log|] == log;
    }
  }

  lemma SerialCommit(s: State, tx: nat)
    requires SerialInv(s) && tx in s.open
    ensures SerialInv(Step(s, Commit(tx)))
  {
    hide Successive, Last;
    var p := s.open[tx];
    if p.version.Some? { SuccessiveSnoc(s.versions, p.version.value); }
    assert s.versions + [] == s.versions;
  }

  lemma SerialStep(s: State, l: Label)
    requires SerialInv(s) && (l.Claim? ==> s.open == map[] && CreatedBefore(s.versions, l.contract))
    ensures SerialInv(Step(s, l))
  {
    hide Successive, InOrder, CreatedBefore, Latest, Last;
    LatestIsLast(s.versions);
    if l.Commit? {
      if l.tx in s.open { SerialCommit(s, l.tx); }
    }
  }

  lemma {:induction false} SerialRun(labels: seq<Label>)
    requires Serialised(labels)
    ensures SerialInv(Run(INITIAL, labels))
  {
    if labels != [] {
      var init := labels[..|labels| - 1];
      assert forall n | 0 <= n < |init| :: init[..n] == labels[..n];
      SerialRun(init);
      SerialStep(Run(INITIAL, init), labels[|labels| - 1]);
    }
  }

  /**
    When syncs are serialised, any drop in risk, move from required to never approval, or
    change of mode between two versions is witnessed by a flagged version after the
    earlier one and up to the later one.
   */
  lemma SerialisedWeakeningShows(labels: seq<Label>)
    requires Serialised(labels)
    ensures EveryWeakeningShows(Run(INITIAL, labels).versions)
  {
    hide Successive, Compared, EveryWeakeningShows;
    SerialRun(labels);
    ReachableInv(labels);
    SuccessiveShows(Run(INITIAL, labels).versions);
  }

  lemma SuccessiveShows(log: seq<Version>)
    requires Successive(log) && Compared(log)
    ensures EveryWeakeningShows(log)
  {
    hide EveryWeakeningShows;
    ShowsIffComparedWell(log);
    forall k | 0 < k < |log| && Weaker(log[k - 1].contract, log[k].contract)
      ensures log[k].against.Some? && Weaker(log[k].against.value, log[k].contract)
    {
      assert log[k].against == Last(log[..k]);
    }
  }

  const LOW := Contract("", Low, Required, "embedded", 0)
  const HIGH := Contract("b", High, Required, "embedded", 1)
  const MEDIUM := Contract("cc", Medium, Required, "embedded", 2)

  /** One sync by itself, then two that overlap: both read the history before either commits. */
  const OVERLAP := [
    Claim(0, None, LOW), ReadVersions(0), InsertVersion(0), Commit(0),
    Claim(1, None, HIGH), Claim(2, None, MEDIUM), ReadVersions(1), ReadVersions(2),
    InsertVersion(1), Commit(1), InsertVersion(2), Commit(2)]

  lemma RunTakes(n: nat)
    requires 0 < n <= |OVERLAP|
    ensures Run(INITIAL, OVERLAP[..n]) == Step(Run(INITIAL, OVERLAP[..n - 1]), OVERLAP[n - 1])
  {
    assert OVERLAP[..n][..n - 1] == OVERLAP[..n - 1];
  }

  lemma FourSteps(n: nat)
    requires n + 4 <= |OVERLAP|
    ensures Run(INITIAL, OVERLAP[..n + 4]) ==
            Step(Step(Step(Step(Run(INITIAL, OVERLAP[..n]), OVERLAP[n]), OVERLAP[n + 1]), OVERLAP[n + 2]), OVERLAP[n + 3])
  {
    hide Step, Run;
    RunTakes(n + 1);
    RunTakes(n + 2);
    RunTakes(n + 3);
    RunTakes(n + 4);
  }

  /** One sync without a key, from claim to commit, while nothing else is open. */
  lemma SyncAlone(s: State, c: Contract)
    requires s.open == map[] && !HasHash(s.versions, c.hash)
    ensures
      var s' := Step(Step(Step(Step(s, Claim(0, None, c)), ReadVersions(0)), InsertVersion(0)), Commit(0));
      s'.open == map[] && s'.versions == s.versions + [NewVersion(Latest(s.versions), c)]
  {
    hide Latest, HasHash, NewVersion;
  }

  /** Two syncs that overlap both read the same latest version. */
  lemma ReadOverlapped(s: State, c: Contract, d: Contract)
    requires s.open == map[] && !HasHash(s.versions, c.hash) && !HasHash(s.versions, d.hash)
    ensures
      var s' := Step(Step(Step(Step(s, Claim(1, None, c)), Claim(2, None, d)), ReadVersions(1)), ReadVersions(2));
      && s'.versions == s.versions
      && s'.open == map[1 := Transaction(None, c, None, None, PriorRead(Latest(s.versions))),
                        2 := Transaction(None, d, None, None, PriorRead(Latest(s.versions)))]
  {
    hide Latest, HasHash;
  }

  /** A sync without a key that has read its prior version appends what it compared with that. */
  lemma InsertAndCommit(s: State, tx: nat)
    requires tx in s.open && s.open[tx].phase.PriorRead? && s.open[tx].key.None? && s.open[tx].version.None?
    requires !HasHash(s.versions, s.open[tx].contract.hash) && !HashHeld(s, tx, s.open[tx].contract.hash)
    ensures
      var s' := Step(Step(s, InsertVersion(tx)), Commit(tx));
      && s'.open == s.open - {tx}
      && s'.versions == s.versions + [NewVersion(s.open[tx].phase.prior, s.open[tx].contract)]
  {
    hide HasHash, HashHeld, NewVersion;
    var s1 := Step(s, InsertVersion(tx));
    assert s1.open - {tx} == s.open - {tx};
  }

  lemma BothRead()
    ensures
      var s := Run(INITIAL, OVERLAP[..8]);
      && s.versions == [NewVersion(None, LOW)]
      && s.open == map[1 := Transaction(None, HIGH, None, None, PriorRead(Some(LOW))),
                       2 := Transaction(None, MEDIUM, None, None, PriorRead(Some(LOW)))]
  {
    hide Step, Run, NewVersion, HasHash;
    assert Run(INITIAL, OVERLAP[..0]) == INITIAL by { RunsNothing(); }
    FourSteps(0);
    FourSteps(4);
    OneVersion(LOW);
    SyncAlone(INITIAL, LOW);
    ReadOverlapped(Run(INITIAL, OVERLAP[..4]), HIGH, MEDIUM);
  }

  lemma RunsNothing()
    ensures Run(INITIAL, OVERLAP[..0]) == INITIAL
  {
  }

  lemma OneVersion(c: Contract)
    ensures !HasHash([], c.hash) && Latest([]) == None
    ensures [] + [NewVersion(None, c)] == [NewVersion(None, c)]
    ensures Latest([NewVersion(None, c)]) == Some(c)
    ensures forall h :: HasHash([NewVersion(None, c)], h) <==> h == c.hash
  {
    assert [NewVersion(None, c)][0].contract == c;
  }

  /**
    Serialisation matters: in this run a low-risk version is followed by a high-risk and a
    medium-risk one, and the drop from high to medium is not flagged.
   */
  lemma OverlapHidesAWeakening()
    ensures
      var log := Run(INITIAL, OVERLAP).versions;
      && log == [NewVersion(None, LOW), NewVersion(Some(LOW), HIGH), NewVersion(Some(LOW), MEDIUM)]
      && Weaker(log[1].contract, log[2].contract) && !log[2].sensitive
      && !EveryWeakeningShows(log)
  {
    hide Step, Run, HashHeld, NewVersion, EveryWeakeningShows;
    DropIsHidden();
    BothRead();
    FourSteps(8);
    assert OVERLAP[..12] == OVERLAP;
    var s := Run(INITIAL, OVERLAP[..8]);
    OneVersion(LOW);
    NothingHeld(s, 1, HIGH.hash);
    InsertAndCommit(s, 1);
    var s' := Step(Step(s, InsertVersion(1)), Commit(1));
    NothingHeld(s', 2, MEDIUM.hash);
    InsertAndCommit(s', 2);
  }

  lemma DropIsHidden()
    ensures
      var log := [NewVersion(None, LOW), NewVersion(Some(LOW), HIGH), NewVersion(Some(LOW), MEDIUM)];
      && Weaker(log[1].contract, log[2].contract) && !log[2].sensitive
      && !EveryWeakeningShows(log)
      && !HasHash(log[..1], HIGH.hash) && !HasHash(log[..2], MEDIUM.hash)
  {
    assert |HIGH.hash| != |LOW.hash| && |MEDIUM.hash| != |HIGH.hash| && |MEDIUM.hash| != |LOW.hash|;
  }

  lemma NothingHeld(s: State, tx: nat, hash: string)
    requires forall t | t in s.open :: s.open[t].version.None?
    ensures !HashHeld(s, tx, hash)
  {
  }
}
