/**
  Contract synchronisation of one action under concurrent transactions
  (api/contract_store.go; `performIdempotentContractSync` and `performContractSyncInTx`
  in api/routes_contracts.go).

  A transaction claims its idempotency key by inserting a placeholder row, reads the
  version history, appends a version, completes its row and commits.  Its writes are
  visible to others only once it commits, but they hold the unique keys they take from
  the moment they are made: a second claim of the key, or a second insert of the hash,
  waits until the first transaction ends.  Any transaction may roll back at any point.
 */
module ContractSync {
  import opened Prelude
  import opened ContractVersions

  datatype Body = Empty | Body(version: Version, created: bool)

  /** A row of the idempotency table. */
  datatype Record = Record(fingerprint: string, status: nat, body: Body)

  const PLACEHOLDER_STATUS := 0
  const STATUS_OK := 200
  const STATUS_CREATED := 201

  datatype Phase =
    | Started
    | PriorRead(prior: Option<Contract>)
    | Synced(status: nat, body: Body)
    | Completed

  /** An open transaction: its key and uncommitted row, if it has a key, and its uncommitted version, if any. */
  datatype Transaction = Transaction(
    key: Option<string>, contract: Contract, row: Option<Record>, version: Option<Version>, phase: Phase)

  datatype Outcome = Answered(status: nat, body: Body, replayed: bool) | Conflict
  datatype Reply = Reply(key: Option<string>, fingerprint: string, outcome: Outcome)

  datatype State = State(
    records: map<string, Record>, versions: seq<Version>, open: map<nat, Transaction>, replies: seq<Reply>)

  datatype Label =
    | Claim(tx: nat, key: Option<string>, contract: Contract)
    | ReadVersions(tx: nat)
    | InsertVersion(tx: nat)
    | Complete(tx: nat)
    | Commit(tx: nat)
    | Rollback(tx: nat)

  predicate KeyHeld(s: State, key: string) { exists t | t in s.open :: s.open[t].key == Some(key) }

  predicate HashHeld(s: State, tx: nat, hash: string) {
    exists t | t in s.open && t != tx :: s.open[t].version.Some? && s.open[t].version.value.contract.hash == hash
  }

  function Existing(versions: seq<Version>, hash: string): Phase
    requires HasHash(versions, hash)
  {
    Synced(STATUS_OK, Body(versions[IndexOf(versions, hash)], false))
  }

  /** What a request is told when its key already has a committed row. */
  function Replay(key: string, r: Record, c: Contract): Reply {
    Reply(Some(key), c.hash, if r.fingerprint != c.hash then Conflict else Answered(r.status, r.body, true))
  }

  function ClaimStep(s: State, tx: nat, key: Option<string>, c: Contract): State {
    if tx in s.open then s
    else if key.None? then s.(open := s.open[tx := Transaction(None, c, None, None, Started)])
    else if key.value in s.records then
      s.(replies := s.replies + [Replay(key.value, s.records[key.value], c)])
    else if KeyHeld(s, key.value) then s
    else
      var row := Record(c.hash, PLACEHOLDER_STATUS, Empty);
      s.(open := s.open[tx := Transaction(key, c, Some(row), None, Started)])
  }

  function ReadStep(s: State, p: Transaction): Transaction {
    if !p.phase.Started? then p
    else if HasHash(s.versions, p.contract.hash) then p.(phase := Existing(s.versions, p.contract.hash))
    else p.(phase := PriorRead(Latest(s.versions)))
  }

  function InsertStep(s: State, tx: nat, p: Transaction): Transaction {
    if !p.phase.PriorRead? || HashHeld(s, tx, p.contract.hash) then p
    else if HasHash(s.versions, p.contract.hash) then p.(phase := Existing(s.versions, p.contract.hash))
    else
      var v := NewVersion(p.phase.prior, p.contract);
      p.(version := Some(v), phase := Synced(STATUS_CREATED, Body(v, true)))
  }

  function CompleteStep(p: Transaction): Transaction {
    if p.phase.Synced? && p.row.Some? && p.row.value.fingerprint == p.contract.hash
    then p.(row := Some(Record(p.contract.hash, p.phase.status, p.phase.body)), phase := Completed)
    else p
  }

  function CommitStep(s: State, tx: nat, p: Transaction): State {
    var versions := s.versions + if p.version.Some? then [p.version.value] else [];
    if p.key.None? && p.phase.Synced? then
      State(s.records, versions, s.open - {tx},
            s.replies + [Reply(None, p.contract.hash, Answered(p.phase.status, p.phase.body, false))])
    else if p.key.Some? && p.row.Some? && p.phase.Completed? then
      State(s.records[p.key.value := p.row.value], versions, s.open - {tx},
            s.replies + [Reply(p.key, p.contract.hash, Answered(p.row.value.status, p.row.value.body, false))])
    else s
  }

  /** One step; a label that is not enabled, or that has to wait, leaves the state as it is. */
  function Step(s: State, l: Label): State {
    if l.Claim? then ClaimStep(s, l.tx, l.key, l.contract)
    else if l.tx !in s.open then s
    else
      var p := s.open[l.tx];
      match l
      case ReadVersions(tx) => s.(open := s.open[tx := ReadStep(s, p)])
      case InsertVersion(tx) => s.(open := s.open[tx := InsertStep(s, tx, p)])
      case Complete(tx) => s.(open := s.open[tx := CompleteStep(p)])
      case Commit(tx) => CommitStep(s, tx, p)
      case Rollback(tx) => s.(open := s.open - {tx})
  }

  const INITIAL := State(map[], [], map[], [])

  function Run(s: State, labels: seq<Label>): State {
    if labels == [] then s else Step(Run(s, labels[..|labels| - 1]), labels[|labels| - 1])
  }

  // ---------------------------------------------------------------------------------
  // The invariant
  // ---------------------------------------------------------------------------------

  /** The answer describes a version that is committed or that commits with it. */
  ghost predicate Describes(status: nat, body: Body, hash: string, versions: seq<Version>, own: Option<Version>) {
    && body.Body?
    && body.version.contract.hash == hash
    && status == (if body.created then STATUS_CREATED else STATUS_OK)
    && (if body.created then own == Some(body.version) else body.version in versions && own.None?)
  }

  ghost predicate TransactionOk(records: map<string, Record>, versions: seq<Version>, p: Transaction) {
    && (p.key.Some? <==> p.row.Some?)
    && (p.key.Some? ==> p.key.value !in records && p.row.value.fingerprint == p.contract.hash)
    && (p.version.Some? ==>
          && p.version.value.contract == p.contract
          && p.version.value == NewVersion(p.version.value.against, p.contract)
          && !HasHash(versions, p.contract.hash))
    && match p.phase
       case Started => p.version.None?
       case PriorRead(_) => p.version.None?
       case Synced(status, body) => Describes(status, body, p.contract.hash, versions, p.version)
       case Completed =>
         && p.row.Some?
         && Describes(p.row.value.status, p.row.value.body, p.contract.hash, versions, p.version)
  }

  /** No two open transactions hold one key or one hash. */
  ghost predicate Exclusive(open: map<nat, Transaction>) {
    forall t, u | t in open && u in open && t != u ::
      && (open[t].key.Some? ==> open[t].key != open[u].key)
      && (open[t].version.Some? && open[u].version.Some? ==>
            open[t].version.value.contract.hash != open[u].version.value.contract.hash)
  }

  ghost predicate RecordOk(versions: seq<Version>, r: Record) {
    && r.body.Body?
    && r.body.version in versions
    && r.body.version.contract.hash == r.fingerprint
    && r.status == (if r.body.created then STATUS_CREATED else STATUS_OK)
  }

  ghost predicate ReplyOk(records: map<string, Record>, r: Reply) {
    r.key.Some? ==>
      && r.key.value in records
      && var record := records[r.key.value];
         match r.outcome
         case Conflict => r.fingerprint != record.fingerprint
         case Answered(status, body, _) =>
           r.fingerprint == record.fingerprint && status == record.status && body == record.body
  }

  /** The reply comes from the transaction that executed the sync, not from a replay. */
  predicate Executed(r: Reply, key: string) {
    r.key == Some(key) && r.outcome.Answered? && !r.outcome.replayed
  }

  ghost predicate ExecutedOnce(records: map<string, Record>, replies: seq<Reply>) {
    && (forall k | k in records :: exists i | 0 <= i < |replies| :: Executed(replies[i], k))
    && (forall k, i, j | 0 <= i < j < |replies| && Executed(replies[i], k) :: !Executed(replies[j], k))
  }

  ghost predicate Inv(s: State) {
    && (forall t | t in s.open :: TransactionOk(s.records, s.versions, s.open[t]))
    && Exclusive(s.open)
    && HashesDistinct(s.versions)
    && Compared(s.versions)
    && (forall k | k in s.records :: RecordOk(s.versions, s.records[k]))
    && (forall i | 0 <= i < |s.replies| :: ReplyOk(s.records, s.replies[i]))
    && ExecutedOnce(s.records, s.replies)
  }
}
