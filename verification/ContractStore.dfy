/**
  The idempotency and version tables as one transaction changes them in place
  (api/contract_store.go and the sync functions of api/routes_contracts.go), tied to the
  protocol: a transaction that runs by itself leaves the tables, and answers, as the
  protocol does when its steps are not interleaved with any other.
 */
module ContractStore {
  import opened Prelude
  import opened ContractVersions
  import opened ContractSync

  /** The five steps of one sync, with nothing in between. */
  function Alone(s: State, key: string, c: Contract): State {
    Step(Step(Step(Step(Step(s, Claim(0, Some(key), c)), ReadVersions(0)), InsertVersion(0)), Complete(0)), Commit(0))
  }

  lemma AloneIsARun(s: State, key: string, c: Contract)
    ensures Alone(s, key, c) ==
            Run(s, [Claim(0, Some(key), c), ReadVersions(0), InsertVersion(0), Complete(0), Commit(0)])
  {
    hide Step;
    var l1: seq<Label> := [Claim(0, Some(key), c)];
    var l2 := l1 + [ReadVersions(0)];
    var l3 := l2 + [InsertVersion(0)];
    var l4 := l3 + [Complete(0)];
    var l5 := l4 + [Commit(0)];
    assert l1[..0] == [] && l2[..1] == l1 && l3[..2] == l2 && l4[..3] == l3 && l5[..4] == l4;
    assert Run(s, l1) == Step(s, l1[0]);
    assert Run(s, l2) == Step(Run(s, l1), ReadVersions(0));
    assert Run(s, l3) == Step(Run(s, l2), InsertVersion(0));
    assert Run(s, l4) == Step(Run(s, l3), Complete(0));
    assert Run(s, l5) == Step(Run(s, l4), Commit(0));
    assert l5 == [Claim(0, Some(key), c), ReadVersions(0), InsertVersion(0), Complete(0), Commit(0)];
  }

  class Tables {
    var records: map<string, Record>
    var versions: seq<Version>

    constructor ()
      ensures records == map[] && versions == []
    {
      records, versions := map[], [];
    }

    /** Inserts a placeholder row unless the key has a row. */
    method ClaimRecord(key: string, fingerprint: string) returns (claimed: bool)
      modifies this`records
      ensures claimed <==> key !in old(records)
      ensures records == if claimed then old(records)[key := Record(fingerprint, PLACEHOLDER_STATUS, Empty)] else old(records)
    {
      claimed := key !in records;
      if claimed {
        records := records[key := Record(fingerprint, PLACEHOLDER_STATUS, Empty)];
      }
    }

    /** Updates the row of the key if it carries this fingerprint. */
    method CompleteRecord(key: string, fingerprint: string, status: nat, body: Body) returns (updated: bool)
      modifies this`records
      ensures updated <==> key in old(records) && old(records)[key].fingerprint == fingerprint
      ensures records == if updated then old(records)[key := Record(fingerprint, status, body)] else old(records)
    {
      updated := key in records && records[key].fingerprint == fingerprint;
      if updated {
        records := records[key := Record(fingerprint, status, body)];
      }
    }

    method GetVersion(hash: string) returns (v: Option<Version>)
      ensures v.Some? <==> HasHash(versions, hash)
      ensures v.Some? ==> v.value == versions[IndexOf(versions, hash)]
    {
      var n := |versions|;
      while n > 0
        invariant 0 <= n <= |versions|
        invariant forall k | n <= k < |versions| :: versions[k].contract.hash != hash
      {
        n := n - 1;
        if versions[n].contract.hash == hash {
          LastIndex(versions, hash, n);
          return Some(versions[n]);
        }
      }
      v := None;
    }

    /** Appends the version unless its hash is taken. */
    method InsertContractVersion(v: Version) returns (inserted: bool)
      modifies this`versions
      ensures inserted <==> !HasHash(old(versions), v.contract.hash)
      ensures versions == if inserted then old(versions) + [v] else old(versions)
    {
      var found := GetVersion(v.contract.hash);
      inserted := found.None?;
      if inserted {
        versions := versions + [v];
      }
    }

    /** Resolves or appends the version of the contract. */
    method PerformContractSyncInTx(c: Contract) returns (status: nat, body: Body)
      modifies this`versions
      ensures HasHash(old(versions), c.hash) ==>
                versions == old(versions) && Synced(status, body) == Existing(versions, c.hash)
      ensures !HasHash(old(versions), c.hash) ==>
                var v := NewVersion(Latest(old(versions)), c);
                versions == old(versions) + [v] && status == STATUS_CREATED && body == Body(v, true)
    {
      var found := GetVersion(c.hash);
      if found.Some? {
        return STATUS_OK, Body(found.value, false);
      }
      var v := NewVersion(Latest(versions), c);
      var inserted := InsertContractVersion(v);
      status, body := STATUS_CREATED, Body(v, true);
    }

    /** One idempotent sync: the tables and the answer are those of the protocol run alone. */
    method PerformIdempotentContractSync(key: string, c: Contract) returns (outcome: Outcome)
      modifies this
      ensures
        var s := Alone(State(old(records), old(versions), map[], []), key, c);
        && records == s.records && versions == s.versions && s.open == map[]
        && s.replies == [Reply(Some(key), c.hash, outcome)]
    {
      hide Latest, NewVersion, IndexOf, HasHash, Alone;
      var claimed := ClaimRecord(key, c.hash);
      if !claimed {
        AloneReplays(State(records, versions, map[], []), key, c);
        var record := records[key];
        return if record.fingerprint != c.hash then Conflict else Answered(record.status, record.body, true);
      }
      var status, body := PerformContractSyncInTx(c);
      var updated := CompleteRecord(key, c.hash, status, body);
      outcome := Answered(status, body, false);
      AloneExecutes(State(old(records), old(versions), map[], []), key, c, status, body);
    }
  }

  /** The last index with the hash is the one the lookup finds. */
  lemma {:induction false} LastIndex(log: seq<Version>, hash: string, n: nat)
    requires n < |log| && log[n].contract.hash == hash
    requires forall k | n < k < |log| :: log[k].contract.hash != hash
    ensures IndexOf(log, hash) == n
  {
    if n < |log| - 1 {
      LastIndex(log[..|log| - 1], hash, n);
    }
  }

  /** What a sync that runs alone under a new key does, step by step. */
  lemma AloneExecutes(s: State, key: string, c: Contract, status: nat, body: Body)
    requires key !in s.records && s.open == map[] && s.replies == []
    requires
      if HasHash(s.versions, c.hash) then Synced(status, body) == Existing(s.versions, c.hash)
      else status == STATUS_CREATED && body == Body(NewVersion(Latest(s.versions), c), true)
    ensures
      var s' := Alone(s, key, c);
      && s'.records == s.records[key := Record(c.hash, status, body)]
      && s'.versions == (if HasHash(s.versions, c.hash) then s.versions else s.versions + [body.version])
      && s'.open == map[]
      && s'.replies == [Reply(Some(key), c.hash, Answered(status, body, false))]
  {
    hide Latest, NewVersion, IndexOf, HasHash, Step, Existing;
    AloneSyncs(s, key, c, status, body);
    var p := Transaction(Some(key), c, Some(Record(c.hash, PLACEHOLDER_STATUS, Empty)),
                         if HasHash(s.versions, c.hash) then None else Some(body.version), Synced(status, body));
    AloneCommits(s, key, p);
  }

  lemma AloneSyncs(s: State, key: string, c: Contract, status: nat, body: Body)
    requires key !in s.records && s.open == map[] && s.replies == []
    requires
      if HasHash(s.versions, c.hash) then Synced(status, body) == Existing(s.versions, c.hash)
      else status == STATUS_CREATED && body == Body(NewVersion(Latest(s.versions), c), true)
    ensures
      Step(Step(Step(s, Claim(0, Some(key), c)), ReadVersions(0)), InsertVersion(0)) ==
      State(s.records, s.versions,
            map[0 := Transaction(Some(key), c, Some(Record(c.hash, PLACEHOLDER_STATUS, Empty)),
                                 if HasHash(s.versions, c.hash) then None else Some(body.version),
                                 Synced(status, body))], [])
  {
    hide Latest, NewVersion, IndexOf, HasHash;
    var p1 := Transaction(Some(key), c, Some(Record(c.hash, PLACEHOLDER_STATUS, Empty)), None, Started);
    var s1 := Step(s, Claim(0, Some(key), c));
    assert s1 == State(s.records, s.versions, map[0 := p1], []);
    var s2 := Step(s1, ReadVersions(0));
    assert s2 == State(s.records, s.versions, map[0 := ReadStep(s1, p1)], []);
    assert !HashHeld(s2, 0, c.hash);
  }

  lemma AloneCommits(s: State, key: string, p: Transaction)
    requires p.key == Some(key) && p.row.Some? && p.row.value.fingerprint == p.contract.hash && p.phase.Synced?
    ensures
      var s' := Step(Step(State(s.records, s.versions, map[0 := p], []), Complete(0)), Commit(0));
      && s'.records == s.records[key := Record(p.contract.hash, p.phase.status, p.phase.body)]
      && s'.versions == s.versions + (if p.version.Some? then [p.version.value] else [])
      && s'.open == map[]
      && s'.replies == [Reply(Some(key), p.contract.hash, Answered(p.phase.status, p.phase.body, false))]
  {
    var s0 := State(s.records, s.versions, map[0 := p], []);
    var s1 := Step(s0, Complete(0));
    assert s1 == State(s.records, s.versions, map[0 := CompleteStep(p)], []);
    assert map[0 := CompleteStep(p)] - {0} == map[];
  }

  /** A sync under a key that has a row is answered from the row and changes no table. */
  lemma AloneReplays(s: State, key: string, c: Contract)
    requires key in s.records && s.open == map[] && s.replies == []
    ensures Alone(s, key, c) == s.(replies := [Replay(key, s.records[key], c)])
  {
    var s1 := Step(s, Claim(0, Some(key), c));
    assert s1 == s.(replies := [Replay(key, s.records[key], c)]);
  }
}
