/**
  The tables of one stream as the store changes them in place (api/evidence_store.go and
  `persistEvidenceBatch` in api/routes_evidence.go).  Every method is the operation on
  tables that the protocol is built from.
 */
module EvidenceStore {
  import opened Prelude
  import opened EvidenceEvents
  import opened EvidenceStream
  import opened EvidenceChain
  import opened EvidenceTheorems

  datatype Insertion = Inserted(row: nat) | ContentTaken | ChainSlotTaken

  class Store {
    var key: Option<string>
    var batches: seq<Batch>
    var events: map<Value, EventRow>

    ghost function View(): Tables
      reads this
    {
      Tables(key, batches, events)
    }

    constructor ()
      ensures View() == INITIAL.tables
    {
      key, batches, events := None, [], map[];
    }

    /** The row with this identity, if any. */
    method GetBatchByContent(identity: string) returns (r: Option<nat>)
      ensures r == FindContent(batches, identity)
    {
      r := None;
      for i := 0 to |batches|
        invariant r == FindContent(batches[..i], identity)
      {
        assert batches[..i + 1][..i] == batches[..i];
        if r.None? && batches[i].identity == identity {
          r := Some(i);
        }
      }
      assert batches[..|batches|] == batches;
    }

    method IsExtended(position: Option<Value>) returns (r: bool)
      ensures r == Extended(batches, position)
    {
      for n := 0 to |batches|
        invariant forall k | 0 <= k < n :: !(batches[k].verified && batches[k].firstPrev == position)
      {
        if batches[n].verified && batches[n].firstPrev == position {
          return true;
        }
      }
      r := false;
    }

    /**
      A verified head that no verified batch extends; none if there is no such head.  On
      a chain that has not forked, that is the head of the last verified batch.
     */
    method CurrentChainHead() returns (head: Option<Value>)
      ensures HeadAnswer(batches, head)
      ensures Unforked(Chain(batches)) ==> head == HeadBefore(Chain(batches), |Chain(batches)|)
    {
      head := None;
      var b := 0;
      while b < |batches|
        invariant 0 <= b <= |batches|
        invariant head.None?
        invariant forall k | 0 <= k < b && batches[k].verified && batches[k].head.Some? :: Extended(batches, batches[k].head)
      {
        if batches[b].verified && batches[b].head.Some? {
          var extended := IsExtended(batches[b].head);
          if !extended {
            head := batches[b].head;
            break;
          }
        }
        b := b + 1;
      }
      assert HeadAnswer(batches, head);
      if Unforked(Chain(batches)) {
        OneHead(batches);
      }
    }

    /** Appends the row unless its content or, if it is verified, its chain position is taken. */
    method InsertBatch(row: Batch) returns (r: Insertion)
      modifies this`batches
      ensures r == (if FindContent(old(batches), row.identity).Some? then ContentTaken
                    else if row.verified && Extended(old(batches), row.firstPrev) then ChainSlotTaken
                    else Inserted(|old(batches)|))
      ensures batches == if r.Inserted? then old(batches) + [row] else old(batches)
    {
      var found := GetBatchByContent(row.identity);
      if found.Some? {
        return ContentTaken;
      }
      if row.verified {
        var extended := IsExtended(row.firstPrev);
        if extended {
          return ChainSlotTaken;
        }
      }
      r := Inserted(|batches|);
      batches := batches + [row];
    }

    method InsertEventRow(record: Record, batch: nat)
      modifies this`events
      ensures events == InsertEvent(old(events), record, batch)
    {
      if record.hash !in events {
        events := events[record.hash := EventRow(batch, record.event)];
      }
    }

    /** Stores the outcome in one transaction, as the protocol's insert step does. */
    method PersistBatch(sub: Submission, outcome: Outcome) returns (stored: Stored)
      requires outcome.Verified? ==> outcome.records != []
      modifies this
      ensures (View(), stored) == Persist(old(View()), sub, outcome)
    {
      if outcome.LookupFailed? {
        return DbFailure;
      }
      var found := GetBatchByContent(sub.identity);
      if outcome.Rejected? {
        var inserted := InsertBatch(RejectedRow(sub, outcome.issues));
        stored := if inserted.Inserted? then Created(inserted.row) else Replayed(found.value);
        return;
      }
      if key.Some? && key.value != sub.fingerprint {
        return KeyConflict;
      }
      var inserted := InsertBatch(VerifiedRow(sub, outcome.records));
      match inserted
      case ContentTaken => stored := Replayed(found.value);
      case ChainSlotTaken => stored := SlotTaken;
      case Inserted(row) =>
        key := Some(sub.fingerprint);
        ghost var before := events;
        for i := 0 to |outcome.records|
          invariant key == Some(sub.fingerprint) && batches == old(batches) + [VerifiedRow(sub, outcome.records)]
          invariant events == InsertEvents(before, outcome.records[..i], row)
        {
          assert outcome.records[..i + 1][..i] == outcome.records[..i];
          InsertEventRow(outcome.records[i], row);
        }
        assert outcome.records[..|outcome.records|] == outcome.records;
        stored := Created(row);
    }
  }
}
