/**
  Exclusive ownership of evidence by runs within a tenant
  (`evaluateEvidenceLinkEligibility` and `insertEvidenceLinkExclusive` in
  api/igris_run_proof.go; the two exclusive indexes are in
  database/migrations/071_run_scoped_evidence_link_exclusivity.sql).

  Linking is three separate steps, the eligibility query, the conflict query and the
  insert, and evidence ingestion on any of the tenant's streams may interleave with them.
 */
module EvidenceLinks {
  import opened Prelude
  import opened EvidenceEvents
  import opened EvidenceChain
  import Stream = EvidenceStream
  import Safety = EvidenceSafety
  import Theorems = EvidenceTheorems

  /** What a contract-bound run is bound to. */
  datatype Identity = Identity(action: Value, contract: Value, inputHash: Value)

  /** A batch of the tenant: its stream and its row. */
  datatype BatchId = BatchId(key: string, row: nat)

  datatype Link = Link(task: nat, digest: Value, batch: BatchId)

  datatype Attempt = Eligible(link: Link) | Cleared(link: Link) | Finished(link: Link, linked: bool)

  datatype World = World(streams: map<string, Stream.State>, links: seq<Link>, attempts: map<nat, Attempt>)

  datatype Label =
    | Ingest(key: string, step: Stream.Label)
    | Check(who: nat, task: nat, batch: BatchId)
    | LookForConflict(who: nat)
    | InsertLink(who: nat)

  type Runs = nat -> Identity
  type Rings = string -> Stream.KeyRing

  ghost function Batches(w: World, key: string): seq<Stream.Batch> {
    if key in w.streams then w.streams[key].tables.batches else []
  }

  /** The event is a decision of this action and contract on this input. */
  predicate Matches(e: Event, id: Identity) {
    && IsDecision(e)
    && Get(e, ActionName) == id.action
    && Get(e, ContractHash) == id.contract
    && Get(e, InputHash) == id.inputHash
  }

  /** The stored event rows of a batch hold a decision that matches the run. */
  ghost predicate StoredMatch(t: Stream.Tables, row: nat, id: Identity) {
    exists h | h in t.events :: t.events[h].batch == row && Matches(t.events[h].event, id)
  }

  /** The digest is the chain head of a verified batch with a matching decision. */
  ghost predicate Proves(w: World, id: Identity, digest: Value, batch: BatchId) {
    && batch.key in w.streams
    && var t := w.streams[batch.key].tables;
       && batch.row < |t.batches|
       && t.batches[batch.row].verified
       && t.batches[batch.row].head == Some(digest)
       && StoredMatch(t, batch.row, id)
  }

  predicate Overlaps(l: Link, digest: Value, batch: BatchId) { l.batch == batch || l.digest == digest }

  predicate TakenByOther(links: seq<Link>, link: Link) {
    exists i | 0 <= i < |links| :: Overlaps(links[i], link.digest, link.batch) && links[i].task != link.task
  }

  predicate Taken(links: seq<Link>, link: Link) {
    exists i | 0 <= i < |links| :: Overlaps(links[i], link.digest, link.batch)
  }

  ghost function CheckStep(runs: Runs, w: World, who: nat, task: nat, batch: BatchId): World {
    if who in w.attempts || batch.row >= |Batches(w, batch.key)| || Batches(w, batch.key)[batch.row].head.None? then w
    else
      var link := Link(task, Batches(w, batch.key)[batch.row].head.value, batch);
      if Proves(w, runs(task), link.digest, batch) && IsHash(link.digest) && !TakenByOther(w.links, link)
      then w.(attempts := w.attempts[who := Eligible(link)])
      else w
  }

  /** The insert; the exclusive indexes refuse a batch or digest that any link already has. */
  function InsertStep(w: World, who: nat, link: Link): World {
    if Taken(w.links, link) then
      var own := exists i | 0 <= i < |w.links| :: w.links[i].task == link.task && w.links[i].digest == link.digest;
      w.(attempts := w.attempts[who := Finished(link, own)])
    else
      w.(links := w.links + [link], attempts := w.attempts[who := Finished(link, true)])
  }

  ghost function Step(rings: Rings, runs: Runs, w: World, l: Label): World {
    match l
    case Ingest(key, step) =>
      var before := if key in w.streams then w.streams[key] else Stream.INITIAL;
      w.(streams := w.streams[key := Stream.Step(rings(key), before, step)])
    case Check(who, task, batch) => CheckStep(runs, w, who, task, batch)
    case LookForConflict(who) =>
      if who !in w.attempts || !w.attempts[who].Eligible? then w
      else
        var link := w.attempts[who].link;
        w.(attempts := w.attempts[who := if TakenByOther(w.links, link) then Finished(link, false) else Cleared(link)])
    case InsertLink(who) =>
      if who !in w.attempts || !w.attempts[who].Cleared? then w
      else InsertStep(w, who, w.attempts[who].link)
  }

  const INITIAL := World(map[], [], map[])

  ghost function Run(rings: Rings, runs: Runs, w: World, labels: seq<Label>): World {
    if labels == [] then w
    else Step(rings, runs, Run(rings, runs, w, labels[..|labels| - 1]), labels[|labels| - 1])
  }

  // ---------------------------------------------------------------------------------
  // The invariant
  // ---------------------------------------------------------------------------------

  ghost predicate StreamsOk(rings: Rings, w: World) {
    forall k | k in w.streams :: Safety.Inv(rings(k), w.streams[k])
  }

  /** No two links share a batch or a digest. */
  ghost predicate Exclusive(links: seq<Link>) {
    forall i, j | 0 <= i < j < |links| :: !Overlaps(links[i], links[j].digest, links[j].batch)
  }

  ghost predicate LinksProve(runs: Runs, w: World) {
    forall i | 0 <= i < |w.links| :: Proves(w, runs(w.links[i].task), w.links[i].digest, w.links[i].batch)
  }

  ghost predicate AttemptsProve(runs: Runs, w: World) {
    forall who | who in w.attempts ::
      Proves(w, runs(w.attempts[who].link.task), w.attempts[who].link.digest, w.attempts[who].link.batch)
  }

  ghost predicate Inv(rings: Rings, runs: Runs, w: World) {
    StreamsOk(rings, w) && Exclusive(w.links) && LinksProve(runs, w) && AttemptsProve(runs, w)
  }

  /** Streams only grow. */
  ghost predicate Grows(w: World, w': World) {
    forall k | k in w.streams :: k in w'.streams && Safety.Grows(w.streams[k].tables, w'.streams[k].tables)
  }

  /** What proves a run keeps proving it as streams grow. */
  lemma ProvesGrows(w: World, w': World, id: Identity, digest: Value, batch: BatchId)
    requires Grows(w, w') && Proves(w, id, digest, batch)
    ensures Proves(w', id, digest, batch)
  {
    var t, t' := w.streams[batch.key].tables, w'.streams[batch.key].tables;
    assert Safety.Grows(t, t');
    var h :| h in t.events && t.events[h].batch == batch.row && Matches(t.events[h].event, id);
    assert t'.events[h] == t.events[h];
  }

  lemma AllProveGrows(runs: Runs, w: World, w': World)
    requires Grows(w, w') && LinksProve(runs, w) && AttemptsProve(runs, w)
    requires w'.links == w.links && w'.attempts == w.attempts
    ensures LinksProve(runs, w') && AttemptsProve(runs, w')
  {
    hide Grows, Proves;
    forall i | 0 <= i < |w.links| {
      ProvesGrows(w, w', runs(w.links[i].task), w.links[i].digest, w.links[i].batch);
    }
    forall who | who in w.attempts {
      ProvesGrows(w, w', runs(w.attempts[who].link.task), w.attempts[who].link.digest, w.attempts[who].link.batch);
    }
  }

  lemma IngestGrows(rings: Rings, runs: Runs, w: World, key: string, step: Stream.Label)
    requires StreamsOk(rings, w)
    ensures
      var w' := Step(rings, runs, w, Ingest(key, step));
      StreamsOk(rings, w') && Grows(w, w')
  {
    hide Safety.Inv, Stream.Step;
    var before := if key in w.streams then w.streams[key] else Stream.INITIAL;
    Theorems.InitialInv(rings(key));
    Theorems.StepInv(rings(key), before, step);
  }

  /** If streams are the same, what they prove is the same. */
  lemma SameStreams(w: World, w': World, id: Identity, digest: Value, batch: BatchId)
    requires w'.streams == w.streams
    ensures Proves(w', id, digest, batch) <==> Proves(w, id, digest, batch)
  {
  }

  lemma AttemptInv(rings: Rings, runs: Runs, w: World, who: nat, a: Attempt)
    requires Inv(rings, runs, w) && Proves(w, runs(a.link.task), a.link.digest, a.link.batch)
    ensures Inv(rings, runs, w.(attempts := w.attempts[who := a]))
  {
    hide Proves, StreamsOk;
    var w' := w.(attempts := w.attempts[who := a]);
    forall i | 0 <= i < |w'.links| ensures Proves(w', runs(w'.links[i].task), w'.links[i].digest, w'.links[i].batch) {
      SameStreams(w, w', runs(w'.links[i].task), w'.links[i].digest, w'.links[i].batch);
    }
    forall x | x in w'.attempts
      ensures Proves(w', runs(w'.attempts[x].link.task), w'.attempts[x].link.digest, w'.attempts[x].link.batch)
    {
      var l := w'.attempts[x].link;
      SameStreams(w, w', runs(l.task), l.digest, l.batch);
    }
    assert StreamsOk(rings, w') by { SameStreamsOk(rings, w, w'); }
  }

  lemma SameStreamsOk(rings: Rings, w: World, w': World)
    requires StreamsOk(rings, w) && w'.streams == w.streams
    ensures StreamsOk(rings, w')
  {
    hide Safety.Inv;
  }

  lemma NewLinkInv(rings: Rings, runs: Runs, w: World, link: Link)
    requires Inv(rings, runs, w) && Proves(w, runs(link.task), link.digest, link.batch) && !Taken(w.links, link)
    ensures Inv(rings, runs, w.(links := w.links + [link]))
  {
    hide Proves, StreamsOk;
    var w' := w.(links := w.links + [link]);
    forall i | 0 <= i < |w'.links| ensures Proves(w', runs(w'.links[i].task), w'.links[i].digest, w'.links[i].batch) {
      SameStreams(w, w', runs(w'.links[i].task), w'.links[i].digest, w'.links[i].batch);
    }
    forall x | x in w'.attempts
      ensures Proves(w', runs(w'.attempts[x].link.task), w'.attempts[x].link.digest, w'.attempts[x].link.batch)
    {
      var l := w'.attempts[x].link;
      SameStreams(w, w', runs(l.task), l.digest, l.batch);
    }
    assert StreamsOk(rings, w') by { SameStreamsOk(rings, w, w'); }
  }

  lemma StepInv(rings: Rings, runs: Runs, w: World, l: Label)
    requires Inv(rings, runs, w)
    ensures Inv(rings, runs, Step(rings, runs, w, l))
    ensures Grows(w, Step(rings, runs, w, l)) && w.links <= Step(rings, runs, w, l).links
  {
    hide Proves, StreamsOk, Exclusive, Taken, TakenByOther;
    match l
    case Ingest(key, step) =>
      IngestGrows(rings, runs, w, key, step);
      AllProveGrows(runs, w, Step(rings, runs, w, l));
    case Check(who, task, batch) =>
      var w' := CheckStep(runs, w, who, task, batch);
      if w' != w { AttemptInv(rings, runs, w, who, w'.attempts[who]); }
    case LookForConflict(who) =>
      var w' := Step(rings, runs, w, l);
      if w' != w { AttemptInv(rings, runs, w, who, w'.attempts[who]); }
    case InsertLink(who) =>
      if who in w.attempts && w.attempts[who].Cleared? {
        var link := w.attempts[who].link;
        var w' := InsertStep(w, who, link);
        AttemptInv(rings, runs, w, who, w'.attempts[who]);
        if !Taken(w.links, link) {
          var moved := w.(attempts := w.attempts[who := Finished(link, true)]);
          SameStreams(w, moved, runs(link.task), link.digest, link.batch);
          NewLinkInv(rings, runs, moved, link);
        }
      }
  }

  lemma {:induction false} RunInv(rings: Rings, runs: Runs, w: World, labels: seq<Label>)
    requires Inv(rings, runs, w)
    ensures Inv(rings, runs, Run(rings, runs, w, labels))
    ensures w.links <= Run(rings, runs, w, labels).links
  {
    hide Inv, Step, Grows;
    if labels != [] {
      RunInv(rings, runs, w, labels[..|labels| - 1]);
      StepInv(rings, runs, Run(rings, runs, w, labels[..|labels| - 1]), labels[|labels| - 1]);
    }
  }

  lemma ReachableInv(rings: Rings, runs: Runs, labels: seq<Label>)
    ensures Inv(rings, runs, Run(rings, runs, INITIAL, labels))
  {
    RunInv(rings, runs, INITIAL, labels);
  }

  // ---------------------------------------------------------------------------------
  // The theorems
  // ---------------------------------------------------------------------------------

  /** In every interleaving a batch, and a chain digest, belongs to at most one run. */
  lemma EvidenceBelongsToOneRun(rings: Rings, runs: Runs, labels: seq<Label>)
    ensures
      var links := Run(rings, runs, INITIAL, labels).links;
      forall a, b | a in links && b in links && (a.batch == b.batch || a.digest == b.digest) :: a == b
  {
    hide StreamsOk, LinksProve, AttemptsProve, Exclusive;
    ReachableInv(rings, runs, labels);
    var links := Run(rings, runs, INITIAL, labels).links;
    forall a, b | a in links && b in links && (a.batch == b.batch || a.digest == b.digest) ensures a == b {
      var i :| 0 <= i < |links| && links[i] == a;
      var j :| 0 <= j < |links| && links[j] == b;
      OnlyOne(links, i, j);
    }
  }

  lemma OnlyOne(links: seq<Link>, i: nat, j: nat)
    requires Exclusive(links) && i < |links| && j < |links|
    requires Overlaps(links[i], links[j].digest, links[j].batch)
    ensures i == j
  {
    assert Overlaps(links[j], links[i].digest, links[i].batch);
  }

  /**
    A link, once made, is there forever, and forever its batch is verified, has the
    link's digest as its head, and holds a decision on the run's action, contract and
    input.
   */
  lemma LinksProveForever(rings: Rings, runs: Runs, labels: seq<Label>, more: seq<Label>, link: Link)
    requires link in Run(rings, runs, INITIAL, labels).links
    ensures
      var later := Run(rings, runs, Run(rings, runs, INITIAL, labels), more);
      link in later.links && Proves(later, runs(link.task), link.digest, link.batch)
  {
    hide Proves;
    ReachableInv(rings, runs, labels);
    var w := Run(rings, runs, INITIAL, labels);
    RunInv(rings, runs, w, more);
    var i :| 0 <= i < |w.links| && w.links[i] == link;
    assert Run(rings, runs, w, more).links[i] == link;
  }

  /** The chain of the batch's stream, up to and including the batch. */
  ghost predicate ChainTo(w: World, batch: BatchId, chain: seq<Stream.Batch>) {
    && batch.row < |Batches(w, batch.key)|
    && chain <= Chain(Batches(w, batch.key))
    && chain != [] && chain[|chain| - 1] == Batches(w, batch.key)[batch.row]
  }

  lemma StreamUnforked(rings: Rings, w: World, key: string)
    requires StreamsOk(rings, w) && key in w.streams
    ensures Unforked(Chain(w.streams[key].tables.batches))
  {
    assert Safety.Inv(rings(key), w.streams[key]);
    hide Safety.RowsOk, Safety.AllStored, Safety.OnlyStored, Safety.OutcomesAllowed, Unforked, Safety.SubmitterOk;
  }

  lemma ChainPrefix(batches: seq<Stream.Batch>, row: nat) returns (chain: seq<Stream.Batch>)
    requires Unforked(Chain(batches)) && row < |batches| && batches[row].verified
    ensures chain <= Chain(batches) && Unforked(chain) && chain != [] && chain[|chain| - 1] == batches[row]
  {
    var full := Chain(batches);
    ChainMember(batches, batches[row]);
    var i :| 0 <= i < |full| && full[i] == batches[row];
    chain := full[..i + 1];
    UnforkedTake(full, i + 1);
  }

  lemma LinkedChain(rings: Rings, runs: Runs, w: World, link: Link) returns (chain: seq<Stream.Batch>)
    requires StreamsOk(rings, w) && Proves(w, runs(link.task), link.digest, link.batch)
    ensures ChainTo(w, link.batch, chain) && Unforked(chain) && HeadBefore(chain, |chain|) == Some(link.digest)
  {
    hide StreamsOk, Unforked, StoredMatch;
    StreamUnforked(rings, w, link.batch.key);
    chain := ChainPrefix(w.streams[link.batch.key].tables.batches, link.batch.row);
  }

  /**
    The digest of a link pins everything recorded up to the linked batch: wherever two
    reachable worlds, perhaps of different tenants, link one digest, the payloads of the
    two streams up to there are the same.
   */
  lemma DigestPinsHistory(rings: Rings, runs: Runs, labels: seq<Label>, link: Link,
                          rings': Rings, runs': Runs, labels': seq<Label>, link': Link)
    requires link in Run(rings, runs, INITIAL, labels).links
    requires link' in Run(rings', runs', INITIAL, labels').links
    requires link.digest == link'.digest
    ensures exists chain, chain' ::
      && ChainTo(Run(rings, runs, INITIAL, labels), link.batch, chain)
      && ChainTo(Run(rings', runs', INITIAL, labels'), link'.batch, chain')
      && |History(chain)| == |History(chain')|
      && forall k | 0 <= k < |History(chain)| :: Unsigned(History(chain)[k]) == Unsigned(History(chain')[k])
  {
    hide ChainTo, Proves, StreamsOk;
    ReachableInv(rings, runs, labels);
    ReachableInv(rings', runs', labels');
    var chain := LinkedChain(rings, runs, Run(rings, runs, INITIAL, labels), link);
    var chain' := LinkedChain(rings', runs', Run(rings', runs', INITIAL, labels'), link');
    Theorems.SameHeadSameHistory(chain, chain');
  }

  // ---------------------------------------------------------------------------------
  // The table as the store inserts into it
  // ---------------------------------------------------------------------------------

  /** The newest link of a run. */
  function LatestLink(links: seq<Link>, task: nat): (r: Option<Link>)
    ensures r.Some? ==> r.value in links && r.value.task == task
    ensures r.None? ==> forall l | l in links :: l.task != task
  {
    if links == [] then None
    else if links[|links| - 1].task == task then Some(links[|links| - 1])
    else LatestLink(links[..|links| - 1], task)
  }

  predicate Holds(links: seq<Link>, task: nat, digest: Value) {
    exists i | 0 <= i < |links| :: links[i].task == task && links[i].digest == digest
  }

  /** What an attempt to link returns: the new link, nothing, or on a replay the newest link of the run. */
  function LinkAnswer(links: seq<Link>, link: Link): Option<Link> {
    if !Taken(links, link) then Some(link)
    else if TakenByOther(links, link) || !Holds(links, link.task, link.digest) then None
    else LatestLink(links, link.task)
  }

  lemma {:induction false} LatestIs(links: seq<Link>, i: nat)
    requires i < |links| && forall j | i < j < |links| :: links[j].task != links[i].task
    ensures LatestLink(links, links[i].task) == Some(links[i])
  {
    if i < |links| - 1 { LatestIs(links[..|links| - 1], i); }
  }

  lemma {:induction false} LatestIndex(links: seq<Link>, task: nat) returns (k: nat)
    requires LatestLink(links, task).Some?
    ensures k < |links| && links[k] == LatestLink(links, task).value
    ensures forall j | k < j < |links| :: links[j].task != task
  {
    if links[|links| - 1].task == task {
      k := |links| - 1;
    } else {
      k := LatestIndex(links[..|links| - 1], task);
      assert links[..|links| - 1][k] == links[k];
    }
  }

  /** Linking again what is already linked returns that very link exactly if the run has made no other link since. */
  lemma ReplayReturnsTheLinkIff(links: seq<Link>, i: nat)
    requires Exclusive(links) && i < |links|
    ensures LinkAnswer(links, links[i]) == Some(links[i]) <==> forall j | i < j < |links| :: links[j].task != links[i].task
  {
    var link := links[i];
    assert Overlaps(links[i], link.digest, link.batch) && Holds(links, link.task, link.digest);
    forall j | 0 <= j < |links| && Overlaps(links[j], link.digest, link.batch) ensures j == i {
      OnlyOne(links, j, i);
    }
    if forall j | i < j < |links| :: links[j].task != link.task {
      LatestIs(links, i);
    } else {
      var k := LatestIndex(links, link.task);
    }
  }

  /** A run that has linked two batches gets the second link when it links the first one again. */
  lemma ReplayMayReturnAnotherLink(a: Link, b: Link)
    requires a.task == b.task && a.digest != b.digest && a.batch != b.batch
    ensures Exclusive([a, b]) && LinkAnswer([a, b], a) == Some(b)
  {
    assert [a, b][0] == a && Overlaps([a, b][0], a.digest, a.batch);
    assert Holds([a, b], a.task, a.digest);
  }

  class LinkTable {
    var links: seq<Link>

    constructor ()
      ensures links == []
    {
      links := [];
    }

    /** Appends the link unless another link has its batch or digest, and answers with a row. */
    method InsertExclusive(link: Link) returns (r: Option<Link>)
      modifies this
      ensures links == (if Taken(old(links), link) then old(links) else old(links) + [link])
      ensures r == LinkAnswer(old(links), link)
      ensures old(Exclusive(links)) ==> Exclusive(links)
    {
      var same, taken, latest := false, false, None;
      for i := 0 to |links|
        invariant links == old(links)
        invariant forall k | 0 <= k < i :: Overlaps(links[k], link.digest, link.batch) ==> links[k].task == link.task
        invariant taken <==> exists k | 0 <= k < i :: Overlaps(links[k], link.digest, link.batch)
        invariant same <==> exists k | 0 <= k < i :: links[k].task == link.task && links[k].digest == link.digest
        invariant latest == LatestLink(links[..i], link.task)
      {
        assert links[..i + 1][..i] == links[..i];
        if Overlaps(links[i], link.digest, link.batch) {
          if links[i].task != link.task {
            return None;
          }
          taken := true;
        }
        if links[i].task == link.task {
          latest := Some(links[i]);
          if links[i].digest == link.digest {
            same := true;
          }
        }
      }
      assert links[..|links|] == links;
      if taken {
        return if same then latest else None;
      }
      links := links + [link];
      r := Some(link);
    }
  }
}
