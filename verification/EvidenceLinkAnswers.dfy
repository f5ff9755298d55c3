/**
  Who gets a link: free evidence that proves a run can be linked to it, evidence that
  another run holds cannot, and every answer to an attempt is true.
 */
module EvidenceLinkAnswers {
  import opened Prelude
  import opened EvidenceEvents
  import opened EvidenceChain
  import opened EvidenceLinks
  import Stream = EvidenceStream
  import Safety = EvidenceSafety

  /** Another run has this evidence. */
  ghost predicate HeldByOther(links: seq<Link>, link: Link) {
    exists l | l in links :: l.task != link.task && (l.batch == link.batch || l.digest == link.digest)
  }

  /** The run itself has a link with this digest. */
  ghost predicate HeldBySelf(links: seq<Link>, link: Link) {
    exists l | l in links :: l.task == link.task && l.digest == link.digest
  }

  lemma HeldIff(links: seq<Link>, link: Link)
    ensures TakenByOther(links, link) <==> HeldByOther(links, link)
    ensures Holds(links, link.task, link.digest) <==> HeldBySelf(links, link)
  {
    if l :| l in links && l.task != link.task && (l.batch == link.batch || l.digest == link.digest) {
      var i :| 0 <= i < |links| && links[i] == l;
      assert Overlaps(links[i], link.digest, link.batch);
    }
    if l :| l in links && l.task == link.task && l.digest == link.digest {
      var i :| 0 <= i < |links| && links[i] == l;
      assert links[i].task == link.task && links[i].digest == link.digest;
    }
    if TakenByOther(links, link) {
      var i :| 0 <= i < |links| && Overlaps(links[i], link.digest, link.batch) && links[i].task != link.task;
      assert links[i] in links;
    }
    if Holds(links, link.task, link.digest) {
      var i :| 0 <= i < |links| && links[i].task == link.task && links[i].digest == link.digest;
      assert links[i] in links;
    }
  }

  /** Where links and the new one prove their runs, evidence that is taken is held by the run or by another. */
  lemma TakenIsHeld(runs: Runs, w: World, link: Link)
    requires LinksProve(runs, w) && Proves(w, runs(link.task), link.digest, link.batch)
    ensures Taken(w.links, link) <==> HeldBySelf(w.links, link) || HeldByOther(w.links, link)
  {
    HeldIff(w.links, link);
    if Taken(w.links, link) {
      var i :| 0 <= i < |w.links| && Overlaps(w.links[i], link.digest, link.batch);
      assert Proves(w, runs(w.links[i].task), w.links[i].digest, w.links[i].batch);
      assert w.links[i] in w.links && w.links[i].digest == link.digest;
    }
    if Holds(w.links, link.task, link.digest) {
      var i :| 0 <= i < |w.links| && w.links[i].task == link.task && w.links[i].digest == link.digest;
      assert Overlaps(w.links[i], link.digest, link.batch);
    }
  }

  // ---------------------------------------------------------------------------------
  // What a link documents
  // ---------------------------------------------------------------------------------

  /** The event is a decision on what the run does. */
  predicate DecidesOn(e: Event, id: Identity) {
    && Get(e, EventType) == Text("decision") && Get(e, ActionName) == id.action
    && Get(e, ContractHash) == id.contract && Get(e, InputHash) == id.inputHash
  }

  /** The batch is verified, the digest is its head, and one of its events is a decision on what the run does. */
  ghost predicate Documents(w: World, id: Identity, digest: Value, batch: BatchId) {
    && batch.row < |Batches(w, batch.key)|
    && var b := Batches(w, batch.key)[batch.row];
       b.verified && b.head == Some(digest) && exists e | e in b.content :: DecidesOn(e, id)
  }

  /** Where streams are in order, the stored rows of a batch say the same as the batch itself. */
  lemma ProvesIff(rings: Rings, w: World, id: Identity, digest: Value, batch: BatchId)
    requires StreamsOk(rings, w)
    ensures Proves(w, id, digest, batch) <==> Documents(w, id, digest, batch)
  {
    if batch.key in w.streams && batch.row < |w.streams[batch.key].tables.batches| {
      var t := w.streams[batch.key].tables;
      assert Safety.Inv(rings(batch.key), w.streams[batch.key]);
      StoredMatchIff(t, batch.row, id);
    }
  }

  lemma StoredMatchIff(t: Stream.Tables, row: nat, id: Identity)
    requires Safety.LedgerOk(t) && row < |t.batches|
    ensures t.batches[row].verified ==>
      (StoredMatch(t, row, id) <==> exists e | e in t.batches[row].content :: DecidesOn(e, id))
  {
    hide Unforked, Safety.OutcomesAllowed;
    if h :| h in t.events && t.events[h].batch == row && Matches(t.events[h].event, id) {
      assert Safety.Backed(t.batches, h, t.events[h]);
      assert DecidesOn(t.events[h].event, id);
    }
    var b := t.batches[row];
    if b.verified {
      if e :| e in b.content && DecidesOn(e, id) {
        var i :| 0 <= i < |b.content| && b.content[i] == e;
        assert Safety.StoredAs(t.events, row, b.content);
        assert t.events[HashOf(e)] == Stream.EventRow(row, e) && Matches(e, id);
      }
    }
  }

  /** A link, once made, documents its run forever. */
  lemma LinksDocumentForever(rings: Rings, runs: Runs, labels: seq<Label>, more: seq<Label>, link: Link)
    requires link in Run(rings, runs, INITIAL, labels).links
    ensures
      var later := Run(rings, runs, Run(rings, runs, INITIAL, labels), more);
      link in later.links && Documents(later, runs(link.task), link.digest, link.batch)
  {
    LinksProveForever(rings, runs, labels, more, link);
    ReachableInv(rings, runs, labels);
    RunInv(rings, runs, Run(rings, runs, INITIAL, labels), more);
    hide Run, Proves, Documents, StreamsOk, LinksProve, AttemptsProve, Exclusive;
    ProvesIff(rings, Run(rings, runs, Run(rings, runs, INITIAL, labels), more), runs(link.task), link.digest, link.batch);
  }

  // ---------------------------------------------------------------------------------
  // Every answer is true
  // ---------------------------------------------------------------------------------

  ghost predicate AttemptTrue(links: seq<Link>, a: Attempt) {
    a.Finished? ==> if a.linked then HeldBySelf(links, a.link) else HeldByOther(links, a.link)
  }

  ghost predicate AttemptsTrue(w: World) {
    forall who | who in w.attempts :: AttemptTrue(w.links, w.attempts[who])
  }

  lemma HeldGrows(links: seq<Link>, more: seq<Link>, link: Link)
    requires links <= more
    ensures HeldBySelf(links, link) ==> HeldBySelf(more, link)
    ensures HeldByOther(links, link) ==> HeldByOther(more, link)
  {
    if l :| l in links && l.task == link.task && l.digest == link.digest { assert l in more; }
    if l :| l in links && l.task != link.task && (l.batch == link.batch || l.digest == link.digest) { assert l in more; }
  }

  lemma InsertTells(runs: Runs, w: World, who: nat, link: Link)
    requires LinksProve(runs, w) && Proves(w, runs(link.task), link.digest, link.batch) && AttemptsTrue(w)
    ensures AttemptsTrue(InsertStep(w, who, link))
  {
    hide HeldBySelf, HeldByOther;
    var w' := InsertStep(w, who, link);
    HeldIff(w.links, link);
    TakenIsHeld(runs, w, link);
    assert link in w.links + [link];
    assert !Taken(w.links, link) ==> HeldBySelf(w'.links, link) by { SelfHolds(w.links, link); }
    forall v | v in w'.attempts ensures AttemptTrue(w'.links, w'.attempts[v]) {
      if v != who { HeldGrows(w.links, w'.links, w.attempts[v].link); }
    }
  }

  lemma SelfHolds(links: seq<Link>, link: Link)
    ensures HeldBySelf(links + [link], link)
  {
    assert link in links + [link];
  }

  lemma TellsStep(rings: Rings, runs: Runs, w: World, l: Label)
    requires Inv(rings, runs, w) && AttemptsTrue(w)
    ensures AttemptsTrue(Step(rings, runs, w, l))
  {
    hide HeldBySelf, HeldByOther, StreamsOk, Exclusive, Proves;
    match l
    case Ingest(key, step) =>
    case Check(who, task, batch) =>
    case LookForConflict(who) => if who in w.attempts { HeldIff(w.links, w.attempts[who].link); }
    case InsertLink(who) =>
      if who in w.attempts && w.attempts[who].Cleared? { InsertTells(runs, w, who, w.attempts[who].link); }
  }

  /**
    In every interleaving a finished attempt was told the truth: that it linked, only if
    its run holds the digest, and that it did not, only if another run holds the batch or
    the digest; both are then so for good.
   */
  lemma {:induction false} LinkAnswersAreTrue(rings: Rings, runs: Runs, labels: seq<Label>)
    ensures AttemptsTrue(Run(rings, runs, INITIAL, labels))
  {
    if labels != [] {
      hide AttemptsTrue, Step;
      var before := labels[..|labels| - 1];
      LinkAnswersAreTrue(rings, runs, before);
      ReachableInv(rings, runs, before);
      TellsStep(rings, runs, Run(rings, runs, INITIAL, before), labels[|labels| - 1]);
    }
  }

  /** In every reachable table an attempt gets no row exactly if another run holds its evidence. */
  lemma AnswersNothingIff(rings: Rings, runs: Runs, labels: seq<Label>, link: Link)
    requires
      var w := Run(rings, runs, INITIAL, labels);
      Documents(w, runs(link.task), link.digest, link.batch)
    ensures
      var links := Run(rings, runs, INITIAL, labels).links;
      LinkAnswer(links, link).None? <==> HeldByOther(links, link)
  {
    hide StreamsOk, Exclusive, Proves, Documents, HeldBySelf, HeldByOther;
    ReachableInv(rings, runs, labels);
    var w := Run(rings, runs, INITIAL, labels);
    ProvesIff(rings, w, runs(link.task), link.digest, link.batch);
    HeldIff(w.links, link);
    TakenIsHeld(runs, w, link);
    if Holds(w.links, link.task, link.digest) {
      var i :| 0 <= i < |w.links| && w.links[i].task == link.task && w.links[i].digest == link.digest;
      assert w.links[i] in w.links;
    }
  }

  // ---------------------------------------------------------------------------------
  // Who gets a link
  // ---------------------------------------------------------------------------------

  /** Nobody has this evidence. */
  ghost predicate Free(links: seq<Link>, link: Link) {
    forall l | l in links :: l.batch != link.batch && l.digest != link.digest
  }

  lemma FreeIsNotTaken(links: seq<Link>, link: Link)
    requires Free(links, link)
    ensures !Taken(links, link) && !TakenByOther(links, link)
  {
    forall i | 0 <= i < |links| ensures !Overlaps(links[i], link.digest, link.batch) { assert links[i] in links; }
  }

  /** The head of a verified batch has the form of a hash. */
  lemma HeadIsHash(rings: Rings, w: World, id: Identity, digest: Value, batch: BatchId)
    requires StreamsOk(rings, w) && Proves(w, id, digest, batch)
    ensures IsHash(digest)
  {
    assert Safety.Inv(rings(batch.key), w.streams[batch.key]);
    var t := w.streams[batch.key].tables;
    assert t.batches[batch.row] in t.batches;
    hide Safety.LedgerOk, Safety.SubmitterOk, Safety.OneRowPerIdentity, Safety.OneOutcomeEach, StoredMatch;
  }

  lemma {:induction false} RunThree(rings: Rings, runs: Runs, w: World, a: Label, b: Label, c: Label)
    ensures Run(rings, runs, w, [a, b, c]) == Step(rings, runs, Step(rings, runs, Step(rings, runs, w, a), b), c)
  {
    hide Step;
    assert [a, b, c][..2] == [a, b] && [a, b][..1] == [a] && [a][..0] == [];
    assert Run(rings, runs, w, []) == w;
    assert Run(rings, runs, w, [a]) == Step(rings, runs, w, a);
    assert Run(rings, runs, w, [a, b]) == Step(rings, runs, Step(rings, runs, w, a), b);
  }

  lemma AttemptAlone(rings: Rings, runs: Runs, w: World, who: nat, link: Link)
    requires who !in w.attempts && Proves(w, runs(link.task), link.digest, link.batch) && IsHash(link.digest)
    requires !Taken(w.links, link) && !TakenByOther(w.links, link)
    ensures
      var w1 := Step(rings, runs, w, Check(who, link.task, link.batch));
      var w' := Step(rings, runs, Step(rings, runs, w1, LookForConflict(who)), InsertLink(who));
      && w'.links == w.links + [link] && w'.streams == w.streams
      && who in w'.attempts && w'.attempts[who] == Finished(link, true)
  {
    var head := Batches(w, link.batch.key)[link.batch.row].head;
    assert head == Some(link.digest) && Link(link.task, head.value, link.batch) == link;
    hide Proves, Taken, TakenByOther, IsHash, Batches;
    var w1 := Step(rings, runs, w, Check(who, link.task, link.batch));
    assert w1 == w.(attempts := w.attempts[who := Eligible(link)]);
    var w2 := Step(rings, runs, w1, LookForConflict(who));
    assert w2 == w1.(attempts := w1.attempts[who := Cleared(link)]);
  }

  /**
    From every reachable state, evidence that documents a run and that nobody has yet is
    linked to it by an attempt that is not interrupted.
   */
  lemma FreeEvidenceIsLinked(rings: Rings, runs: Runs, labels: seq<Label>, who: nat, link: Link)
    requires
      var w := Run(rings, runs, INITIAL, labels);
      who !in w.attempts && Documents(w, runs(link.task), link.digest, link.batch) && Free(w.links, link)
    ensures
      var w := Run(rings, runs, INITIAL, labels);
      var w' := Run(rings, runs, w, [Check(who, link.task, link.batch), LookForConflict(who), InsertLink(who)]);
      && w'.links == w.links + [link] && w'.streams == w.streams
      && who in w'.attempts && w'.attempts[who] == Finished(link, true)
  {
    ReachableInv(rings, runs, labels);
    var w := Run(rings, runs, INITIAL, labels);
    RunThree(rings, runs, w, Check(who, link.task, link.batch), LookForConflict(who), InsertLink(who));
    ProvesIff(rings, w, runs(link.task), link.digest, link.batch);
    HeadIsHash(rings, w, runs(link.task), link.digest, link.batch);
    FreeIsNotTaken(w.links, link);
    hide Run, Step, Inv, Proves, Documents, Taken, TakenByOther, IsHash, Free;
    AttemptAlone(rings, runs, w, who, link);
  }

  /** Evidence that another run holds is not eligible, and nothing changes. */
  lemma HeldEvidenceIsRefused(rings: Rings, runs: Runs, w: World, who: nat, link: Link)
    requires HeldByOther(w.links, link)
    requires link.batch.row < |Batches(w, link.batch.key)| && Batches(w, link.batch.key)[link.batch.row].head == Some(link.digest)
    ensures Step(rings, runs, w, Check(who, link.task, link.batch)) == w
  {
    HeldIff(w.links, link);
    hide Proves, HeldByOther, TakenByOther;
  }
}
