/**
  Hash chains: what the last hash of a chain says about everything before it, and how
  verified batches make up one chain.
 */
module EvidenceChain {
  import opened Prelude
  import opened Sequences
  import opened EvidenceEvents
  import opened EvidenceVerifier
  import opened EvidenceStream

  /** Two chains from genesis that share a hash share everything up to it, at the same place. */
  lemma {:induction false} HashCommits(a: seq<Event>, i: nat, b: seq<Event>, j: nat)
    requires Linked(a, None) && Linked(b, None) && i < |a| && j < |b|
    requires HashOf(a[i]) == HashOf(b[j])
    ensures i == j
    ensures forall k | 0 <= k <= i :: Unsigned(a[k]) == Unsigned(b[k])
  {
    assert PreviousOf(a[i]) == Before(a, None, i);
    assert PreviousOf(b[j]) == Before(b, None, j);
    SamePrevious(a[i], b[j]);
    if i > 0 {
      HashCommits(a, i - 1, b, j - 1);
    }
  }

  lemma SamePrevious(x: Event, y: Event)
    requires HashOf(x) == HashOf(y)
    ensures Unsigned(x) == Unsigned(y) && PreviousOf(x) == PreviousOf(y)
  {
    assert PreviousEventHash in x <==> PreviousEventHash in Unsigned(x);
    assert PreviousEventHash in y <==> PreviousEventHash in Unsigned(y);
    if PreviousEventHash in x {
      assert x[PreviousEventHash] == Unsigned(x)[PreviousEventHash];
      assert y[PreviousEventHash] == Unsigned(y)[PreviousEventHash];
    }
  }

  lemma LinkedAppend(a: seq<Event>, b: seq<Event>)
    requires Linked(a, None) && Linked(b, Before(a, None, |a|))
    ensures Linked(a + b, None)
  {
    forall i {:trigger Before(a + b, None, i)} | 0 <= i < |a + b|
      ensures PreviousOf((a + b)[i]) == Before(a + b, None, i) && Get((a + b)[i], EventHash) == HashOf((a + b)[i])
    {
      if i < |a| {
        assert PreviousOf(a[i]) == Before(a, None, i);
      } else {
        assert PreviousOf(b[i - |a|]) == Before(b, Before(a, None, |a|), i - |a|);
      }
    }
  }

  // ---------------------------------------------------------------------------------
  // The chain of verified batches
  // ---------------------------------------------------------------------------------

  /** The verified batches, in insertion order. */
  function Chain(batches: seq<Batch>): seq<Batch> {
    if batches == [] then []
    else
      var n := |batches| - 1;
      Chain(batches[..n]) + if batches[n].verified then [batches[n]] else []
  }

  lemma ChainSnoc(batches: seq<Batch>, b: Batch)
    ensures Chain(batches + [b]) == Chain(batches) + if b.verified then [b] else []
  {
    assert (batches + [b])[..|batches|] == batches;
  }

  lemma {:induction false} ChainMember(batches: seq<Batch>, b: Batch)
    ensures b in Chain(batches) <==> b in batches && b.verified
  {
    if batches != [] {
      hide Chain;
      var init, last := batches[..|batches| - 1], batches[|batches| - 1];
      assert batches == init + [last];
      ChainMember(init, b);
      ChainSnoc(init, last);
      MemberSnoc(init, last, b);
      MemberSnoc(Chain(init), last, b);
      assert Chain(init) + [] == Chain(init);
    }
  }

  /** All events of the stream, in chain order. */
  function History(chain: seq<Batch>): seq<Event> {
    if chain == [] then [] else History(chain[..|chain| - 1]) + chain[|chain| - 1].content
  }

  lemma HistorySnoc(chain: seq<Batch>, b: Batch)
    ensures History(chain + [b]) == History(chain) + b.content
  {
    assert (chain + [b])[..|chain|] == chain;
  }

  lemma {:induction false} HistoryMember(chain: seq<Batch>, b: Batch, e: Event)
    requires b in chain && e in b.content
    ensures e in History(chain)
  {
    var n := |chain| - 1;
    if b != chain[n] {
      assert chain == chain[..n] + [chain[n]];
      HistoryMember(chain[..n], b, e);
    }
  }

  /** The position the batch at index `i` must extend. */
  function HeadBefore(chain: seq<Batch>, i: nat): Option<Value>
    requires i <= |chain|
  {
    if i == 0 then None else chain[i - 1].head
  }

  ghost predicate RowLinked(b: Batch) {
    && b.content != []
    && b.head == Some(HashOf(b.content[|b.content| - 1]))
    && Linked(b.content, b.firstPrev)
  }

  /** One batch extends the next, from genesis on: no fork, no gap. */
  ghost predicate Unforked(chain: seq<Batch>) {
    forall i {:trigger HeadBefore(chain, i)} | 0 <= i < |chain| ::
      RowLinked(chain[i]) && chain[i].firstPrev == HeadBefore(chain, i)
  }

  lemma UnforkedTake(chain: seq<Batch>, n: nat)
    requires n <= |chain| && Unforked(chain)
    ensures Unforked(chain[..n])
  {
    var init := chain[..n];
    forall i | 0 <= i < |init|
      ensures RowLinked(init[i]) && init[i].firstPrev == HeadBefore(init, i)
    {
      assert HeadBefore(init, i) == HeadBefore(chain, i);
    }
  }

  /** An unforked chain of batches is one hash chain of events, and its last hash is the head. */
  lemma {:induction false} HistoryLinked(chain: seq<Batch>)
    requires Unforked(chain)
    ensures Linked(History(chain), None)
    ensures Before(History(chain), None, |History(chain)|) == HeadBefore(chain, |chain|)
    ensures |History(chain)| >= |chain|
  {
    if chain != [] {
      var n := |chain| - 1;
      UnforkedTake(chain, n);
      HistoryLinked(chain[..n]);
      assert HeadBefore(chain, n) == HeadBefore(chain[..n], n);
      assert RowLinked(chain[n]);
      LinkedAppend(History(chain[..n]), chain[n].content);
    }
  }

  lemma {:induction false} HistoryGrows(chain: seq<Batch>, i: nat, j: nat)
    requires i < j <= |chain| && Unforked(chain)
    ensures |History(chain[..i])| < |History(chain[..j])|
    decreases j
  {
    assert HeadBefore(chain, j - 1) == chain[j - 1].firstPrev;
    assert chain[..j][..j - 1] == chain[..j - 1];
    if i < j - 1 { HistoryGrows(chain, i, j - 1); }
  }

  /** Every batch of an unforked chain has its own head. */
  lemma HeadsDistinct(chain: seq<Batch>, i: nat, j: nat)
    requires i < j < |chain| && Unforked(chain)
    ensures chain[i].head != chain[j].head
  {
    if chain[i].head == chain[j].head {
      var a, b := History(chain[..i + 1]), History(chain[..j + 1]);
      UnforkedTake(chain, i + 1);
      UnforkedTake(chain, j + 1);
      HistoryLinked(chain[..i + 1]);
      HistoryLinked(chain[..j + 1]);
      HistoryGrows(chain, i + 1, j + 1);
      HashCommits(a, |a| - 1, b, |b| - 1);
      assert false;
    }
  }

  /** A free position that is genesis or some head of the chain is the end of the chain. */
  lemma FreePositionIsEnd(chain: seq<Batch>, position: Option<Value>)
    requires Unforked(chain)
    requires position == None || exists k | 0 <= k < |chain| :: chain[k].head == position
    requires forall k | 0 <= k < |chain| :: chain[k].firstPrev != position
    ensures position == HeadBefore(chain, |chain|)
  {
    if position == None {
      var genesis := HeadBefore(chain, 0);
    } else {
      var k :| 0 <= k < |chain| && chain[k].head == position;
      var next := HeadBefore(chain, k + 1);
    }
  }
}
