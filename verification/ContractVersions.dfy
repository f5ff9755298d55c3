/**
  The append-only version history of one action and its security flags
  (`contractSecurityDelta` in api/routes_contracts.go).
 */
module ContractVersions {
  import opened Prelude

  datatype Risk = Low | Medium | High | Critical
  datatype Approval = Required | Never

  /**
    A validated contract as one transaction carries it.  The hash is the one the server
    recomputed; `created` is its place in the order the history is sorted by, which is the
    start of the transaction (then the row id) and need not be commit order.
   */
  datatype Contract = Contract(hash: string, risk: Risk, approval: Approval, mode: string, created: nat)

  datatype Flag =
    | RiskLowered(before: Risk, after: Risk)
    | ApprovalWeakened
    | ModeChanged(mode: string, mode': string)

  /** `against` is the contract this version was compared with when it was inserted. */
  datatype Version = Version(contract: Contract, sensitive: bool, flags: seq<Flag>, against: Option<Contract>)

  function Rank(r: Risk): nat {
    match r
    case Low => 1
    case Medium => 2
    case High => 3
    case Critical => 4
  }

  function SecurityDelta(prior: Option<Contract>, next: Contract): seq<Flag> {
    if prior.None? then []
    else
      var p := prior.value;
      (if Rank(next.risk) < Rank(p.risk) then [RiskLowered(p.risk, next.risk)] else []) +
      (if p.approval.Required? && next.approval.Never? then [ApprovalWeakened] else []) +
      (if p.mode != next.mode then [ModeChanged(p.mode, next.mode)] else [])
  }

  function NewVersion(prior: Option<Contract>, next: Contract): Version {
    var flags := SecurityDelta(prior, next);
    Version(next, |flags| > 0, flags, prior)
  }

  /** The order of risks: low is below all others, critical above all others, medium below high. */
  predicate Below(a: Risk, b: Risk) { a != b && (a.Low? || b.Critical? || (a.Medium? && b.High?)) }

  /** Ranks, which the code compares, are in the order of risks. */
  lemma RanksAreOrdered(a: Risk, b: Risk)
    ensures Rank(a) < Rank(b) <==> Below(a, b)
  {
  }

  /** The later contract protects less than the earlier one, or runs elsewhere. */
  predicate Weaker(earlier: Contract, later: Contract) {
    || Below(later.risk, earlier.risk)
    || (earlier.approval.Required? && later.approval.Never?)
    || earlier.mode != later.mode
  }

  lemma FlaggedIffWeaker(prior: Contract, next: Contract)
    ensures NewVersion(Some(prior), next).sensitive <==> Weaker(prior, next)
    ensures Below(next.risk, prior.risk) <==> RiskLowered(prior.risk, next.risk) in SecurityDelta(Some(prior), next)
    ensures (prior.approval.Required? && next.approval.Never?) <==> ApprovalWeakened in SecurityDelta(Some(prior), next)
    ensures prior.mode != next.mode <==> ModeChanged(prior.mode, next.mode) in SecurityDelta(Some(prior), next)
    ensures SecurityDelta(None, next) == []
  {
    RanksAreOrdered(next.risk, prior.risk);
  }

  /** Every weakening between two versions, however far apart, shows as a flag in between. */
  ghost predicate EveryWeakeningShows(log: seq<Version>) {
    forall i, j | 0 <= i < j < |log| && Weaker(log[i].contract, log[j].contract) ::
      exists k | i < k <= j :: log[k].sensitive
  }

  ghost predicate AdjacentWeakeningShows(log: seq<Version>) {
    forall k | 0 < k < |log| && Weaker(log[k - 1].contract, log[k].contract) :: log[k].sensitive
  }

  /** If nothing in between is flagged, nothing got weaker from one end to the other. */
  lemma {:induction false} UnflaggedStretch(log: seq<Version>, i: nat, j: nat)
    requires AdjacentWeakeningShows(log) && i < j < |log|
    requires forall k | i < k <= j :: !log[k].sensitive
    ensures !Weaker(log[i].contract, log[j].contract)
    decreases j
  {
    assert !Weaker(log[j - 1].contract, log[j].contract);
    if i < j - 1 { UnflaggedStretch(log, i, j - 1); }
  }

  /** It is enough, and necessary, that neighbours are flagged. */
  lemma NeighboursDecide(log: seq<Version>)
    ensures EveryWeakeningShows(log) <==> AdjacentWeakeningShows(log)
  {
    hide Weaker;
    if AdjacentWeakeningShows(log) {
      forall i, j | 0 <= i < j < |log| && Weaker(log[i].contract, log[j].contract)
        ensures exists k | i < k <= j :: log[k].sensitive
      {
        if forall k | i < k <= j :: !log[k].sensitive {
          UnflaggedStretch(log, i, j);
          assert false;
        }
      }
    }
    if EveryWeakeningShows(log) {
      forall k | 0 < k < |log| && Weaker(log[k - 1].contract, log[k].contract)
        ensures log[k].sensitive
      {
        var m :| k - 1 < m <= k && log[m].sensitive;
      }
    }
  }

  /** Each version was compared with some contract, or with none, and flagged accordingly. */
  ghost predicate Compared(log: seq<Version>) {
    forall k | 0 <= k < |log| :: log[k] == NewVersion(log[k].against, log[k].contract)
  }

  /**
    For any log of compared versions, every weakening shows exactly when each version
    that is weaker than its neighbour is also weaker than what it was compared with.
   */
  lemma ShowsIffComparedWell(log: seq<Version>)
    requires Compared(log)
    ensures EveryWeakeningShows(log) <==>
            forall k | 0 < k < |log| && Weaker(log[k - 1].contract, log[k].contract) ::
              log[k].against.Some? && Weaker(log[k].against.value, log[k].contract)
  {
    NeighboursDecide(log);
    forall k | 0 < k < |log|
      ensures log[k].sensitive <==> log[k].against.Some? && Weaker(log[k].against.value, log[k].contract)
    {
      if log[k].against.Some? { FlaggedIffWeaker(log[k].against.value, log[k].contract); }
    }
  }

  /** One more version keeps every weakening visible exactly when it does not weaken its neighbour or is flagged. */
  lemma AppendShowsIff(log: seq<Version>, v: Version)
    requires EveryWeakeningShows(log)
    ensures EveryWeakeningShows(log + [v]) <==>
            log == [] || !Weaker(log[|log| - 1].contract, v.contract) || v.sensitive
  {
    hide Weaker;
    NeighboursDecide(log);
    NeighboursDecide(log + [v]);
    var log' := log + [v];
    if log == [] || !Weaker(log[|log| - 1].contract, v.contract) || v.sensitive {
      forall k | 0 < k < |log'| && Weaker(log'[k - 1].contract, log'[k].contract) ensures log'[k].sensitive {
        if k < |log| { assert log'[k - 1] == log[k - 1] && log'[k] == log[k]; }
      }
    }
    if AdjacentWeakeningShows(log') && log != [] {
      assert log'[|log|] == v && log'[|log| - 1] == log[|log| - 1];
    }
  }

  predicate HasHash(log: seq<Version>, hash: string) {
    exists i | 0 <= i < |log| :: log[i].contract.hash == hash
  }

  ghost predicate HashesDistinct(log: seq<Version>) {
    forall i, j | 0 <= i < j < |log| :: log[i].contract.hash != log[j].contract.hash
  }

  /** The row the history query puts first: the one created last. */
  function Latest(log: seq<Version>): (r: Option<Contract>)
    ensures r.None? <==> log == []
    ensures r.Some? ==> exists i | 0 <= i < |log| :: log[i].contract == r.value
    ensures r.Some? ==> forall i | 0 <= i < |log| :: log[i].contract.created <= r.value.created
  {
    if log == [] then None
    else
      var last := log[|log| - 1].contract;
      var r := Latest(log[..|log| - 1]);
      if r.Some? && r.value.created > last.created then r else Some(last)
  }

  function IndexOf(log: seq<Version>, hash: string): (i: nat)
    requires HasHash(log, hash)
    ensures i < |log| && log[i].contract.hash == hash
  {
    if log[|log| - 1].contract.hash == hash then |log| - 1 else IndexOf(log[..|log| - 1], hash)
  }
}
