/** Facts about sequences that several components share. */
module Sequences {

  /** Concatenation of a list of lists. */
  function Concat<T>(lists: seq<seq<T>>): seq<T> {
    if lists == [] then [] else Concat(lists[..|lists| - 1]) + lists[|lists| - 1]
  }

  lemma ConcatSnoc<T>(lists: seq<seq<T>>, last: seq<T>)
    ensures Concat(lists + [last]) == Concat(lists) + last
  {
    assert (lists + [last])[..|lists|] == lists;
  }

  lemma TakeSnoc<T>(s: seq<T>, i: nat)
    requires i < |s|
    ensures s[..i + 1] == s[..i] + [s[i]]
  {
  }

  lemma Regroup<T>(a: seq<T>, b: seq<T>, c: seq<T>, d: seq<T>)
    ensures a + b + c + d == a + (b + (c + d))
  {
  }

  lemma MemberSnoc<T>(s: seq<T>, last: T, x: T)
    ensures x in s + [last] <==> x in s || x == last
  {
  }

  lemma ConcatTake<T>(lists: seq<seq<T>>, i: nat)
    requires i < |lists|
    ensures Concat(lists[..i + 1]) == Concat(lists[..i]) + lists[i]
  {
    TakeSnoc(lists, i);
    ConcatSnoc(lists[..i], lists[i]);
  }

  lemma {:induction false} ConcatEmpty<T>(lists: seq<seq<T>>)
    ensures Concat(lists) == [] <==> forall i | 0 <= i < |lists| :: lists[i] == []
  {
    if lists != [] {
      var n := |lists| - 1;
      ConcatEmpty(lists[..n]);
      assert forall i | 0 <= i < n :: lists[..n][i] == lists[i];
    }
  }

  lemma {:induction false} ConcatSource<T>(lists: seq<seq<T>>, x: T) returns (i: nat)
    requires x in Concat(lists)
    ensures i < |lists| && x in lists[i]
  {
    var n := |lists| - 1;
    if x in lists[n] {
      i := n;
    } else {
      i := ConcatSource(lists[..n], x);
    }
  }

  lemma {:induction false} ConcatMember<T>(lists: seq<seq<T>>, i: nat, x: T)
    requires i < |lists| && x in lists[i]
    ensures x in Concat(lists)
  {
    var n := |lists| - 1;
    if i < n { ConcatMember(lists[..n], i, x); }
  }
}
