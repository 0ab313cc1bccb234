/** Numbered groups that arrive in some order, possibly more than once, and are collected on first arrival. */
module Arrivals {

  /** The arrivals without repeats. */
  function Firsts(order: seq<nat>): seq<nat> {
    if order == [] then [] else
      var init, last := order[..|order| - 1], order[|order| - 1];
      if last in init then Firsts(init) else Firsts(init) + [last]
  }

  ghost predicate Within(order: seq<nat>, n: nat) {
    forall i | 0 <= i < |order| :: order[i] < n
  }

  ghost predicate AllArrived(order: seq<nat>, n: nat) {
    forall k | 0 <= k < n :: k in order
  }

  /** The groups collected for a sequence of group numbers. */
  ghost function Gather<T>(groups: seq<seq<T>>, order: seq<nat>): seq<T>
    requires Within(order, |groups|)
  {
    if order == [] then [] else Gather(groups, order[..|order| - 1]) + groups[order[|order| - 1]]
  }

  ghost function Elements(order: seq<nat>): set<nat> {
    set k | k in order
  }

  /** The members of those of the first `n` groups that have arrived, counted. */
  ghost function Total<T>(groups: seq<seq<T>>, n: nat, arrived: set<nat>): multiset<T>
    requires n <= |groups|
  {
    if n == 0 then multiset{}
    else Total(groups, n - 1, arrived) + (if n - 1 in arrived then multiset(groups[n - 1]) else multiset{})
  }

  ghost function Count<T>(groups: seq<seq<T>>, n: nat): nat
    requires n <= |groups|
  {
    if n == 0 then 0 else Count(groups, n - 1) + |groups[n - 1]|
  }

  lemma {:induction false} TotalGrows<T>(groups: seq<seq<T>>, n: nat, arrived: set<nat>, k: nat)
    requires n <= |groups| && k < |groups| && k !in arrived
    ensures Total(groups, n, arrived + {k}) ==
            Total(groups, n, arrived) + if k < n then multiset(groups[k]) else multiset{}
  {
    if n > 0 {
      TotalGrows(groups, n - 1, arrived, k);
    }
  }

  lemma {:induction false} TotalFits<T>(groups: seq<seq<T>>, n: nat, arrived: set<nat>)
    requires n <= |groups|
    ensures |Total(groups, n, arrived)| <= Count(groups, n)
  {
    if n > 0 {
      TotalFits(groups, n - 1, arrived);
      assert |multiset(groups[n - 1])| == |groups[n - 1]|;
    }
  }

  lemma {:induction false} TotalOfNone<T>(groups: seq<seq<T>>, n: nat)
    requires n <= |groups|
    ensures Total(groups, n, {}) == multiset{}
  {
    if n > 0 {
      TotalOfNone(groups, n - 1);
    }
  }

  lemma {:induction false} FirstsKeepElements(order: seq<nat>)
    ensures forall k :: k in Firsts(order) <==> k in order
  {
    if order != [] {
      var init, last := order[..|order| - 1], order[|order| - 1];
      FirstsKeepElements(init);
      assert order == init + [last];
    }
  }

  lemma FirstsOfRepeat(order: seq<nat>, k: nat)
    requires k in order
    ensures Firsts(order + [k]) == Firsts(order)
  {
    assert (order + [k])[..|order|] == order;
  }

  lemma FirstsWithin(order: seq<nat>, n: nat)
    requires Within(order, n)
    ensures Within(Firsts(order), n)
  {
    FirstsKeepElements(order);
    forall i | 0 <= i < |Firsts(order)| ensures Firsts(order)[i] < n {
      assert Firsts(order)[i] in order;
    }
  }

  lemma GatherOneMore<T>(groups: seq<seq<T>>, order: seq<nat>, k: nat)
    requires Within(order, |groups|) && k < |groups| && k !in order
    ensures Within(Firsts(order), |groups|) && Within(Firsts(order + [k]), |groups|)
    ensures Gather(groups, Firsts(order + [k])) == Gather(groups, Firsts(order)) + groups[k]
  {
    FirstsWithin(order, |groups|);
    FirstsWithin(order + [k], |groups|);
    assert (order + [k])[..|order|] == order;
    assert (Firsts(order) + [k])[..|Firsts(order)|] == Firsts(order);
  }

  /** What has been collected, counted, depends only on which groups have arrived. */
  lemma {:induction false} GatherIsTotal<T>(groups: seq<seq<T>>, order: seq<nat>)
    requires Within(order, |groups|)
    ensures Within(Firsts(order), |groups|)
    ensures multiset(Gather(groups, Firsts(order))) == Total(groups, |groups|, Elements(order))
  {
    if order == [] {
      TotalOfNone(groups, |groups|);
      assert Elements([]) == {};
    } else {
      var init, last := order[..|order| - 1], order[|order| - 1];
      assert order == init + [last];
      GatherIsTotal(groups, init);
      if last in init {
        assert Elements(order) == Elements(init);
      } else {
        GatherOneMore(groups, init, last);
        TotalGrows(groups, |groups|, Elements(init), last);
        assert Elements(order) == Elements(init) + {last};
      }
    }
  }

  /** There is room for a group that has not arrived. */
  lemma RoomForOneMore<T>(groups: seq<seq<T>>, order: seq<nat>, k: nat)
    requires Within(order, |groups|) && k < |groups| && k !in order
    ensures Within(Firsts(order), |groups|)
    ensures |Gather(groups, Firsts(order))| + |groups[k]| <= Count(groups, |groups|)
  {
    GatherIsTotal(groups, order);
    TotalGrows(groups, |groups|, Elements(order), k);
    TotalFits(groups, |groups|, Elements(order) + {k});
    assert |multiset(Gather(groups, Firsts(order)))| == |Gather(groups, Firsts(order))|;
    assert |multiset(groups[k])| == |groups[k]|;
  }

  /** Every collected member comes from a group that has arrived. */
  lemma {:induction false} GatheredFrom<T>(groups: seq<seq<T>>, order: seq<nat>, i: nat) returns (k: nat, j: nat)
    requires Within(order, |groups|) && i < |Gather(groups, order)|
    ensures k in order && k < |groups| && j < |groups[k]| && Gather(groups, order)[i] == groups[k][j]
  {
    var init, last := order[..|order| - 1], order[|order| - 1];
    if i < |Gather(groups, init)| {
      k, j := GatheredFrom(groups, init, i);
    } else {
      k, j := last, i - |Gather(groups, init)|;
    }
  }

  /** The arrival that supplies the last missing group. */
  lemma LastMissing(order: seq<nat>, n: nat) returns (at: nat)
    requires n > 0 && AllArrived(order, n)
    ensures at < |order| && !AllArrived(order[..at], n) && AllArrived(order[..at + 1], n)
  {
    at := 0;
    assert order[..|order|] == order;
    assert 0 !in order[..0];
    while !AllArrived(order[..at + 1], n)
      invariant at < |order| && !AllArrived(order[..at], n)
      decreases |order| - at
    {
      at := at + 1;
    }
  }

  lemma MoreArrivals(order: seq<nat>, n: nat, i: nat, j: nat)
    requires i <= j <= |order|
    ensures AllArrived(order[..i], n) ==> AllArrived(order[..j], n)
  {
    forall k | k in order[..i] ensures k in order[..j] {
      var a :| 0 <= a < i && order[a] == k;
      assert order[..j][a] == k;
    }
  }
}
