/** Delegation lists and sums over ledgers. */
module Stakes {
  import opened Types

  // ---------- one candidate's delegations ----------

  function FindDelegatorFrom(ds: seq<Delegation>, who: AccountId, start: nat): (i: nat)
    requires start <= |ds|
    ensures start <= i <= |ds|
    ensures i < |ds| ==> ds[i].delegator == who
    ensures forall j :: start <= j < i ==> ds[j].delegator != who
    decreases |ds| - start
  {
    if start == |ds| || ds[start].delegator == who then start else FindDelegatorFrom(ds, who, start + 1)
  }

  /** Index of the first delegation by `who`, or the length of the list. */
  function FindDelegator(ds: seq<Delegation>, who: AccountId): (i: nat)
    ensures i <= |ds|
    ensures i < |ds| ==> ds[i].delegator == who
    ensures forall j :: 0 <= j < i ==> ds[j].delegator != who
  {
    FindDelegatorFrom(ds, who, 0)
  }

  function StakeOf(ds: seq<Delegation>, who: AccountId): nat {
    var i := FindDelegator(ds, who);
    if i < |ds| then ds[i].stake else 0
  }

  ghost predicate DistinctDelegators(ds: seq<Delegation>) {
    forall i, j :: 0 <= i < j < |ds| ==> ds[i].delegator != ds[j].delegator
  }

  /** The saturating fold of `recompute_total_stake`. */
  function Fold(ds: seq<Delegation>): nat {
    if ds == [] then 0 else SaturatingAdd(Fold(ds[..|ds| - 1]), ds[|ds| - 1].stake)
  }

  /** The true sum of the stakes. */
  function Total(ds: seq<Delegation>): nat {
    if ds == [] then 0 else Total(ds[..|ds| - 1]) + ds[|ds| - 1].stake
  }

  lemma {:induction false} FoldIsCappedTotal(ds: seq<Delegation>)
    ensures Fold(ds) == Min(Total(ds), MAX_BALANCE)
  {
    if ds == [] {
    } else {
      FoldIsCappedTotal(ds[..|ds| - 1]);
    }
  }

  function Added(ds: seq<Delegation>, who: AccountId, amount: nat): seq<Delegation> {
    var i := FindDelegator(ds, who);
    if i < |ds| then ds[i := ds[i].(stake := SaturatingAdd(ds[i].stake, amount))]
    else ds + [Delegation(who, amount)]
  }

  function Removed(ds: seq<Delegation>, who: AccountId): seq<Delegation> {
    var i := FindDelegator(ds, who);
    if i < |ds| then ds[..i] + ds[i + 1..] else ds
  }

  lemma StakeAt(ds: seq<Delegation>, i: nat)
    requires DistinctDelegators(ds) && i < |ds|
    ensures StakeOf(ds, ds[i].delegator) == ds[i].stake
  {
  }

  lemma StakeIs(ds: seq<Delegation>, i: nat, who: AccountId)
    requires DistinctDelegators(ds) && i < |ds| && ds[i].delegator == who
    ensures StakeOf(ds, who) == ds[i].stake
  {
  }

  lemma StakeAbsent(ds: seq<Delegation>, who: AccountId)
    requires forall i :: 0 <= i < |ds| ==> ds[i].delegator != who
    ensures StakeOf(ds, who) == 0
  {
  }

  /** Staking keeps one entry per delegator and touches only the caller's. */
  lemma AddedStakes(ds: seq<Delegation>, who: AccountId, amount: nat, a: AccountId)
    requires DistinctDelegators(ds)
    ensures DistinctDelegators(Added(ds, who, amount))
    ensures FindDelegator(ds, who) == |ds| ==> |Added(ds, who, amount)| == |ds| + 1
    ensures FindDelegator(ds, who) < |ds| ==> |Added(ds, who, amount)| == |ds|
    ensures a != who ==> StakeOf(Added(ds, who, amount), a) == StakeOf(ds, a)
    ensures FindDelegator(ds, who) < |ds| ==>
              StakeOf(Added(ds, who, amount), who) == SaturatingAdd(StakeOf(ds, who), amount)
    ensures FindDelegator(ds, who) == |ds| ==> StakeOf(Added(ds, who, amount), who) == amount
  {
    var r := Added(ds, who, amount);
    var i, j := FindDelegator(ds, who), FindDelegator(ds, a);
    assert forall k :: 0 <= k < |ds| ==> r[k].delegator == ds[k].delegator;
    StakeIs(r, i, who);
    if a != who {
      if j < |ds| {
        StakeIs(r, j, a);
      } else {
        StakeAbsent(r, a);
      }
    }
  }

  lemma RemovedShape(ds: seq<Delegation>, who: AccountId)
    requires FindDelegator(ds, who) < |ds|
    ensures |Removed(ds, who)| == |ds| - 1
    ensures forall k {:trigger Removed(ds, who)[k]} :: 0 <= k < |ds| - 1 ==>
              Removed(ds, who)[k] == ds[if k < FindDelegator(ds, who) then k else k + 1]
  {
    hide FindDelegator;
    var i := FindDelegator(ds, who);
    assert Removed(ds, who) == ds[..i] + ds[i + 1..];
  }

  lemma RemovedDistinct(ds: seq<Delegation>, who: AccountId)
    requires DistinctDelegators(ds) && FindDelegator(ds, who) < |ds|
    ensures DistinctDelegators(Removed(ds, who))
    ensures |Removed(ds, who)| == |ds| - 1
    ensures forall d :: d in Removed(ds, who) ==> d in ds && d.delegator != who
  {
    RemovedShape(ds, who);
  }

  lemma SpliceStakes(ds: seq<Delegation>, r: seq<Delegation>, i: nat, a: AccountId)
    requires DistinctDelegators(ds) && DistinctDelegators(r)
    requires i < |ds| && |r| == |ds| - 1
    requires forall k :: 0 <= k < |r| ==> r[k] == ds[if k < i then k else k + 1]
    ensures StakeOf(r, a) == if a == ds[i].delegator then 0 else StakeOf(ds, a)
  {
    var j := FindDelegator(ds, a);
    if a == ds[i].delegator || j == |ds| {
      StakeAbsent(r, a);
    } else {
      StakeIs(r, if j < i then j else j - 1, a);
    }
  }

  lemma RemovedStakes(ds: seq<Delegation>, who: AccountId, a: AccountId)
    requires DistinctDelegators(ds) && FindDelegator(ds, who) < |ds|
    ensures StakeOf(Removed(ds, who), a) == if a == who then 0 else StakeOf(ds, a)
  {
    RemovedDistinct(ds, who);
    RemovedShape(ds, who);
    SpliceStakes(ds, Removed(ds, who), FindDelegator(ds, who), a);
  }

  // ---------- one stake among all ----------

  lemma {:induction false} TotalUpdate(ds: seq<Delegation>, i: nat, d: Delegation)
    requires i < |ds|
    ensures Total(ds[i := d]) == Total(ds) - ds[i].stake + d.stake
    ensures ds[i].stake <= Total(ds)
  {
    var init, last := ds[..|ds| - 1], |ds| - 1;
    if i < last {
      TotalUpdate(init, i, d);
      assert ds[i := d][..last] == init[i := d];
    } else {
      assert ds[i := d][..last] == init;
    }
  }

  lemma {:induction false} TotalSplice(ds: seq<Delegation>, i: nat)
    requires i < |ds|
    ensures Total(ds[..i] + ds[i + 1..]) == Total(ds) - ds[i].stake
  {
    var init, last := ds[..|ds| - 1], |ds| - 1;
    var r := ds[..i] + ds[i + 1..];
    if i < last {
      TotalSplice(init, i);
      assert r[..|r| - 1] == init[..i] + init[i + 1..];
    } else {
      assert r == init;
    }
  }

  /** A stake raises the folded total by its amount, up to the largest balance. */
  lemma AddedFolds(ds: seq<Delegation>, who: AccountId, amount: nat)
    ensures Fold(Added(ds, who, amount)) == Min(Fold(ds) + amount, MAX_BALANCE)
  {
    var r, i := Added(ds, who, amount), FindDelegator(ds, who);
    if i < |ds| {
      FoldIsCappedTotal(ds);
      FoldIsCappedTotal(r);
      TotalUpdate(ds, i, r[i]);
    } else {
      assert r[..|ds|] == ds;
    }
  }

  /** Taking a stake out lowers a total that fits a balance by that stake. */
  lemma RemovedFolds(ds: seq<Delegation>, who: AccountId)
    requires Total(ds) <= MAX_BALANCE
    ensures Fold(Removed(ds, who)) == Fold(ds) - StakeOf(ds, who)
  {
    var i := FindDelegator(ds, who);
    FoldIsCappedTotal(ds);
    FoldIsCappedTotal(Removed(ds, who));
    if i < |ds| {
      TotalSplice(ds, i);
    }
  }

  /** Two stakes by one account add up to a single one. */
  lemma AddedTwice(ds: seq<Delegation>, who: AccountId, first: nat, second: nat)
    requires first + second <= MAX_BALANCE
    ensures Added(Added(ds, who, first), who, second) == Added(ds, who, first + second)
    ensures FindDelegator(Added(ds, who, first), who) < |Added(ds, who, first)|
  {
    var r := Added(ds, who, first);
    var i := FindDelegator(ds, who);
    assert forall k :: 0 <= k < |ds| ==> r[k].delegator == ds[k].delegator;
    assert r[i].delegator == who;
    assert FindDelegator(r, who) == i;
  }

  // ---------- sums over a ledger ----------

  ghost function Sum(m: map<AccountId, nat>): nat
    decreases m.Keys
  {
    if m == map[] then 0
    else
      var k :| k in m;
      assert (m - {k}).Keys < m.Keys;
      m[k] + Sum(m - {k})
  }

  lemma {:induction false} SumWithout(m: map<AccountId, nat>, k: AccountId)
    requires k in m
    ensures Sum(m) == m[k] + Sum(m - {k})
    decreases m.Keys
  {
    var j :| j in m && Sum(m) == m[j] + Sum(m - {j});
    if j != k {
      assert (m - {j}).Keys < m.Keys && (m - {k}).Keys < m.Keys;
      SumWithout(m - {j}, k);
      SumWithout(m - {k}, j);
      assert m - {j} - {k} == m - {k} - {j};
    }
  }

  lemma SumUpdate(m: map<AccountId, nat>, k: AccountId, v: nat)
    ensures Sum(m[k := v]) == Sum(m) - Balance(m, k) + v
    ensures Balance(m, k) <= Sum(m)
  {
    SumWithout(m[k := v], k);
    assert m[k := v] - {k} == m - {k};
    if k in m {
      SumWithout(m, k);
    } else {
      assert m - {k} == m;
    }
  }

  lemma SumRemove(m: map<AccountId, nat>, k: AccountId)
    ensures Sum(m - {k}) == Sum(m) - Balance(m, k)
    ensures Balance(m, k) <= Sum(m)
  {
    if k in m {
      SumWithout(m, k);
    } else {
      assert m - {k} == m;
    }
  }

  /** Stakes of different accounts, each covered by a ledger, are covered together. */
  lemma {:induction false} TotalCovered(ds: seq<Delegation>, ledger: map<AccountId, nat>)
    requires DistinctDelegators(ds)
    requires forall i :: 0 <= i < |ds| ==> ds[i].stake <= Balance(ledger, ds[i].delegator)
    ensures Total(ds) <= Sum(ledger)
  {
    if ds == [] {
    } else {
      var init, last := ds[..|ds| - 1], ds[|ds| - 1];
      SumRemove(ledger, last.delegator);
      forall i | 0 <= i < |init|
        ensures init[i].stake <= Balance(ledger - {last.delegator}, init[i].delegator)
      {
        assert init[i] == ds[i];
      }
      TotalCovered(init, ledger - {last.delegator});
    }
  }
}
