/** The `ProposedCandidates` list: lookup by account, uniqueness, ranking order, stable sort. */
module Registry {
  import opened Types

  // ---------- lookup ----------

  function FindFrom(cs: seq<Candidate>, who: AccountId, start: nat): (i: nat)
    requires start <= |cs|
    ensures start <= i <= |cs|
    ensures i < |cs| ==> cs[i].who == who
    ensures forall j :: start <= j < i ==> cs[j].who != who
    decreases |cs| - start
  {
    if start == |cs| || cs[start].who == who then start else FindFrom(cs, who, start + 1)
  }

  /** Index of the first candidate of `who`, or the length of the list. */
  function Find(cs: seq<Candidate>, who: AccountId): (i: nat)
    ensures i <= |cs|
    ensures i < |cs| ==> cs[i].who == who
    ensures forall j :: 0 <= j < i ==> cs[j].who != who
  {
    FindFrom(cs, who, 0)
  }

  function Look(cs: seq<Candidate>, who: AccountId): Option<Candidate> {
    var i := Find(cs, who);
    if i < |cs| then Some(cs[i]) else None
  }

  predicate Has(cs: seq<Candidate>, who: AccountId) {
    Find(cs, who) < |cs|
  }

  ghost predicate Unique(cs: seq<Candidate>) {
    forall i, j :: 0 <= i < j < |cs| ==> cs[i].who != cs[j].who
  }

  lemma FindSame(cs: seq<Candidate>, ds: seq<Candidate>, who: AccountId)
    requires |cs| == |ds|
    requires forall i :: 0 <= i < |cs| ==> ds[i].who == cs[i].who
    ensures Find(ds, who) == Find(cs, who)
  {
    var i, j := Find(cs, who), Find(ds, who);
    assert i < |cs| ==> ds[i].who == cs[i].who;
    assert j < |ds| ==> ds[j].who == cs[j].who;
  }

  lemma LookAt(cs: seq<Candidate>, i: nat)
    requires Unique(cs) && i < |cs|
    ensures Find(cs, cs[i].who) == i
    ensures Look(cs, cs[i].who) == Some(cs[i])
  {
  }

  /** With unique accounts, lookup is membership. */
  lemma LookIn(cs: seq<Candidate>, c: Candidate)
    requires Unique(cs)
    ensures c in cs <==> Look(cs, c.who) == Some(c)
  {
    if c in cs {
      var i :| 0 <= i < |cs| && cs[i] == c;
      LookAt(cs, i);
    }
  }

  lemma LookUpdate(cs: seq<Candidate>, c: Candidate, who: AccountId)
    requires Has(cs, c.who)
    ensures Look(cs[Find(cs, c.who) := c], who) == if who == c.who then Some(c) else Look(cs, who)
  {
    FindSame(cs, cs[Find(cs, c.who) := c], who);
  }

  lemma LookAppend(cs: seq<Candidate>, c: Candidate, who: AccountId)
    ensures Look(cs + [c], who)
         == if Has(cs, who) then Look(cs, who) else if who == c.who then Some(c) else None
  {
    var i, j := Find(cs, who), Find(cs + [c], who);
    assert forall k :: 0 <= k < |cs| ==> (cs + [c])[k] == cs[k];
    assert (cs + [c])[|cs|] == c;
    assert j < |cs| ==> cs[j].who == who;
    assert i < |cs| ==> (cs + [c])[i].who == who;
  }

  lemma FindPrefix(cs: seq<Candidate>, c: Candidate, who: AccountId)
    requires Has(cs, who)
    ensures Find(cs + [c], who) == Find(cs, who)
  {
    var i, j := Find(cs, who), Find(cs + [c], who);
    assert (cs + [c])[i] == cs[i];
    assert j < |cs| ==> (cs + [c])[j] == cs[j];
  }

  // ---------- ranking ----------

  function Key(c: Candidate): nat {
    SaturatingAdd(c.bond, c.totalStake)
  }

  /** The comparator of `sort_proposed_candidates`: online first, then the larger key, then the
      candidate updated longest ago. */
  predicate Leq(a: Candidate, b: Candidate) {
    if a.offline != b.offline then b.offline
    else if Key(a) != Key(b) then Key(a) > Key(b)
    else a.lastUpdated <= b.lastUpdated
  }

  predicate Tied(a: Candidate, b: Candidate) {
    Leq(a, b) && Leq(b, a)
  }

  ghost predicate Sorted(cs: seq<Candidate>) {
    forall i, j :: 0 <= i < j < |cs| ==> Leq(cs[i], cs[j])
  }

  /** What survives between sorts: the online candidates stand in ranking order. */
  ghost predicate OnlineRanked(cs: seq<Candidate>) {
    forall i, j :: 0 <= i < j < |cs| && !cs[i].offline && !cs[j].offline ==> Key(cs[i]) >= Key(cs[j])
  }

  // ---------- stable sort ----------

  function Insert(cs: seq<Candidate>, c: Candidate): seq<Candidate> {
    if cs == [] || Leq(cs[|cs| - 1], c) then cs + [c]
    else Insert(cs[..|cs| - 1], c) + [cs[|cs| - 1]]
  }

  function Sort(cs: seq<Candidate>): seq<Candidate> {
    if cs == [] then [] else Insert(Sort(cs[..|cs| - 1]), cs[|cs| - 1])
  }

  /** The candidates tied with `c`, in list order. */
  function Ties(cs: seq<Candidate>, c: Candidate): seq<Candidate> {
    if cs == [] then []
    else
      var last := cs[|cs| - 1];
      Ties(cs[..|cs| - 1], c) + (if Tied(last, c) then [last] else [])
  }

  lemma {:induction false} InsertSorted(cs: seq<Candidate>, c: Candidate)
    requires Sorted(cs)
    ensures Sorted(Insert(cs, c))
    ensures multiset(Insert(cs, c)) == multiset(cs) + multiset{c}
  {
    if cs == [] || Leq(cs[|cs| - 1], c) {
    } else {
      var init, last := cs[..|cs| - 1], cs[|cs| - 1];
      assert cs == init + [last];
      InsertSorted(init, c);
      var r := Insert(init, c);
      forall x | x in r
        ensures Leq(x, last)
      {
        assert x in multiset(r);
        assert x in init || x == c;
      }
      hide Insert;
    }
  }

  lemma {:induction false} SortSorts(cs: seq<Candidate>)
    ensures Sorted(Sort(cs))
    ensures multiset(Sort(cs)) == multiset(cs)
    ensures |Sort(cs)| == |cs|
  {
    if cs == [] {
    } else {
      SortSorts(cs[..|cs| - 1]);
      InsertSorted(Sort(cs[..|cs| - 1]), cs[|cs| - 1]);
      assert cs == cs[..|cs| - 1] + [cs[|cs| - 1]];
    }
    assert |multiset(Sort(cs))| == |Sort(cs)|;
  }

  lemma {:induction false} InsertStable(cs: seq<Candidate>, c: Candidate, e: Candidate)
    requires Sorted(cs)
    ensures Ties(Insert(cs, c), e) == Ties(cs + [c], e)
  {
    if cs == [] || Leq(cs[|cs| - 1], c) {
    } else {
      var init, last := cs[..|cs| - 1], cs[|cs| - 1];
      InsertStable(init, c, e);
      var r := Insert(cs, c);
      assert r[..|r| - 1] == Insert(init, c);
      assert (cs + [c])[..|cs|] == cs;
      assert (init + [c])[..|init|] == init;
    }
  }

  /** `sort_by` is stable: tied candidates keep their relative order. */
  lemma {:induction false} SortStable(cs: seq<Candidate>, e: Candidate)
    ensures Ties(Sort(cs), e) == Ties(cs, e)
  {
    if cs == [] {
    } else {
      var init, last := cs[..|cs| - 1], cs[|cs| - 1];
      SortStable(init, e);
      SortSorts(init);
      InsertStable(Sort(init), last, e);
      assert (Sort(init) + [last])[..|Sort(init)|] == Sort(init);
    }
  }

  lemma {:induction false} TiesMember(cs: seq<Candidate>, c: Candidate)
    requires c in cs
    ensures c in Ties(cs, c)
  {
    if cs[|cs| - 1] != c {
      assert c in cs[..|cs| - 1];
      TiesMember(cs[..|cs| - 1], c);
    }
  }

  lemma {:induction false} TiesSource(cs: seq<Candidate>, e: Candidate, c: Candidate)
    requires c in Ties(cs, e)
    ensures c in cs
  {
    if c !in Ties(cs[..|cs| - 1], e) {
      assert c == cs[|cs| - 1];
    } else {
      TiesSource(cs[..|cs| - 1], e, c);
    }
  }

  lemma TiesExist(cs: seq<Candidate>)
    ensures cs == [] || exists e :: Ties(cs, e) != []
  {
    if cs == [] {
    } else {
      TiesMember(cs, cs[0]);
    }
  }

  lemma SortedLast(cs: seq<Candidate>, c: Candidate)
    requires Sorted(cs) && c in cs
    ensures Leq(c, cs[|cs| - 1])
  {
  }

  lemma TiesLast(cs: seq<Candidate>, e: Candidate)
    requires cs != []
    ensures Ties(cs, e)
         == if Tied(cs[|cs| - 1], e) then Ties(cs[..|cs| - 1], e) + [cs[|cs| - 1]] else Ties(cs[..|cs| - 1], e)
  {
  }

  /** The last candidate of a list in order stands last in every list with the same ties. */
  lemma LastAfter(cs: seq<Candidate>, ds: seq<Candidate>)
    requires Sorted(ds) && cs != [] && Ties(cs, cs[|cs| - 1]) == Ties(ds, cs[|cs| - 1])
    ensures ds != [] && Leq(cs[|cs| - 1], ds[|ds| - 1])
  {
    var c := cs[|cs| - 1];
    TiesMember(cs, c);
    TiesSource(ds, c, c);
    SortedLast(ds, c);
  }

  lemma SameLast(cs: seq<Candidate>, ds: seq<Candidate>)
    requires Sorted(cs) && Sorted(ds) && cs != [] && ds != []
    requires Ties(cs, cs[|cs| - 1]) == Ties(ds, cs[|cs| - 1])
    requires Ties(cs, ds[|ds| - 1]) == Ties(ds, ds[|ds| - 1])
    ensures cs[|cs| - 1] == ds[|ds| - 1]
  {
    hide Ties;
    var c, d := cs[|cs| - 1], ds[|ds| - 1];
    assert Tied(c, c);
    assert Tied(d, c) by {
      LastAfter(cs, ds);
      LastAfter(ds, cs);
    }
    hide Sorted, Leq, Tied;
    TiesLast(cs, c);
    TiesLast(ds, c);
    var ties := Ties(cs, c);
    assert ties[|ties| - 1] == c;
    assert ties[|ties| - 1] == d;
  }

  /** A list in order is determined by its runs of tied candidates. */
  lemma {:induction false} SortedDetermined(cs: seq<Candidate>, ds: seq<Candidate>)
    requires Sorted(cs) && Sorted(ds)
    requires forall e :: Ties(cs, e) == Ties(ds, e)
    ensures cs == ds
    decreases |cs|
  {
    if cs == [] {
      TiesExist(ds);
    } else {
      LastAfter(cs, ds);
      SameLast(cs, ds);
      hide Ties;
      var cs', ds' := cs[..|cs| - 1], ds[..|ds| - 1];
      forall e
        ensures Ties(cs', e) == Ties(ds', e)
      {
        TiesLast(cs, e);
        TiesLast(ds, e);
        var c, ties := cs[|cs| - 1], Ties(cs, e);
        assert ties == Ties(ds, e);
        assert Tied(c, e) ==> Ties(cs', e) == ties[..|ties| - 1] == Ties(ds', e);
      }
      SortedDetermined(cs', ds');
    }
  }

  /** Every stable sort by this comparator, whatever its algorithm, returns `Sort(cs)`. */
  lemma StableSortUnique(cs: seq<Candidate>, ds: seq<Candidate>)
    requires Sorted(ds)
    requires forall e :: Ties(ds, e) == Ties(cs, e)
    ensures ds == Sort(cs)
  {
    SortSorts(cs);
    forall e
      ensures Ties(ds, e) == Ties(Sort(cs), e)
    {
      SortStable(cs, e);
    }
    SortedDetermined(ds, Sort(cs));
  }

  lemma AppendUnique(cs: seq<Candidate>, c: Candidate)
    requires Unique(cs) && forall d :: d in cs ==> d.who != c.who
    ensures Unique(cs + [c])
    ensures forall x :: x in cs + [c] <==> x in cs || x == c
  {
  }

  lemma {:induction false} InsertUnique(cs: seq<Candidate>, c: Candidate)
    requires Unique(cs) && !Has(cs, c.who)
    ensures Unique(Insert(cs, c))
    ensures forall x :: x in Insert(cs, c) <==> x in cs || x == c
  {
    if cs == [] || Leq(cs[|cs| - 1], c) {
    } else {
      var init, last := cs[..|cs| - 1], cs[|cs| - 1];
      assert forall i :: 0 <= i < |init| ==> init[i] == cs[i];
      assert cs == init + [last];
      InsertUnique(init, c);
      AppendUnique(Insert(init, c), last);
    }
  }

  lemma {:induction false} SortUnique(cs: seq<Candidate>)
    requires Unique(cs)
    ensures Unique(Sort(cs))
    ensures forall x :: x in Sort(cs) <==> x in cs
  {
    if cs == [] {
    } else {
      var init, last := cs[..|cs| - 1], cs[|cs| - 1];
      assert cs == init + [last];
      SortUnique(init);
      var r := Sort(init);
      assert forall i :: 0 <= i < |r| ==> r[i] in r && r[i] in init;
      InsertUnique(Sort(init), last);
    }
  }

  /** Sorting moves candidates around but changes none of them. */
  lemma SortLook(cs: seq<Candidate>, who: AccountId)
    requires Unique(cs)
    ensures Look(Sort(cs), who) == Look(cs, who)
  {
    SortUnique(cs);
    if Has(cs, who) {
      var c := Look(cs, who).value;
      assert c in cs;
      LookIn(Sort(cs), c);
    } else {
      assert forall c :: c in Sort(cs) ==> c in cs && c.who != who;
    }
  }

  lemma SortRanks(cs: seq<Candidate>)
    ensures OnlineRanked(Sort(cs)) && |Sort(cs)| == |cs|
  {
    SortSorts(cs);
  }
  /** The order of the sorted list, from the fields: online candidates first; then the larger sum of
      bond and stake, capped at the largest balance; then whoever was updated longest ago. */
  lemma SortRanking(cs: seq<Candidate>, i: nat, j: nat)
    requires i < j < |cs|
    ensures |Sort(cs)| == |cs|
    ensures var a, b := Sort(cs)[i], Sort(cs)[j];
            var x, y := Min(a.bond + a.totalStake, MAX_BALANCE), Min(b.bond + b.totalStake, MAX_BALANCE);
      && (a.offline ==> b.offline)
      && (a.offline == b.offline ==> x >= y)
      && (a.offline == b.offline && x == y ==> a.lastUpdated <= b.lastUpdated)
  {
    SortSorts(cs);
    assert Leq(Sort(cs)[i], Sort(cs)[j]);
  }
}
