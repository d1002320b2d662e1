/** What every step keeps. */
module Invariants {
  import opened Types
  import opened Registry
  import opened Stakes
  import opened Dispatch
  import opened Runs

  ghost predicate Distinct(ids: seq<AccountId>) {
    forall i, j :: 0 <= i < j < |ids| ==> ids[i] != ids[j]
  }

  ghost predicate Within(ids: seq<AccountId>, others: seq<AccountId>) {
    forall a :: a in ids ==> a in others
  }

  ghost predicate ListOk(cfg: Config, candidate: AccountId, ds: seq<Delegation>) {
    && 0 < |ds| <= cfg.maxDelegations
    && DistinctDelegators(ds)
    && forall i :: 0 <= i < |ds| ==> ds[i].delegator != candidate
  }

  ghost predicate DelegationsOk(cfg: Config, delegations: map<AccountId, seq<Delegation>>) {
    forall c :: c in delegations ==> ListOk(cfg, c, delegations[c])
  }

  predicate Placed(s: State, who: AccountId) {
    who in s.waiting || who in s.invulnerables || who in s.validators
  }

  function Rank(status: Status): nat {
    match status
    case Offline => 0
    case Online => 1
    case Waiting => 2
    case Queuing => 3
    case Authoring => 4
  }

  /** The status ladder: how far up a candidate stands for each seat it holds. */
  predicate OnLadder(s: State, c: Candidate) {
    && (c.who in s.waiting ==> Rank(c.status) >= Rank(Waiting))
    && (c.who in s.validators ==> Rank(c.status) >= Rank(Queuing))
    && (c.who in s.invulnerables ==> c.status == Authoring)
  }

  predicate CandidateOk(cfg: Config, s: State, c: Candidate) {
    && c.status != Offline
    && (c.bond == 0 || c.bond >= cfg.minBond)
    && c.lastAuthored <= s.now
    && c.lastUpdated <= s.now
    && (c.who in s.actualAuthors ==> s.startedAt <= c.lastAuthored)
    && c.totalStake <= Fold(DelegationsOf(s, c.who))
    && (c.who in s.desired ==> !c.leaving)
    && (c.who !in s.desired && Placed(s, c.who) ==> !c.leaving && c.bond != 0 && OnLadder(s, c))
  }

  /** One account's share of the invariant: a non-desired account holding a seat is registered. */
  predicate AccountOk(cfg: Config, s: State, who: AccountId) {
    match Look(s.proposed, who)
    case None => who in s.desired || !Placed(s, who)
    case Some(c) => CandidateOk(cfg, s, c)
  }

  ghost predicate SeatsOk(cfg: Config, s: State) {
    && s.desired <= s.waiting
    && s.desired <= s.invulnerables
    && |s.waiting| <= cfg.maxCandidates
    && |s.invulnerables| <= cfg.maxCandidates
    && |s.validators| <= cfg.maxCandidates
    && |s.queued| <= cfg.maxCandidates
    && Within(s.queued, s.invulnerables)
    && s.startedAt <= s.now
    && (Distinct(s.desired) ==>
          Distinct(s.waiting) && Distinct(s.invulnerables) && Distinct(s.validators) && Distinct(s.queued))
  }

  ghost predicate AuthorsOk(cfg: Config, s: State) {
    && Distinct(s.actualAuthors)
    && Within(s.actualAuthors, s.validators)
    && |s.actualAuthors| <= cfg.maxCandidates
  }

  ghost predicate Inv(cfg: Config, s: State) {
    && Unique(s.proposed)
    && |s.proposed| <= cfg.maxCandidates
    && OnlineRanked(s.proposed)
    && SeatsOk(cfg, s)
    && AuthorsOk(cfg, s)
    && DelegationsOk(cfg, s.delegations)
    && forall a :: AccountOk(cfg, s, a)
  }

  // ---------- calls ----------

  ghost predicate SameDelegationsBut(s: State, t: State, who: AccountId) {
    forall a {:trigger DelegationsOf(t, a)} :: a != who ==> DelegationsOf(t, a) == DelegationsOf(s, a)
  }

  /** Rewriting one candidate, with or without a sort afterwards. */
  lemma PutKeeps(cfg: Config, s: State, t: State, c: Candidate, sort: bool)
    requires Inv(cfg, s) && Has(s.proposed, c.who)
    requires var cs := s.proposed[Find(s.proposed, c.who) := c]; t.proposed == if sort then Sort(cs) else cs
    requires SameSeats(s, t)
    requires DelegationsOk(cfg, t.delegations) && SameDelegationsBut(s, t, c.who)
    requires CandidateOk(cfg, t, c)
    requires sort || c.offline
             || var before := Look(s.proposed, c.who).value; !before.offline && Key(before) == Key(c)
    ensures Inv(cfg, t)
  {
    var cs := s.proposed[Find(s.proposed, c.who) := c];
    assert Unique(cs);
    if sort {
      SortUnique(cs);
      SortRanks(cs);
    }
    forall a
      ensures AccountOk(cfg, t, a)
    {
      assert AccountOk(cfg, s, a);
      LookUpdate(s.proposed, c, a);
      SortLook(cs, a);
    }
  }

  lemma RegisterKeeps(cfg: Config, s: State, who: AccountId)
    requires Inv(cfg, s) && Register(cfg, s, who).Ok?
    ensures Inv(cfg, Register(cfg, s, who).state)
  {
    var t, c := Register(cfg, s, who).state, NewCandidate(who, s.now);
    forall a
      ensures AccountOk(cfg, t, a)
    {
      assert AccountOk(cfg, s, a);
      LookAppend(s.proposed, c, a);
    }
  }

  lemma BondKeeps(cfg: Config, s: State, who: AccountId, newBond: nat, reserveOk: bool)
    requires Inv(cfg, s) && Bond(cfg, s, who, newBond, reserveOk).Ok?
    ensures Inv(cfg, Bond(cfg, s, who, newBond, reserveOk).state)
  {
    hide Find, Sort, Unique, OnlineRanked, AuthorsOk, SeatsOk;
    assert AccountOk(cfg, s, who);
    var c := Look(s.proposed, who).value;
    var t := Bond(cfg, s, who, newBond, reserveOk).state;
    PutKeeps(cfg, s, t, c.(bond := newBond, lastUpdated := s.now), true);
  }

  lemma CommissionKeeps(cfg: Config, s: State, who: AccountId, commission: nat)
    requires Inv(cfg, s) && SetCommission(s, who, commission).Ok?
    ensures Inv(cfg, SetCommission(s, who, commission).state)
  {
    hide Find, Sort, Unique, OnlineRanked, AuthorsOk, SeatsOk;
    assert AccountOk(cfg, s, who);
    var c := Look(s.proposed, who).value;
    var t := SetCommission(s, who, commission).state;
    PutKeeps(cfg, s, t, c.(commission := commission, lastUpdated := s.now), false);
  }

  lemma OfflineKeeps(cfg: Config, s: State, who: AccountId, offline: bool)
    requires Inv(cfg, s) && SetOffline(s, who, offline).Ok?
    ensures Inv(cfg, SetOffline(s, who, offline).state)
  {
    hide Find, Sort, Unique, OnlineRanked, AuthorsOk, SeatsOk;
    assert AccountOk(cfg, s, who);
    var c := Look(s.proposed, who).value;
    PutKeeps(cfg, s, SetOffline(s, who, offline).state, c.(offline := offline, lastUpdated := s.now), true);
  }

  /** The removal in `leave_candidate` finds nothing under its guard. */
  lemma LeaveSeats(s: State, who: AccountId)
    requires Leave(s, who).Ok?
    ensures SameSeats(s, Leave(s, who).state)
  {
    WithoutNothing(s.waiting, {who});
  }

  lemma LeaveKeeps(cfg: Config, s: State, who: AccountId)
    requires Inv(cfg, s) && Leave(s, who).Ok?
    ensures Inv(cfg, Leave(s, who).state)
    ensures Leave(s, who).state.waiting == s.waiting
  {
    hide Find, Sort, Unique, OnlineRanked, AuthorsOk, DelegationsOk, Without;
    assert AccountOk(cfg, s, who);
    var c := Look(s.proposed, who).value;
    LeaveSeats(s, who);
    assert SeatsOk(cfg, s);
    hide SeatsOk;
    PutKeeps(cfg, s, Leave(s, who).state, c.(leaving := true, lastUpdated := s.now), false);
  }

  lemma CorrectKeeps(cfg: Config, s: State, who: AccountId, amount: nat)
    requires Inv(cfg, s) && Correct(s, who, amount).Ok?
    ensures Inv(cfg, Correct(s, who, amount).state)
  {
    hide Find, Sort, Unique, OnlineRanked, AuthorsOk, SeatsOk;
    assert AccountOk(cfg, s, who);
    var c := Look(s.proposed, who).value;
    PutKeeps(cfg, s, Correct(s, who, amount).state, c.(bond := 0, lastUpdated := s.now), false);
  }

  lemma AddedOk(cfg: Config, candidate: AccountId, ds: seq<Delegation>, who: AccountId, amount: nat)
    requires ds == [] || ListOk(cfg, candidate, ds)
    requires who != candidate
    requires FindDelegator(ds, who) < |ds| || |ds| < cfg.maxDelegations
    ensures ListOk(cfg, candidate, Added(ds, who, amount))
  {
    AddedStakes(ds, who, amount, who);
  }

  lemma RemovedOk(cfg: Config, candidate: AccountId, ds: seq<Delegation>, who: AccountId)
    requires ListOk(cfg, candidate, ds) && FindDelegator(ds, who) < |ds|
    requires Removed(ds, who) != []
    ensures ListOk(cfg, candidate, Removed(ds, who))
  {
    RemovedDistinct(ds, who);
    var r := Removed(ds, who);
    assert forall i :: 0 <= i < |r| ==> r[i] in r && r[i] in ds;
  }

  lemma StakeKeeps(cfg: Config, s: State, who: AccountId, candidate: AccountId, amount: nat, reserveOk: bool)
    requires Inv(cfg, s) && Stake(cfg, s, who, candidate, amount, reserveOk).Ok?
    ensures Inv(cfg, Stake(cfg, s, who, candidate, amount, reserveOk).state)
  {
    hide Find, Sort, Unique, OnlineRanked, AuthorsOk, SeatsOk;
    assert AccountOk(cfg, s, candidate);
    var c := Look(s.proposed, candidate).value;
    var t := Stake(cfg, s, who, candidate, amount, reserveOk).state;
    AddedOk(cfg, candidate, DelegationsOf(s, candidate), who, amount);
    PutKeeps(cfg, s, t, c.(totalStake := Fold(DelegationsOf(t, candidate)), lastUpdated := s.now), true);
  }

  lemma UnstakeDelegations(cfg: Config, s: State, who: AccountId, candidate: AccountId)
    requires DelegationsOk(cfg, s.delegations) && Unstake(s, who, candidate).Ok?
    ensures DelegationsOk(cfg, Unstake(s, who, candidate).state.delegations)
    ensures SameDelegationsBut(s, Unstake(s, who, candidate).state, candidate)
    ensures SameSeats(s, Unstake(s, who, candidate).state)
  {
    var ds := DelegationsOf(s, candidate);
    assert ListOk(cfg, candidate, ds);
    if Removed(ds, who) != [] {
      RemovedOk(cfg, candidate, ds, who);
    }
    hide Removed, FindDelegator, ListOk, Look, Sort, Fold, Find, Released;
  }

  lemma UnstakeKeeps(cfg: Config, s: State, who: AccountId, candidate: AccountId)
    requires Inv(cfg, s) && Unstake(s, who, candidate).Ok?
    ensures Inv(cfg, Unstake(s, who, candidate).state)
  {
    hide Find, Sort, Unique, OnlineRanked, AuthorsOk, SeatsOk, Removed, FindDelegator, ListOk;
    assert AccountOk(cfg, s, candidate);
    var c := Look(s.proposed, candidate).value;
    var t := Unstake(s, who, candidate).state;
    UnstakeDelegations(cfg, s, who, candidate);
    hide SameDelegationsBut, DelegationsOk;
    PutKeeps(cfg, s, t, c.(totalStake := Fold(DelegationsOf(t, candidate)), lastUpdated := s.now), true);
  }

  // ---------- blocks ----------

  /** Distinct members of a list are no more than the list is long. */
  lemma {:induction false} Pigeonhole(ids: seq<AccountId>, others: seq<AccountId>)
    requires Distinct(ids) && Within(ids, others)
    ensures |ids| <= |others|
  {
    if ids == [] {
    } else {
      var a := ids[0];
      assert a in ids;
      var k :| 0 <= k < |others| && others[k] == a;
      var rest := others[..k] + others[k + 1..];
      forall b | b in ids[1..]
        ensures b in rest
      {
        assert b in others && b != a;
        var j :| 0 <= j < |others| && others[j] == b;
        assert rest[if j < k then j else j - 1] == b;
      }
      Pigeonhole(ids[1..], rest);
    }
  }

  /** There is always room for an author who acts in the current session. */
  lemma RoomForAuthor(cfg: Config, s: State, author: AccountId)
    requires Inv(cfg, s) && author in s.validators && author !in s.actualAuthors
    ensures |s.actualAuthors| < cfg.maxCandidates
  {
    Pigeonhole(s.actualAuthors + [author], s.validators);
  }

  lemma BlockLook(cfg: Config, s: State, author: Option<AccountId>, who: AccountId)
    ensures Look(NewBlock(cfg, s, author).proposed, who)
         == var c := Look(s.proposed, who);
            if c.Some? && author == Some(who) then Some(c.value.(lastAuthored := s.now + 1)) else c
  {
    if author.Some? && Has(s.proposed, author.value) {
      var a := Look(s.proposed, author.value).value;
      LookUpdate(s.proposed, a.(lastAuthored := s.now + 1), who);
    }
  }

  lemma ReplaceKeeps(cs: seq<Candidate>, i: nat, c: Candidate)
    requires Unique(cs) && OnlineRanked(cs) && i < |cs|
    requires c.who == cs[i].who && c.offline == cs[i].offline && Key(c) == Key(cs[i])
    ensures Unique(cs[i := c]) && OnlineRanked(cs[i := c])
  {
  }

  lemma BlockList(cfg: Config, s: State, author: Option<AccountId>)
    requires Unique(s.proposed) && OnlineRanked(s.proposed)
    ensures var cs := NewBlock(cfg, s, author).proposed;
            Unique(cs) && OnlineRanked(cs) && |cs| == |s.proposed|
  {
    if author.Some? && Has(s.proposed, author.value) {
      var i := Find(s.proposed, author.value);
      var c := s.proposed[i].(lastAuthored := s.now + 1);
      ReplaceKeeps(s.proposed, i, c);
      assert NewBlock(cfg, s, author).proposed == s.proposed[i := c];
    } else {
      assert NewBlock(cfg, s, author).proposed == s.proposed;
    }
  }

  lemma BlockAuthors(cfg: Config, s: State, author: Option<AccountId>)
    requires Inv(cfg, s) && Enabled(s, BlockStep(author))
    ensures AuthorsOk(cfg, NewBlock(cfg, s, author))
    ensures forall a :: a in NewBlock(cfg, s, author).actualAuthors <==> a in s.actualAuthors || author == Some(a)
  {
    if author.Some? && author.value !in s.actualAuthors {
      RoomForAuthor(cfg, s, author.value);
    }
  }

  lemma BlockSeats(cfg: Config, s: State, author: Option<AccountId>)
    ensures var t := NewBlock(cfg, s, author);
      && t == s.(proposed := t.proposed, actualAuthors := t.actualAuthors, now := s.now + 1)
  {
  }

  lemma BlockAccount(cfg: Config, s: State, author: Option<AccountId>, a: AccountId)
    requires Inv(cfg, s) && Enabled(s, BlockStep(author))
    ensures AccountOk(cfg, NewBlock(cfg, s, author), a)
  {
    assert AccountOk(cfg, s, a);
    BlockLook(cfg, s, author, a);
    BlockAuthors(cfg, s, author);
    BlockSeats(cfg, s, author);
    assert s.desired <= s.waiting && s.startedAt <= s.now;
    hide NewBlock, Inv, Fold;
  }

  lemma BlockKeeps(cfg: Config, s: State, author: Option<AccountId>)
    requires Inv(cfg, s) && Enabled(s, BlockStep(author))
    ensures Inv(cfg, NewBlock(cfg, s, author))
  {
    var t := NewBlock(cfg, s, author);
    BlockList(cfg, s, author);
    BlockAuthors(cfg, s, author);
    BlockSeats(cfg, s, author);
    hide NewBlock, AccountOk, Unique, OnlineRanked, Distinct;
    forall a
      ensures AccountOk(cfg, t, a)
    {
      BlockAccount(cfg, s, author, a);
    }
  }
}
