/** The session boundary, seen one account at a time, and the invariant across it. */
module Boundary {
  import opened Types
  import opened Registry
  import opened Stakes
  import opened Dispatch
  import opened Sessions
  import opened Invariants

  // ---------- list-wide facts ----------

  ghost predicate SameRanking(cs: seq<Candidate>, ds: seq<Candidate>) {
    && |cs| == |ds|
    && forall i :: 0 <= i < |cs| ==>
         ds[i].who == cs[i].who && ds[i].offline == cs[i].offline && Key(ds[i]) == Key(cs[i])
  }

  lemma SameRankingKeeps(cs: seq<Candidate>, ds: seq<Candidate>)
    requires Unique(cs) && OnlineRanked(cs) && SameRanking(cs, ds)
    ensures Unique(ds) && OnlineRanked(ds)
  {
  }

  lemma SameAccountsUnique(cs: seq<Candidate>, ds: seq<Candidate>)
    requires Unique(cs) && |cs| == |ds|
    requires forall i :: 0 <= i < |cs| ==> ds[i].who == cs[i].who
    ensures Unique(ds)
  {
  }

  lemma {:induction false} PrepareSource(cs: seq<Candidate>, d: Candidate)
    requires d in PreparePass(cs)
    ensures exists c :: c in cs && Downgrade(c) == Some(d)
  {
    var init, last := cs[..|cs| - 1], cs[|cs| - 1];
    if d in PreparePass(init) {
      PrepareSource(init, d);
      var c :| c in init && Downgrade(c) == Some(d);
      assert c in cs;
    } else {
      assert last in cs;
    }
  }

  lemma AppendKeepsOrder(cs: seq<Candidate>, c: Candidate)
    requires Unique(cs) && OnlineRanked(cs)
    requires forall d :: d in cs ==> d.who != c.who
    requires forall d :: d in cs && !d.offline && !c.offline ==> Key(d) >= Key(c)
    ensures Unique(cs + [c]) && OnlineRanked(cs + [c])
  {
  }

  lemma InitOrder(cs: seq<Candidate>)
    requires Unique(cs) && OnlineRanked(cs) && cs != []
    ensures Unique(cs[..|cs| - 1]) && OnlineRanked(cs[..|cs| - 1])
    ensures var last := cs[|cs| - 1];
            forall d :: d in cs[..|cs| - 1] ==>
              d.who != last.who && (!d.offline && !last.offline ==> Key(d) >= Key(last))
  {
  }

  lemma InitUnique(cs: seq<Candidate>)
    requires Unique(cs) && cs != []
    ensures Unique(cs[..|cs| - 1])
    ensures var last := cs[|cs| - 1]; forall d :: d in cs[..|cs| - 1] ==> d.who != last.who
  {
  }

  lemma {:induction false} PrepareUnique(cs: seq<Candidate>)
    requires Unique(cs)
    ensures Unique(PreparePass(cs)) && |PreparePass(cs)| <= |cs|
  {
    if cs == [] {
    } else {
      var init, last := cs[..|cs| - 1], cs[|cs| - 1];
      InitUnique(cs);
      PrepareUnique(init);
      forall d | d in PreparePass(init)
        ensures d.who != last.who
      {
        PrepareSource(init, d);
      }
      if Downgrade(last).Some? {
        AppendUnique(PreparePass(init), Downgrade(last).value);
      }
    }
  }

  /** The pass keeps the order of the candidates it keeps. */
  lemma {:induction false} PrepareKeepsOrder(cs: seq<Candidate>)
    requires Unique(cs) && OnlineRanked(cs)
    ensures Unique(PreparePass(cs)) && OnlineRanked(PreparePass(cs))
  {
    if cs == [] {
    } else {
      var init, last := cs[..|cs| - 1], cs[|cs| - 1];
      InitOrder(cs);
      PrepareKeepsOrder(init);
      var r := PreparePass(init);
      forall d | d in r
        ensures d.who != last.who
        ensures !d.offline && !last.offline ==> Key(d) >= Key(last)
      {
        PrepareSource(init, d);
      }
      if Downgrade(last).Some? {
        AppendKeepsOrder(r, Downgrade(last).value);
      }
    }
  }

  lemma {:induction false} PrepareLook(cs: seq<Candidate>, who: AccountId)
    requires Unique(cs)
    ensures Look(PreparePass(cs), who)
         == match Look(cs, who) case None => None case Some(c) => Downgrade(c)
  {
    if cs == [] {
    } else {
      var init, last := cs[..|cs| - 1], cs[|cs| - 1];
      PrepareLook(init, who);
      assert cs == init + [last];
      LookAppend(init, last, who);
      var d := Downgrade(last);
      if d.Some? {
        LookAppend(PreparePass(init), d.value, who);
      } else {
        assert PreparePass(cs) == PreparePass(init);
      }
    }
  }

  lemma SlashLook(cfg: Config, s: State, who: AccountId)
    requires Unique(s.proposed)
    ensures Look(SlashStale(cfg, s).proposed, who)
         == match Look(s.proposed, who) case None => None case Some(c) => Some(SlashOne(cfg, s, c))
  {
    var cs := Slashed(cfg, s, s.proposed);
    FindSame(s.proposed, cs, who);
    if exists c :: c in s.proposed && Stale(cfg, s, c) {
      SortLook(cs, who);
    } else if Has(s.proposed, who) {
      assert Look(s.proposed, who).value in s.proposed;
    }
  }

  lemma SlashUnique(cfg: Config, s: State)
    requires Unique(s.proposed)
    ensures Unique(SlashStale(cfg, s).proposed)
    ensures |SlashStale(cfg, s).proposed| == |s.proposed|
  {
    var cs := Slashed(cfg, s, s.proposed);
    assert Unique(cs);
    SortUnique(cs);
    SortRanks(cs);
  }

  lemma SlashKeepsOrder(cfg: Config, s: State)
    requires OnlineRanked(s.proposed)
    ensures OnlineRanked(SlashStale(cfg, s).proposed)
  {
    SortRanks(Slashed(cfg, s, s.proposed));
  }

  // ---------- one account at the boundary ----------

  /** What the boundary does to one candidate, given the accounts it puts on the waiting list
      and the ones it seats. */
  function RotateOne(cfg: Config, s: State, c: Candidate, chosen: seq<AccountId>, seated: seq<AccountId>)
    : Option<Candidate>
  {
    match Downgrade(SlashOne(cfg, s, PromoteOne(c, s.waiting)))
    case None => None
    case Some(d) => Some(CrownOne(WaitOne(d, chosen), seated))
  }

  function Picked(cfg: Config, s: State): seq<AccountId> {
    Chosen(cfg, Prepare(BeforePrepare(cfg, s)))
  }

  lemma BeforePrepareLook(cfg: Config, s: State, who: AccountId)
    requires Unique(s.proposed)
    ensures Unique(QueueAuthors(s).proposed)
    ensures Look(BeforePrepare(cfg, s).proposed, who)
         == match Look(s.proposed, who)
            case None => None
            case Some(c) => Some(SlashOne(cfg, s, PromoteOne(c, s.waiting)))
  {
    var t := QueueAuthors(s);
    FindSame(s.proposed, t.proposed, who);
    SlashLook(cfg, t, who);
  }

  lemma BeforePrepareUnique(cfg: Config, s: State)
    requires Unique(s.proposed)
    ensures var cs := BeforePrepare(cfg, s).proposed; Unique(cs) && |cs| == |s.proposed|
  {
    var t := QueueAuthors(s);
    SameAccountsUnique(s.proposed, t.proposed);
    SlashUnique(cfg, t);
  }

  lemma BeforePrepareKeepsOrder(cfg: Config, s: State)
    requires Unique(s.proposed) && OnlineRanked(s.proposed)
    ensures var cs := BeforePrepare(cfg, s).proposed; Unique(cs) && OnlineRanked(cs)
  {
    BeforePrepareUnique(cfg, s);
    var t := QueueAuthors(s);
    SameRankingKeeps(s.proposed, t.proposed);
    SlashKeepsOrder(cfg, t);
  }

  lemma EndSessionUnique(cfg: Config, s: State)
    requires Unique(s.proposed)
    ensures Unique(EndSession(cfg, s).proposed) && |EndSession(cfg, s).proposed| <= |s.proposed|
  {
    BeforePrepareUnique(cfg, s);
    PrepareUnique(BeforePrepare(cfg, s).proposed);
    SameAccountsUnique(Prepare(BeforePrepare(cfg, s)).proposed, EndSession(cfg, s).proposed);
  }

  lemma HandedSet(cfg: Config, s: State)
    ensures Handed(cfg, s) == if s.waiting == [] then s.invulnerables else s.waiting
  {
  }

  lemma RotateSeats(cfg: Config, s: State, keys: set<AccountId>)
    ensures var t := Rotate(cfg, s, keys);
      && t.invulnerables == Handed(cfg, s) == (if s.waiting == [] then s.invulnerables else s.waiting)
      && t.waiting == s.desired + Picked(cfg, s)
      && t.validators == s.queued
      && t.queued == Keyed(t.invulnerables, keys)
      && t.desired == s.desired && t.actualAuthors == [] && t.delegations == s.delegations
      && t.now == s.now == t.startedAt && t.free == s.free && t.reserved == s.reserved
  {
  }

  /** The boundary acts on each candidate by itself. */
  lemma RotateLook(cfg: Config, s: State, keys: set<AccountId>, who: AccountId)
    requires Unique(s.proposed)
    ensures Look(Rotate(cfg, s, keys).proposed, who)
         == match Look(s.proposed, who)
            case None => None
            case Some(c) => RotateOne(cfg, s, c, Picked(cfg, s), Handed(cfg, s))
  {
    BeforePrepareLook(cfg, s, who);
    BeforePrepareUnique(cfg, s);
    var p := Prepare(BeforePrepare(cfg, s));
    PrepareLook(BeforePrepare(cfg, s).proposed, who);
    var e := EndSession(cfg, s);
    FindSame(p.proposed, e.proposed, who);
    FindSame(e.proposed, NewSession(e).proposed, who);
  }

  lemma RotateOneRecord(cfg: Config, s: State, c: Candidate, chosen: seq<AccountId>, seated: seq<AccountId>)
    ensures match RotateOne(cfg, s, c, chosen, seated)
            case None => true
            case Some(d) => d == c.(status := d.status, offline := d.offline, lastUpdated := d.lastUpdated)
  {
  }

  /** A boundary changes nothing about the candidates it keeps but status and slashing. */
  lemma RotateRecord(cfg: Config, s: State, keys: set<AccountId>, who: AccountId)
    requires Unique(s.proposed)
    ensures Has(Rotate(cfg, s, keys).proposed, who) ==>
              && Has(s.proposed, who)
              && var c, d := Look(s.proposed, who).value, Look(Rotate(cfg, s, keys).proposed, who).value;
                 d == c.(status := d.status, offline := d.offline, lastUpdated := d.lastUpdated)
  {
    hide Rotate, RotateOne, Picked, Handed;
    RotateLook(cfg, s, keys, who);
    if Has(s.proposed, who) {
      RotateOneRecord(cfg, s, Look(s.proposed, who).value, Picked(cfg, s), Handed(cfg, s));
    }
  }

  lemma RotateKeepsOrder(cfg: Config, s: State, keys: set<AccountId>)
    requires Unique(s.proposed) && OnlineRanked(s.proposed)
    ensures var cs := Rotate(cfg, s, keys).proposed;
            Unique(cs) && OnlineRanked(cs) && |cs| <= |s.proposed|
  {
    BeforePrepareKeepsOrder(cfg, s);
    PrepareKeepsOrder(BeforePrepare(cfg, s).proposed);
    EndSessionUnique(cfg, s);
    var p := Prepare(BeforePrepare(cfg, s));
    var e := EndSession(cfg, s);
    SameRankingKeeps(p.proposed, e.proposed);
    SameRankingKeeps(e.proposed, NewSession(e).proposed);
  }

  // ---------- the new waiting list ----------

  lemma {:induction false} EligibleMembers(cs: seq<Candidate>, desired: seq<AccountId>, who: AccountId)
    requires Unique(cs)
    ensures who in EligibleIds(cs, desired)
       <==> who !in desired && Has(cs, who) && Eligible(Look(cs, who).value)
  {
    if cs == [] {
    } else {
      var init, last := cs[..|cs| - 1], cs[|cs| - 1];
      EligibleMembers(init, desired, who);
      assert cs == init + [last];
      LookAppend(init, last, who);
    }
  }

  lemma {:induction false} EligibleDistinct(cs: seq<Candidate>, desired: seq<AccountId>)
    requires Unique(cs)
    ensures Distinct(EligibleIds(cs, desired))
  {
    if cs == [] {
    } else {
      var init, last := cs[..|cs| - 1], cs[|cs| - 1];
      EligibleDistinct(init, desired);
      EligibleMembers(init, desired, last.who);
      assert !Has(init, last.who);
    }
  }

  lemma PickedFacts(cfg: Config, s: State)
    requires Unique(s.proposed) && |s.desired| <= cfg.maxCandidates
    ensures Distinct(Picked(cfg, s))
    ensures |s.desired| + |Picked(cfg, s)| <= cfg.maxCandidates
    ensures forall a :: a in Picked(cfg, s) ==> a !in s.desired
  {
    var p := Prepare(BeforePrepare(cfg, s));
    BeforePrepareUnique(cfg, s);
    PrepareUnique(BeforePrepare(cfg, s).proposed);
    EligibleDistinct(p.proposed, s.desired);
    forall a | a in Picked(cfg, s)
      ensures a !in s.desired
    {
      EligibleMembers(p.proposed, s.desired, a);
    }
  }

  /** Only candidates that come through the prepare pass qualified are put on the waiting list. */
  lemma PickedQualified(cfg: Config, s: State, who: AccountId)
    requires Unique(s.proposed) && who in Picked(cfg, s)
    ensures who !in s.desired && Has(s.proposed, who)
    ensures var c := Look(s.proposed, who).value;
            !Disqualified(SlashOne(cfg, s, PromoteOne(c, s.waiting)))
  {
    var b := BeforePrepare(cfg, s);
    var p := Prepare(b);
    BeforePrepareUnique(cfg, s);
    PrepareUnique(b.proposed);
    EligibleMembers(p.proposed, s.desired, who);
    PrepareLook(b.proposed, who);
    BeforePrepareLook(cfg, s, who);
    hide BeforePrepare, PreparePass, EligibleIds, Find, SlashOne, PromoteOne;
  }

  // ---------- the invariant ----------

  ghost predicate RotatedSeats(s: State, t: State, chosen: seq<AccountId>) {
    && t.invulnerables == (if s.waiting == [] then s.invulnerables else s.waiting)
    && t.waiting == s.desired + chosen
    && t.validators == s.queued
    && t.desired == s.desired && t.actualAuthors == [] && t.delegations == s.delegations
    && t.now == s.now == t.startedAt
  }

  /** The ladder goes on: whoever moves into a seat was one step below it. */
  lemma CandidateRotates(cfg: Config, s: State, t: State, chosen: seq<AccountId>, c: Candidate)
    requires CandidateOk(cfg, s, c) && RotatedSeats(s, t, chosen)
    requires c.who in s.queued ==> c.who in s.invulnerables
    requires c.who in chosen ==> !Disqualified(SlashOne(cfg, s, PromoteOne(c, s.waiting)))
    ensures match RotateOne(cfg, s, c, chosen, t.invulnerables)
            case None => c.who in t.desired || !Placed(t, c.who)
            case Some(d) => CandidateOk(cfg, t, d)
  {
    hide Fold, Within;
    var who, d := c.who, SlashOne(cfg, s, PromoteOne(c, s.waiting));
    assert who in t.waiting <==> who in s.desired || who in chosen;
    assert DelegationsOf(t, who) == DelegationsOf(s, who);
    if who in s.desired {
    } else if who in t.invulnerables {
      assert Rank(d.status) >= Rank(Queuing);
    } else if who in t.validators {
      assert d.status == Authoring;
    } else {
    }
  }

  lemma AccountRotates(cfg: Config, s: State, t: State, chosen: seq<AccountId>, who: AccountId)
    requires AccountOk(cfg, s, who) && RotatedSeats(s, t, chosen)
    requires who in s.queued ==> who in s.invulnerables
    requires Look(t.proposed, who)
          == match Look(s.proposed, who)
             case None => None
             case Some(c) => RotateOne(cfg, s, c, chosen, t.invulnerables)
    requires who in chosen ==>
               match Look(s.proposed, who)
               case None => false
               case Some(c) => !Disqualified(SlashOne(cfg, s, PromoteOne(c, s.waiting)))
    ensures AccountOk(cfg, t, who)
  {
    if Has(s.proposed, who) {
      CandidateRotates(cfg, s, t, chosen, Look(s.proposed, who).value);
    }
  }

  lemma RotateAccount(cfg: Config, s: State, keys: set<AccountId>, who: AccountId)
    requires Inv(cfg, s)
    ensures AccountOk(cfg, Rotate(cfg, s, keys), who)
  {
    var t, chosen := Rotate(cfg, s, keys), Picked(cfg, s);
    assert AccountOk(cfg, s, who);
    RotateLook(cfg, s, keys, who);
    RotateSeats(cfg, s, keys);
    if who in chosen {
      PickedQualified(cfg, s, who);
    }
    AccountRotates(cfg, s, t, chosen, who);
  }

  lemma {:induction false} WithoutDistinct(ids: seq<AccountId>, gone: set<AccountId>)
    requires Distinct(ids)
    ensures Distinct(Without(ids, gone))
  {
    if ids == [] {
    } else {
      var init, last := ids[..|ids| - 1], ids[|ids| - 1];
      WithoutDistinct(init, gone);
      assert last !in init;
    }
  }

  lemma ConcatDistinct(ids: seq<AccountId>, others: seq<AccountId>)
    requires Distinct(ids) && Distinct(others)
    requires forall a :: a in others ==> a !in ids
    ensures Distinct(ids + others)
  {
    var r := ids + others;
    forall i, j | 0 <= i < j < |r|
      ensures r[i] != r[j]
    {
      assert j >= |ids| ==> others[j - |ids|] in others;
      assert i < |ids| ==> ids[i] in ids;
    }
  }

  lemma SeatsRotate(cfg: Config, s: State, t: State, chosen: seq<AccountId>, keys: set<AccountId>)
    requires SeatsOk(cfg, s) && RotatedSeats(s, t, chosen) && t.queued == Keyed(t.invulnerables, keys)
    requires Distinct(chosen) && |s.desired| + |chosen| <= cfg.maxCandidates
    requires forall a :: a in chosen ==> a !in s.desired
    ensures SeatsOk(cfg, t)
  {
    if Distinct(s.desired) {
      ConcatDistinct(s.desired, chosen);
      WithoutDistinct(t.invulnerables, (set a | a in t.invulnerables) - keys);
    }
  }

  lemma RotateKeeps(cfg: Config, s: State, keys: set<AccountId>)
    requires Inv(cfg, s)
    ensures Inv(cfg, Rotate(cfg, s, keys))
  {
    var t := Rotate(cfg, s, keys);
    RotateSeats(cfg, s, keys);
    RotateKeepsOrder(cfg, s, keys);
    PickedFacts(cfg, s);
    SeatsRotate(cfg, s, t, Picked(cfg, s), keys);
    forall a
      ensures AccountOk(cfg, t, a)
    {
      RotateAccount(cfg, s, keys, a);
    }
  }
}
