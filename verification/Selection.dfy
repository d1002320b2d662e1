/** `refresh_waiting_list` picks the best candidates although it never sorts. */
module Selection {
  import opened Types
  import opened Registry
  import opened Sessions
  import opened Runs
  import opened Invariants
  import opened Boundary
  import opened Safety

  /** Eligible accounts stand in the order of the list. */
  lemma {:induction false} EligibleInOrder(cs: seq<Candidate>, desired: seq<AccountId>, i: nat, j: nat)
    requires Unique(cs) && i < j < |EligibleIds(cs, desired)|
    ensures var ids := EligibleIds(cs, desired); Find(cs, ids[i]) < Find(cs, ids[j]) < |cs|
  {
    var init, last := cs[..|cs| - 1], cs[|cs| - 1];
    var ids := EligibleIds(init, desired);
    assert cs == init + [last];
    InitUnique(cs);
    EligibleMembers(init, desired, ids[i]);
    FindPrefix(init, last, ids[i]);
    if j < |ids| {
      EligibleInOrder(init, desired, i, j);
      FindPrefix(init, last, ids[j]);
    } else {
      LookAt(cs, |init|);
    }
  }

  lemma EligibleRanked(cs: seq<Candidate>, desired: seq<AccountId>, i: nat, j: nat)
    requires Unique(cs) && OnlineRanked(cs)
    requires i < j < |EligibleIds(cs, desired)|
    ensures var ids := EligibleIds(cs, desired);
            Has(cs, ids[i]) && Has(cs, ids[j]) && Key(Look(cs, ids[i]).value) >= Key(Look(cs, ids[j]).value)
  {
    var ids := EligibleIds(cs, desired);
    EligibleInOrder(cs, desired, i, j);
    EligibleMembers(cs, desired, ids[i]);
    EligibleMembers(cs, desired, ids[j]);
    hide EligibleIds, Find, Key;
  }

  /** The part of the waiting list after the desired accounts. */
  function Elected(s: State): seq<AccountId>
    requires |s.desired| <= |s.waiting|
  {
    s.waiting[|s.desired|..]
  }

  predicate Contender(s: State, who: AccountId) {
    && who !in s.desired && Has(s.proposed, who)
    && var c := Look(s.proposed, who).value; c.bond > 0 && !c.leaving && !c.offline
  }

  lemma PreparedList(cfg: Config, s: State)
    requires Unique(s.proposed) && OnlineRanked(s.proposed)
    ensures var cs := Prepare(BeforePrepare(cfg, s)).proposed; Unique(cs) && OnlineRanked(cs)
  {
    BeforePrepareKeepsOrder(cfg, s);
    PrepareKeepsOrder(BeforePrepare(cfg, s).proposed);
  }

  /** Refreshing and seating change nothing that the ranking looks at. */
  lemma SeatingLook(cs: seq<Candidate>, chosen: seq<AccountId>, seated: seq<AccountId>, who: AccountId)
    ensures match Look(cs, who)
            case None => !Has(Crown(MarkWaiting(cs, chosen), seated), who)
            case Some(c) =>
              var d := Look(Crown(MarkWaiting(cs, chosen), seated), who);
              d.Some? && Key(d.value) == Key(c) && (Eligible(d.value) <==> Eligible(c))
  {
    var ds := MarkWaiting(cs, chosen);
    FindSame(cs, ds, who);
    FindSame(ds, Crown(ds, seated), who);
  }

  lemma RotateList(cfg: Config, s: State, keys: set<AccountId>)
    ensures Rotate(cfg, s, keys).proposed
         == Crown(MarkWaiting(Prepare(BeforePrepare(cfg, s)).proposed, Picked(cfg, s)), Handed(cfg, s))
    ensures Picked(cfg, s) == Take(EligibleIds(Prepare(BeforePrepare(cfg, s)).proposed, s.desired),
                                   SaturatingSub(cfg.maxCandidates, |s.desired|))
  {
  }

  lemma OutrankedFrom(cs: seq<Candidate>, desired: seq<AccountId>, room: nat, winner: AccountId, other: AccountId)
    requires Unique(cs) && OnlineRanked(cs)
    requires winner in Take(EligibleIds(cs, desired), room)
    requires other in EligibleIds(cs, desired) && other !in Take(EligibleIds(cs, desired), room)
    ensures Has(cs, winner) && Has(cs, other)
    ensures Key(Look(cs, winner).value) >= Key(Look(cs, other).value)
  {
    var ids := EligibleIds(cs, desired);
    var i :| 0 <= i < |Take(ids, room)| && Take(ids, room)[i] == winner;
    var j :| 0 <= j < |ids| && ids[j] == other;
    assert forall k :: 0 <= k < |Take(ids, room)| ==> ids[k] == Take(ids, room)[k] && ids[k] != other;
    EligibleRanked(cs, desired, i, j);
  }

  /** The selection on a list `ds` that differs from `cs` only where the ranking does not look. */
  lemma SelectionOn(cfg: Config, t: State, cs: seq<Candidate>, winner: AccountId, other: AccountId)
    requires Unique(cs) && OnlineRanked(cs)
    requires |t.desired| <= cfg.maxCandidates
    requires t.waiting == t.desired + Take(EligibleIds(cs, t.desired), cfg.maxCandidates - |t.desired|)
    requires forall a :: a == winner || a == other ==>
               match Look(cs, a)
               case None => !Has(t.proposed, a)
               case Some(c) =>
                 var d := Look(t.proposed, a);
                 d.Some? && Key(d.value) == Key(c) && (Eligible(d.value) <==> Eligible(c))
    ensures winner in Elected(t) ==> Contender(t, winner)
    ensures Contender(t, other) && other !in Elected(t) ==>
              && |t.waiting| == cfg.maxCandidates
              && (winner in Elected(t) ==>
                    Key(Look(t.proposed, winner).value) >= Key(Look(t.proposed, other).value))
  {
    EligibleMembers(cs, t.desired, winner);
    EligibleMembers(cs, t.desired, other);
    var ids := EligibleIds(cs, t.desired);
    assert Elected(t) == Take(ids, cfg.maxCandidates - |t.desired|);
    if winner in Elected(t) && Contender(t, other) && other !in Elected(t) {
      OutrankedFrom(cs, t.desired, cfg.maxCandidates - |t.desired|, winner, other);
    }
  }

  /** Every boundary elects contenders only; whoever is left out is outranked by all the elected,
      and only for lack of room. */
  lemma TopContendersElected(cfg: Config, s: State, keys: set<AccountId>, winner: AccountId, other: AccountId)
    requires Reachable(cfg, s)
    ensures s.desired <= Rotate(cfg, s, keys).waiting
    ensures var t := Rotate(cfg, s, keys);
      && Distinct(Elected(t))
      && (winner in Elected(t) ==> Contender(t, winner))
      && (Contender(t, other) && other !in Elected(t) ==>
            && |t.waiting| == cfg.maxCandidates
            && (winner in Elected(t) ==>
                  Key(Look(t.proposed, winner).value) >= Key(Look(t.proposed, other).value)))
  {
    hide Rotate, Picked, Handed, Prepare, BeforePrepare, Contender, Reachable, EligibleIds, Take;
    ReachableHolds(cfg, s);
    RotateSeats(cfg, s, keys);
    PickedFacts(cfg, s);
    PreparedList(cfg, s);
    RotateList(cfg, s, keys);
    var t, cs := Rotate(cfg, s, keys), Prepare(BeforePrepare(cfg, s)).proposed;
    SeatingLook(cs, Picked(cfg, s), Handed(cfg, s), winner);
    SeatingLook(cs, Picked(cfg, s), Handed(cfg, s), other);
    assert Elected(t) == Picked(cfg, s);
    hide Inv;
    SelectionOn(cfg, t, cs, winner, other);
  }
  lemma TakenInOrder(cs: seq<Candidate>, desired: seq<AccountId>, room: nat, i: nat, j: nat)
    requires Unique(cs) && i < j < |EligibleIds(cs, desired)|
    requires i < |Take(EligibleIds(cs, desired), room)|
    ensures Take(EligibleIds(cs, desired), room)[i] == EligibleIds(cs, desired)[i]
    ensures Find(cs, EligibleIds(cs, desired)[i]) < Find(cs, EligibleIds(cs, desired)[j])
  {
    EligibleInOrder(cs, desired, i, j);
    hide EligibleIds, Find;
  }

  /** The two accounts stand in `cs` in the order in which they are taken, or `other` is not taken. */
  lemma TakenFirst(cs: seq<Candidate>, desired: seq<AccountId>, room: nat, i: nat, other: AccountId)
    requires Unique(cs) && i < |Take(EligibleIds(cs, desired), room)| && other in EligibleIds(cs, desired)
    requires forall k :: 0 <= k <= i ==> Take(EligibleIds(cs, desired), room)[k] != other
    ensures Find(cs, Take(EligibleIds(cs, desired), room)[i]) < Find(cs, other)
  {
    var ids := EligibleIds(cs, desired);
    var j :| 0 <= j < |ids| && ids[j] == other;
    hide EligibleIds, Find;
    assert forall k :: 0 <= k <= i ==> ids[k] == Take(ids, room)[k] && ids[k] != other;
    TakenInOrder(cs, desired, room, i, j);
  }

  lemma RotateFind(cfg: Config, s: State, keys: set<AccountId>, who: AccountId)
    ensures Find(Rotate(cfg, s, keys).proposed, who) == Find(Prepare(BeforePrepare(cfg, s)).proposed, who)
  {
    RotateList(cfg, s, keys);
    hide Rotate, Prepare, BeforePrepare, Picked, Handed, Find;
    var cs := Prepare(BeforePrepare(cfg, s)).proposed;
    var ds := MarkWaiting(cs, Picked(cfg, s));
    FindSame(cs, ds, who);
    FindSame(ds, Crown(ds, Handed(cfg, s)), who);
  }

  lemma OrderOn(cfg: Config, t: State, cs: seq<Candidate>, i: nat, other: AccountId)
    requires Unique(cs) && |t.desired| <= cfg.maxCandidates
    requires t.waiting == t.desired + Take(EligibleIds(cs, t.desired), cfg.maxCandidates - |t.desired|)
    requires forall a :: Find(t.proposed, a) == Find(cs, a)
    requires Contender(t, other) ==> other in EligibleIds(cs, t.desired)
    ensures i < |Elected(t)| && Contender(t, other) && other !in Elected(t)[..i + 1] ==>
              Find(t.proposed, Elected(t)[i]) < Find(t.proposed, other)
  {
    hide Contender, EligibleIds, Find, Unique, Take;
    var taken := Take(EligibleIds(cs, t.desired), cfg.maxCandidates - |t.desired|);
    assert Elected(t) == taken;
    if i < |taken| && Contender(t, other) && other !in taken[..i + 1] {
      assert forall k :: 0 <= k <= i ==> taken[k] == taken[..i + 1][k] && taken[k] in taken[..i + 1];
      TakenFirst(cs, t.desired, cfg.maxCandidates - |t.desired|, i, other);
    }
  }

  /** The elected stand on the waiting list in the order of the candidate list, before every
      contender that is elected later or not at all. */
  lemma ElectedInOrder(cfg: Config, s: State, keys: set<AccountId>, i: nat, other: AccountId)
    requires Reachable(cfg, s)
    ensures s.desired <= Rotate(cfg, s, keys).waiting
    ensures var t := Rotate(cfg, s, keys);
            i < |Elected(t)| && Contender(t, other) && other !in Elected(t)[..i + 1] ==>
              Find(t.proposed, Elected(t)[i]) < Find(t.proposed, other)
  {
    hide Rotate, Picked, Handed, Prepare, BeforePrepare, Reachable, EligibleIds, Take, Find;
    ReachableHolds(cfg, s);
    RotateSeats(cfg, s, keys);
    PickedFacts(cfg, s);
    PreparedList(cfg, s);
    RotateList(cfg, s, keys);
    hide Inv, Unique;
    var t, cs := Rotate(cfg, s, keys), Prepare(BeforePrepare(cfg, s)).proposed;
    if Contender(t, other) {
      SeatingLook(cs, Picked(cfg, s), Handed(cfg, s), other);
      EligibleMembers(cs, s.desired, other);
    }
    hide Contender, Elected;
    forall a
      ensures Find(t.proposed, a) == Find(cs, a)
    {
      RotateFind(cfg, s, keys, a);
    }
    OrderOn(cfg, t, cs, i, other);
  }
}
