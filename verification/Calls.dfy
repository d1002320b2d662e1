/** The calls in the terms of the chain: exactly when each is refused, with which error, and where on
    the list it writes. */
module Calls {
  import opened Types
  import opened Registry
  import opened Stakes
  import opened Dispatch
  import opened Runs
  import opened Effects

  ghost predicate Registered(s: State, who: AccountId) {
    exists c :: c in s.proposed && c.who == who
  }

  /** `who` has an entry on the delegation list of `candidate`. */
  ghost predicate Backs(s: State, who: AccountId, candidate: AccountId) {
    candidate in s.delegations && exists d :: d in s.delegations[candidate] && d.delegator == who
  }

  predicate Seatless(s: State, who: AccountId) {
    who !in s.waiting && who !in s.invulnerables && who !in s.validators
  }

  lemma RegisteredHas(s: State, who: AccountId)
    ensures Registered(s, who) <==> Has(s.proposed, who)
  {
    if Has(s.proposed, who) {
      assert s.proposed[Find(s.proposed, who)] in s.proposed;
    }
  }

  lemma BacksFound(s: State, who: AccountId, candidate: AccountId)
    ensures Backs(s, who, candidate)
       <==> FindDelegator(DelegationsOf(s, candidate), who) < |DelegationsOf(s, candidate)|
  {
    var ds := DelegationsOf(s, candidate);
    if FindDelegator(ds, who) < |ds| {
      assert ds[FindDelegator(ds, who)] in ds;
    }
  }

  // ---------- when each call is refused ----------

  lemma RegisterExactly(cfg: Config, s: State, who: AccountId)
    ensures var r := Register(cfg, s, who);
      && (r == Err(CandidateAlreadyExists) <==> Registered(s, who))
      && (r == Err(CandidateMaxExceeded) <==> !Registered(s, who) && |s.proposed| >= cfg.maxCandidates)
      && (r.Ok? <==> !Registered(s, who) && |s.proposed| < cfg.maxCandidates)
      && (r.Ok? ==>
            r.state == s.(proposed := s.proposed + [Candidate(who, 0, 0, s.now, s.now, false, false, 0, Online)]))
  {
    RegisteredHas(s, who);
  }

  /** A bond may be withdrawn by whoever holds no seat, and may otherwise be anything from the
      minimum up to what the free balance allows. */
  lemma BondExactly(cfg: Config, s: State, who: AccountId, newBond: nat, reserveOk: bool)
    requires Unique(s.proposed)
    ensures var r := Bond(cfg, s, who, newBond, reserveOk);
      && (r == Err(StillWaiting) <==> newBond == 0 && who in s.waiting)
      && (r == Err(StillQueuing) <==> newBond == 0 && who !in s.waiting && who in s.invulnerables)
      && (r == Err(StillAuthoring) <==>
            newBond == 0 && who !in s.waiting && who !in s.invulnerables && who in s.validators)
      && (r == Err(InsufficientBond) <==> 0 < newBond < cfg.minBond)
    ensures var r := Bond(cfg, s, who, newBond, reserveOk);
            var allowed := if newBond == 0 then Seatless(s, who) else newBond >= cfg.minBond;
      && (r == Err(CandidateNotFound) <==> allowed && !Registered(s, who))
      && (r == Err(InsufficientBalance) <==>
            allowed && exists c :: c in s.proposed && c.who == who && newBond > Balance(s.free, who) + c.bond)
      && (r == Err(ReserveRefused) <==>
            allowed && !reserveOk
            && exists c :: c in s.proposed && c.who == who && c.bond < newBond <= Balance(s.free, who) + c.bond)
      && (r.Ok? <==>
            allowed
            && exists c :: c in s.proposed && c.who == who
                           && (newBond <= c.bond || (reserveOk && newBond <= Balance(s.free, who) + c.bond)))
  {
    RegisteredHas(s, who);
    if Has(s.proposed, who) {
      var c := Look(s.proposed, who).value;
      LookIn(s.proposed, c);
      forall d | d in s.proposed && d.who == who
        ensures d == c
      {
        LookIn(s.proposed, d);
      }
    }
    hide Find, Sort, Unique, Rebonded;
  }

  lemma SetCommissionExactly(s: State, who: AccountId, commission: nat)
    ensures var r := SetCommission(s, who, commission);
      && (r == Err(InvalidCommission) <==> commission < 1 || commission > 100)
      && (r == Err(CandidateNotFound) <==> 1 <= commission <= 100 && !Registered(s, who))
      && (r.Ok? <==> 1 <= commission <= 100 && Registered(s, who))
  {
    RegisteredHas(s, who);
  }

  /** Staking succeeds for every other account's free balance; only a new delegator needs room. */
  lemma StakeExactly(cfg: Config, s: State, who: AccountId, candidate: AccountId, amount: nat, reserveOk: bool)
    ensures var r := Stake(cfg, s, who, candidate, amount, reserveOk);
      && (r == Err(DelegationToSelfNotAllowed) <==> who == candidate)
      && (r == Err(CandidateDoesNotExist) <==> who != candidate && !Registered(s, candidate))
      && (r == Err(DelegationInsufficientBalance) <==>
            who != candidate && Registered(s, candidate) && amount > Balance(s.free, who))
    ensures var r := Stake(cfg, s, who, candidate, amount, reserveOk);
            var allowed := who != candidate && Registered(s, candidate) && amount <= Balance(s.free, who);
            var room := Backs(s, who, candidate) || |DelegationsOf(s, candidate)| < cfg.maxDelegations;
      && (r == Err(ReserveRefused) <==> allowed && !reserveOk)
      && (r == Err(DelegationsMaxExceeded) <==> allowed && reserveOk && !room)
      && (r.Ok? <==> allowed && reserveOk && room)
  {
    RegisteredHas(s, candidate);
    BacksFound(s, who, candidate);
    hide Find, FindDelegator, Recompute;
  }

  lemma UnstakeExactly(s: State, who: AccountId, candidate: AccountId)
    ensures var r := Unstake(s, who, candidate);
      && (r == Err(NoDelegationsForCandidate) <==> candidate !in s.delegations)
      && (r == Err(DelegationNotFound) <==> candidate in s.delegations && !Backs(s, who, candidate))
      && (r == Err(CandidateNotFound) <==> Backs(s, who, candidate) && !Registered(s, candidate))
      && (r.Ok? <==> Backs(s, who, candidate) && Registered(s, candidate))
  {
    RegisteredHas(s, candidate);
    BacksFound(s, who, candidate);
    hide Find, FindDelegator, Recompute, Removed;
  }

  /** Stepping down and coming back are open to every candidate at any time. */
  lemma SetOfflineExactly(s: State, who: AccountId, offline: bool)
    ensures var r := SetOffline(s, who, offline);
      && (r == Err(CandidateNotFound) <==> !Registered(s, who))
      && (r.Ok? <==> Registered(s, who))
  {
    RegisteredHas(s, who);
  }

  /** The guards that `leave_candidate` and `bond_correction` share. */
  ghost predicate RefusedAs(s: State, who: AccountId, error: Error) {
    || (error == CandidateNotFound && !Registered(s, who))
    || exists c :: c in s.proposed && c.who == who
                   && (|| (error == StillOnline && !c.offline)
                       || (error == StillWaiting && c.offline && who in s.waiting)
                       || (error == StillQueuing && c.offline && who !in s.waiting && who in s.invulnerables)
                       || (error == StillAuthoring && c.offline && who !in s.waiting && who !in s.invulnerables
                           && who in s.validators))
  }

  /** Leaving and correcting are open to the offline candidates without a seat. */
  lemma DepartExactly(s: State, who: AccountId, amount: nat, error: Error)
    requires Unique(s.proposed)
    ensures Leave(s, who).Ok? <==> Seatless(s, who) && exists c :: c in s.proposed && c.who == who && c.offline
    ensures Correct(s, who, amount).Ok? <==> Leave(s, who).Ok?
    ensures Leave(s, who) == Err(error) <==> RefusedAs(s, who, error)
    ensures Correct(s, who, amount) == Err(error) <==> RefusedAs(s, who, error)
  {
    RegisteredHas(s, who);
    if Has(s.proposed, who) {
      var c := Look(s.proposed, who).value;
      LookIn(s.proposed, c);
      forall d | d in s.proposed && d.who == who
        ensures d == c
      {
        LookIn(s.proposed, d);
      }
    }
    hide Find, Unique, Without, Unreserve;
  }

  // ---------- what each call writes ----------

  /** Every record after a successful call, with the total a true sum up to the largest balance. */
  lemma RecordsExactly(cfg: Config, s: State, step: Step, who: AccountId)
    requires Unique(s.proposed) && IsCall(step) && !step.RegisterStep? && Call(cfg, s, step).Ok?
    ensures var t := Call(cfg, s, step).state;
            var total: nat := Min(Total(DelegationsOf(t, who)), MAX_BALANCE);
            Look(t.proposed, who)
            == match Look(s.proposed, who)
               case None => None
               case Some(c) =>
                 if who != Target(step) then Some(c)
                 else match step
                   case BondStep(_, newBond, _) => Some(c.(bond := newBond, lastUpdated := s.now))
                   case CommissionStep(_, commission) => Some(c.(commission := commission, lastUpdated := s.now))
                   case OfflineStep(_, offline) => Some(c.(offline := offline, lastUpdated := s.now))
                   case LeaveStep(_) => Some(c.(leaving := true, lastUpdated := s.now))
                   case CorrectStep(_, _) => Some(c.(bond := 0, lastUpdated := s.now))
                   case _ => Some(c.(totalStake := total, lastUpdated := s.now))
  {
    hide Call, Find;
    CallLook(cfg, s, step, who);
    CallDelegations(cfg, s, step, who);
    FoldIsCappedTotal(NewDelegations(s, step));
  }

  /** Every stake behind every candidate after a successful call. */
  lemma StakesExactly(cfg: Config, s: State, step: Step, candidate: AccountId, who: AccountId)
    requires IsCall(step) && Call(cfg, s, step).Ok? && DistinctDelegators(DelegationsOf(s, candidate))
    ensures var before := StakeOf(DelegationsOf(s, candidate), who);
            StakeOf(DelegationsOf(Call(cfg, s, step).state, candidate), who)
            == if step.StakeStep? && step.candidate == candidate && step.who == who then
                 if Backs(s, who, candidate) then Min(before + step.amount, MAX_BALANCE) else step.amount
               else if step.UnstakeStep? && step.candidate == candidate && step.who == who then 0
               else before
  {
    CallDelegations(cfg, s, step, candidate);
    if step.StakeStep? && step.candidate == candidate {
      BacksFound(s, who, candidate);
      AddedStakes(DelegationsOf(s, candidate), step.who, step.amount, who);
      hide Call, Added;
    } else if step.UnstakeStep? && step.candidate == candidate {
      UnstakeExactly(s, step.who, candidate);
      BacksFound(s, step.who, candidate);
      RemovedStakes(DelegationsOf(s, candidate), step.who, who);
      hide Call, Removed;
    }
  }

  // ---------- where the calls without a sort write ----------

  /** A commission, a leave or a correction rewrites its candidate in its place. */
  lemma WritesInPlace(cfg: Config, s: State, step: Step, i: nat)
    requires Unique(s.proposed) && i < |s.proposed|
    requires step.CommissionStep? || step.LeaveStep? || step.CorrectStep?
    requires Call(cfg, s, step).Ok?
    ensures var t, c := Call(cfg, s, step).state, s.proposed[i];
      && |t.proposed| == |s.proposed|
      && t.proposed[i]
         == if c.who != step.who then c
            else match step
              case CommissionStep(_, commission) => c.(commission := commission, lastUpdated := s.now)
              case LeaveStep(_) => c.(leaving := true, lastUpdated := s.now)
              case _ => c.(bond := 0, lastUpdated := s.now)
  {
    LookAt(s.proposed, i);
    hide Without, Find, Unique, Unreserve;
  }

  /** A block notes its author on the list and on the record of authors. */
  lemma BlockExactly(cfg: Config, s: State, author: Option<AccountId>)
    requires Unique(s.proposed)
    ensures var t := NewBlock(cfg, s, author);
      && t == s.(proposed := t.proposed, actualAuthors := t.actualAuthors, now := s.now + 1)
      && |t.proposed| == |s.proposed|
      && t.actualAuthors
         == if author.None? || author.value in s.actualAuthors || |s.actualAuthors| >= cfg.maxCandidates
            then s.actualAuthors
            else s.actualAuthors + [author.value]
    ensures var t := NewBlock(cfg, s, author);
            forall i {:trigger t.proposed[i]} :: 0 <= i < |s.proposed| ==>
              var c := s.proposed[i];
              t.proposed[i] == if author == Some(c.who) then c.(lastAuthored := s.now + 1) else c
  {
    forall i | 0 <= i < |s.proposed|
      ensures Find(s.proposed, s.proposed[i].who) == i
    {
      LookAt(s.proposed, i);
    }
    hide Unique;
  }
}
