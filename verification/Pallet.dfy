/** The pallet as it runs: storage fields rewritten step by step. Every method is proved against
    the state function of the same operation; each dispatchable, the block hook and the boundary
    also keep the invariant of all runs. */
module Pallet {
  import opened Types
  import opened Registry
  import opened Stakes
  import opened Dispatch
  import opened Sessions
  import opened Runs
  import opened Invariants
  import opened Boundary
  import opened Safety
  import opened Rewrites
  import opened Calls

  datatype DispatchResult = Success | Failure(error: Error)

  /** A call answers as its state function does, and changes nothing when it fails. */
  predicate Answers(outcome: Outcome, before: State, after: State, r: DispatchResult) {
    match outcome
    case Ok(t) => r == Success && after == t
    case Err(e) => r == Failure(e) && after == before
  }

  class XodeStaking {
    const config: Config

    var proposed: seq<Candidate>
    var waiting: seq<AccountId>
    var invulnerables: seq<AccountId>
    var desired: seq<AccountId>
    var delegations: map<AccountId, seq<Delegation>>
    var actualAuthors: seq<AccountId>
    var validators: seq<AccountId>
    var queued: seq<AccountId>
    var startedAt: nat
    var free: map<AccountId, nat>
    var reserved: map<AccountId, nat>
    var now: nat

    function Snapshot(): State
      reads this
    {
      State(proposed, waiting, invulnerables, desired, delegations, actualAuthors,
            validators, queued, startedAt, free, reserved, now)
    }

    ghost predicate Valid()
      reads this
    {
      Inv(config, Snapshot())
    }

    constructor (config: Config, desired: seq<AccountId>, keys: set<AccountId>,
                 free: map<AccountId, nat>, reserved: map<AccountId, nat>)
      requires |desired| <= config.maxCandidates
      ensures this.config == config && Valid()
      ensures Snapshot() == Genesis(desired, keys, free, reserved)
      ensures this.desired == this.invulnerables == this.waiting == desired
      ensures this.proposed == [] && this.delegations == map[] && this.actualAuthors == []
      ensures this.validators == this.queued
      ensures forall a :: a in this.validators <==> a in desired && a in keys
      ensures this.free == free && this.reserved == reserved && this.startedAt == this.now == 0
    {
      this.config := config;
      this.desired, this.invulnerables, this.waiting := desired, desired, desired;
      this.validators, this.queued := Keyed(desired, keys), Keyed(desired, keys);
      this.proposed, this.delegations, this.actualAuthors := [], map[], [];
      this.free, this.reserved := free, reserved;
      this.startedAt, this.now := 0, 0;
      new;
      GenesisHolds(config, desired, keys, free, reserved);
    }

    // ---------- the currency and the storage layer ----------

    method Reserve(who: AccountId, amount: nat)
      requires amount <= Balance(free, who)
      modifies this
      ensures Snapshot() == Dispatch.Reserve(old(Snapshot()), who, amount)
    {
      free := free[who := Balance(free, who) - amount];
      reserved := reserved[who := Balance(reserved, who) + amount];
    }

    method Unreserve(who: AccountId, amount: nat)
      modifies this
      ensures Snapshot() == Dispatch.Unreserve(old(Snapshot()), who, amount)
    {
      var actual := Min(amount, Balance(reserved, who));
      free := free[who := Balance(free, who) + actual];
      reserved := reserved[who := Balance(reserved, who) - actual];
    }

    method RollbackSeats(s: State)
      modifies this
      ensures Snapshot() == s.(proposed := old(proposed), delegations := old(delegations),
                               free := old(free), reserved := old(reserved))
    {
      waiting, invulnerables, desired, actualAuthors := s.waiting, s.invulnerables, s.desired, s.actualAuthors;
      validators, queued, startedAt, now := s.validators, s.queued, s.startedAt, s.now;
    }

    /** The storage layer discards what a failing call has written. */
    method Rollback(s: State)
      modifies this
      ensures Snapshot() == s
    {
      RollbackSeats(s);
      proposed, delegations := s.proposed, s.delegations;
      free, reserved := s.free, s.reserved;
    }

    // ---------- dispatchables ----------

    method RegisterCandidate(who: AccountId) returns (r: DispatchResult)
      requires Valid()
      modifies this
      ensures Valid()
      ensures Answers(Register(config, old(Snapshot()), who), old(Snapshot()), Snapshot(), r)
    {
      ghost var s := Snapshot();
      if Has(proposed, who) {
        return Failure(CandidateAlreadyExists);
      }
      if |proposed| >= config.maxCandidates {
        return Failure(CandidateMaxExceeded);
      }
      proposed := proposed + [Candidate(who, 0, 0, now, now, false, false, 0, Online)];
      RegisterKeeps(config, s, who);
      r := Success;
    }

    /** Reserves or releases the difference between two bonds. */
    method MoveBond(who: AccountId, bond: nat, newBond: nat, reserveOk: bool) returns (r: DispatchResult)
      modifies this
      ensures newBond > bond && Balance(old(free), who) < newBond - bond ==> r == Failure(InsufficientBalance)
      ensures newBond > bond && Balance(old(free), who) >= newBond - bond && !reserveOk ==>
                r == Failure(ReserveRefused)
      ensures newBond <= bond || (Balance(old(free), who) >= newBond - bond && reserveOk) ==>
                r == Success && Snapshot() == Rebonded(old(Snapshot()), who, bond, newBond)
      ensures r.Failure? ==> Snapshot() == old(Snapshot())
    {
      if newBond > bond {
        var diff := newBond - bond;
        if Balance(free, who) < diff {
          return Failure(InsufficientBalance);
        }
        if !reserveOk {
          return Failure(ReserveRefused);
        }
        Reserve(who, diff);
      } else if newBond < bond {
        Unreserve(who, bond - newBond);
      }
      r := Success;
    }

    method SortProposedCandidates()
      modifies this
      ensures Snapshot() == old(Snapshot()).(proposed := Sort(old(proposed)))
    {
      proposed := Sort(proposed);
    }

    method SetBond(who: AccountId, newBond: nat, reserveOk: bool) returns (r: DispatchResult)
      modifies this
      ensures Answers(Bond(config, old(Snapshot()), who, newBond, reserveOk), old(Snapshot()), Snapshot(), r)
    {
      hide FindFrom, Sort, Rebonded;
      ghost var s := Snapshot();
      if newBond == 0 {
        if who in waiting { return Failure(StillWaiting); }
        if who in invulnerables { return Failure(StillQueuing); }
        if who in validators { return Failure(StillAuthoring); }
      } else if newBond < config.minBond {
        return Failure(InsufficientBond);
      }
      var i := Find(proposed, who);
      if i == |proposed| {
        return Failure(CandidateNotFound);
      }
      var candidate := proposed[i];
      r := MoveBond(who, candidate.bond, newBond, reserveOk);
      if r.Failure? {
        return;
      }
      ghost var paid := Snapshot();
      proposed := proposed[i := candidate.(bond := newBond, lastUpdated := now)];
      SortProposedCandidates();
      assert Snapshot() == PutAndSort(paid, candidate.(bond := newBond, lastUpdated := s.now));
    }

    method BondCandidate(who: AccountId, newBond: nat, reserveOk: bool) returns (r: DispatchResult)
      requires Valid()
      modifies this
      ensures Valid()
      ensures Answers(Bond(config, old(Snapshot()), who, newBond, reserveOk), old(Snapshot()), Snapshot(), r)
    {
      ghost var s := Snapshot();
      r := SetBond(who, newBond, reserveOk);
      if r.Success? {
        BondKeeps(config, s, who, newBond, reserveOk);
      }
    }

    method SetCommissionOfCandidate(who: AccountId, commission: nat) returns (r: DispatchResult)
      requires Valid()
      modifies this
      ensures Valid()
      ensures Answers(SetCommission(old(Snapshot()), who, commission), old(Snapshot()), Snapshot(), r)
    {
      ghost var s := Snapshot();
      if commission < 1 || commission > 100 {
        return Failure(InvalidCommission);
      }
      var i := Find(proposed, who);
      if i == |proposed| {
        return Failure(CandidateNotFound);
      }
      proposed := proposed[i := proposed[i].(commission := commission, lastUpdated := now)];
      CommissionKeeps(config, s, who, commission);
      r := Success;
    }

    method RecomputeTotalStake(candidate: AccountId) returns (r: DispatchResult)
      modifies this
      ensures Has(old(proposed), candidate) ==>
                r == Success && Snapshot() == Recompute(old(Snapshot()), candidate)
      ensures !Has(old(proposed), candidate) ==>
                r == Failure(CandidateNotFound) && Snapshot() == old(Snapshot())
    {
      var total := 0;
      if candidate in delegations {
        var ds := delegations[candidate];
        var k := 0;
        while k < |ds|
          invariant k <= |ds| && total == Fold(ds[..k])
          invariant Snapshot() == old(Snapshot())
        {
          assert ds[..k + 1][..k] == ds[..k];
          total := SaturatingAdd(total, ds[k].stake);
          k := k + 1;
        }
        assert ds[..k] == ds;
      }
      var i := Find(proposed, candidate);
      if i == |proposed| {
        return Failure(CandidateNotFound);
      }
      proposed := proposed[i := proposed[i].(totalStake := total, lastUpdated := now)];
      SortProposedCandidates();
      r := Success;
    }

    /** Adds to the delegation of `who`, or appends one if the list has room. */
    method AddDelegation(who: AccountId, candidate: AccountId, amount: nat) returns (r: DispatchResult)
      modifies this
      ensures var ds := DelegationsOf(old(Snapshot()), candidate);
              if FindDelegator(ds, who) == |ds| && |ds| >= config.maxDelegations then
                r == Failure(DelegationsMaxExceeded) && Snapshot() == old(Snapshot())
              else
                && r == Success
                && Snapshot() == old(Snapshot()).(
                     delegations := old(delegations)[candidate := Added(ds, who, amount)])
    {
      var ds := if candidate in delegations then delegations[candidate] else [];
      var i := FindDelegator(ds, who);
      if i < |ds| {
        ds := ds[i := ds[i].(stake := SaturatingAdd(ds[i].stake, amount))];
      } else if |ds| >= config.maxDelegations {
        return Failure(DelegationsMaxExceeded);
      } else {
        ds := ds + [Delegation(who, amount)];
      }
      delegations := delegations[candidate := ds];
      r := Success;
    }

    /** The amount is reserved before the delegation list is known to have room; when it has none,
        the reserve is undone. */
    method Delegate(who: AccountId, candidate: AccountId, amount: nat, reserveOk: bool) returns (r: DispatchResult)
      modifies this
      ensures Answers(Stake(config, old(Snapshot()), who, candidate, amount, reserveOk),
                      old(Snapshot()), Snapshot(), r)
    {
      hide Find, FindDelegator, Added, Recompute;
      var before := Snapshot();
      if who == candidate {
        return Failure(DelegationToSelfNotAllowed);
      }
      if !Has(proposed, candidate) {
        return Failure(CandidateDoesNotExist);
      }
      if Balance(free, who) < amount {
        return Failure(DelegationInsufficientBalance);
      }
      if !reserveOk {
        return Failure(ReserveRefused);
      }
      Reserve(who, amount);
      r := AddDelegation(who, candidate, amount);
      if r.Failure? {
        Rollback(before);
        return;
      }
      r := RecomputeTotalStake(candidate);
    }

    method StakeCandidate(who: AccountId, candidate: AccountId, amount: nat, reserveOk: bool)
      returns (r: DispatchResult)
      requires Valid()
      modifies this
      ensures Valid()
      ensures Answers(Stake(config, old(Snapshot()), who, candidate, amount, reserveOk),
                      old(Snapshot()), Snapshot(), r)
      ensures r.Success? <==>
                && who != candidate && Registered(old(Snapshot()), candidate)
                && amount <= Balance(old(free), who) && reserveOk
                && (|| Backs(old(Snapshot()), who, candidate)
                    || |DelegationsOf(old(Snapshot()), candidate)| < config.maxDelegations)
    {
      ghost var s := Snapshot();
      StakeExactly(config, s, who, candidate, amount, reserveOk);
      r := Delegate(who, candidate, amount, reserveOk);
      if r.Success? {
        StakeKeeps(config, s, who, candidate, amount, reserveOk);
      }
      hide Stake, Inv;
    }

    /** Takes the delegation of `who` out of the list, and an empty list out of the map. */
    method TakeDelegation(who: AccountId, candidate: AccountId) returns (r: DispatchResult, stake: nat)
      modifies this
      ensures var ds := DelegationsOf(old(Snapshot()), candidate);
              if candidate !in old(delegations) then r == Failure(NoDelegationsForCandidate)
              else if FindDelegator(ds, who) == |ds| then r == Failure(DelegationNotFound)
              else
                && r == Success && stake == ds[FindDelegator(ds, who)].stake
                && Snapshot() == old(Snapshot()).(
                     delegations := if Removed(ds, who) == [] then old(delegations) - {candidate}
                                    else old(delegations)[candidate := Removed(ds, who)])
      ensures r.Failure? ==> Snapshot() == old(Snapshot())
    {
      stake := 0;
      if candidate !in delegations {
        return Failure(NoDelegationsForCandidate), stake;
      }
      var ds := delegations[candidate];
      var position := FindDelegator(ds, who);
      if position == |ds| {
        return Failure(DelegationNotFound), stake;
      }
      stake := ds[position].stake;
      ds := ds[..position] + ds[position + 1..];
      delegations := if ds == [] then delegations - {candidate} else delegations[candidate := ds];
      r := Success;
    }

    /** The stake is taken out and unreserved before the candidate is looked up; when that fails,
        both are undone. */
    method Withdraw(who: AccountId, candidate: AccountId) returns (r: DispatchResult)
      modifies this
      ensures Answers(Unstake(old(Snapshot()), who, candidate), old(Snapshot()), Snapshot(), r)
    {
      hide Find, FindDelegator, Removed, Recompute;
      var before := Snapshot();
      var stake;
      r, stake := TakeDelegation(who, candidate);
      if r.Failure? {
        return;
      }
      Unreserve(who, stake);
      r := RecomputeTotalStake(candidate);
      if r.Failure? {
        Rollback(before);
      }
    }

    method UnstakeCandidate(who: AccountId, candidate: AccountId) returns (r: DispatchResult)
      requires Valid()
      modifies this
      ensures Valid()
      ensures Answers(Unstake(old(Snapshot()), who, candidate), old(Snapshot()), Snapshot(), r)
    {
      ghost var s := Snapshot();
      r := Withdraw(who, candidate);
      if r.Success? {
        UnstakeKeeps(config, s, who, candidate);
      }
    }

    method SetOfflineFlag(who: AccountId, offline: bool) returns (r: DispatchResult)
      requires Valid()
      modifies this
      ensures Valid()
      ensures Answers(SetOffline(old(Snapshot()), who, offline), old(Snapshot()), Snapshot(), r)
      ensures r.Success? <==> Registered(old(Snapshot()), who)
    {
      ghost var s := Snapshot();
      RegisteredHas(s, who);
      var i := Find(proposed, who);
      if i == |proposed| {
        return Failure(CandidateNotFound);
      }
      proposed := proposed[i := proposed[i].(offline := offline, lastUpdated := now)];
      SortProposedCandidates();
      OfflineKeeps(config, s, who, offline);
      r := Success;
    }

    method OfflineCandidate(who: AccountId) returns (r: DispatchResult)
      requires Valid()
      modifies this
      ensures Valid()
      ensures Answers(SetOffline(old(Snapshot()), who, true), old(Snapshot()), Snapshot(), r)
      ensures r.Success? <==> Registered(old(Snapshot()), who)
    {
      r := SetOfflineFlag(who, true);
    }

    method OnlineCandidate(who: AccountId) returns (r: DispatchResult)
      requires Valid()
      modifies this
      ensures Valid()
      ensures Answers(SetOffline(old(Snapshot()), who, false), old(Snapshot()), Snapshot(), r)
      ensures r.Success? <==> Registered(old(Snapshot()), who)
    {
      r := SetOfflineFlag(who, false);
    }

    method RemoveFromWaiting(who: AccountId)
      modifies this
      ensures Snapshot() == old(Snapshot()).(waiting := Without(old(waiting), {who}))
    {
      waiting := Without(waiting, {who});
    }

    method LeaveCandidate(who: AccountId) returns (r: DispatchResult)
      requires Valid()
      modifies this
      ensures Valid()
      ensures Answers(Leave(old(Snapshot()), who), old(Snapshot()), Snapshot(), r)
      ensures waiting == old(waiting)
    {
      ghost var s := Snapshot();
      var i := Find(proposed, who);
      if i == |proposed| {
        return Failure(CandidateNotFound);
      }
      if !proposed[i].offline { return Failure(StillOnline); }
      if who in waiting { return Failure(StillWaiting); }
      if who in invulnerables { return Failure(StillQueuing); }
      if who in validators { return Failure(StillAuthoring); }
      proposed := proposed[i := proposed[i].(leaving := true, lastUpdated := now)];
      RemoveFromWaiting(who);
      LeaveKeeps(config, s, who);
      r := Success;
    }

    method BondCorrection(who: AccountId, frozenBalance: nat) returns (r: DispatchResult)
      requires Valid()
      modifies this
      ensures Valid()
      ensures Answers(Correct(old(Snapshot()), who, frozenBalance), old(Snapshot()), Snapshot(), r)
    {
      ghost var s := Snapshot();
      var i := Find(proposed, who);
      if i == |proposed| {
        return Failure(CandidateNotFound);
      }
      if !proposed[i].offline { return Failure(StillOnline); }
      if who in waiting { return Failure(StillWaiting); }
      if who in invulnerables { return Failure(StillQueuing); }
      if who in validators { return Failure(StillAuthoring); }
      Unreserve(who, frozenBalance);
      proposed := proposed[i := proposed[i].(bond := 0, lastUpdated := now)];
      CorrectKeeps(config, s, who, frozenBalance);
      r := Success;
    }

    // ---------- blocks ----------

    method RecordAuthoredBlock(who: AccountId)
      modifies this
      ensures Snapshot() == RecordAuthored(old(Snapshot()), who)
    {
      var i := Find(proposed, who);
      if i < |proposed| {
        proposed := proposed[i := proposed[i].(lastAuthored := now)];
      }
    }

    method PushActualAuthor(who: AccountId)
      modifies this
      ensures Snapshot() == AddActualAuthor(config, old(Snapshot()), who)
    {
      if who !in actualAuthors {
        if |actualAuthors| < config.maxCandidates {
          actualAuthors := actualAuthors + [who];
        }
      }
    }

    method OnInitialize(author: Option<AccountId>)
      requires Valid() && Enabled(Snapshot(), BlockStep(author))
      modifies this
      ensures Valid()
      ensures Snapshot() == NewBlock(config, old(Snapshot()), author)
    {
      ghost var s := Snapshot();
      now := now + 1;
      if author.Some? {
        RecordAuthoredBlock(author.value);
        PushActualAuthor(author.value);
      }
      BlockKeeps(config, s, author);
    }

    // ---------- helpers ----------

    method RetainCandidates(who: AccountId)
      modifies this
      ensures Snapshot() == old(Snapshot()).(proposed := Retain(old(proposed), who))
    {
      proposed := Retain(proposed, who);
    }

    method SetStatus(who: AccountId, status: Status)
      modifies this
      ensures Snapshot() == old(Snapshot()).(proposed := WithStatus(old(proposed), who, status))
    {
      var i := Find(proposed, who);
      if i < |proposed| {
        proposed := proposed[i := proposed[i].(status := status)];
      }
    }

    // ---------- the session boundary ----------

    method RunQueueAuthors()
      modifies this
      ensures Snapshot() == QueueAuthors(old(Snapshot()))
    {
      if waiting == [] {
        return;
      }
      var i := 0;
      while i < |proposed|
        invariant i <= |proposed| == |old(proposed)|
        invariant forall j :: 0 <= j < i ==> proposed[j] == PromoteOne(old(proposed)[j], waiting)
        invariant forall j :: i <= j < |proposed| ==> proposed[j] == old(proposed)[j]
        invariant Snapshot() == old(Snapshot()).(proposed := proposed)
      {
        if proposed[i].status == Waiting && proposed[i].who in waiting {
          proposed := proposed[i := proposed[i].(status := Queuing)];
        }
        i := i + 1;
      }
      assert proposed == Promote(old(proposed), waiting);
      invulnerables := waiting;
    }

    method SlashStaleAuthors()
      modifies this
      ensures Snapshot() == SlashStale(config, old(Snapshot()))
    {
      var stale: seq<AccountId> := [];
      var k := 0;
      while k < |validators|
        invariant k <= |validators| && Snapshot() == old(Snapshot())
        invariant forall a :: a in stale <==> a in validators[..k] && a !in actualAuthors && a !in desired
      {
        assert validators[..k + 1] == validators[..k] + [validators[k]];
        if validators[k] !in actualAuthors && validators[k] !in desired {
          stale := stale + [validators[k]];
        }
        k := k + 1;
      }
      assert validators[..k] == validators;
      ghost var s := Snapshot();
      if stale != [] {
        var changed, i := false, 0;
        while i < |proposed|
          invariant i <= |proposed| == |s.proposed|
          invariant forall j :: 0 <= j < i ==> proposed[j] == SlashOne(config, s, s.proposed[j])
          invariant forall j :: i <= j < |proposed| ==> proposed[j] == s.proposed[j]
          invariant changed <==> exists j :: 0 <= j < i && Stale(config, s, s.proposed[j])
          invariant Snapshot() == s.(proposed := proposed)
        {
          if proposed[i].who in stale && SaturatingSub(now, proposed[i].lastAuthored) > config.maxStaling {
            proposed := proposed[i := proposed[i].(offline := true, lastUpdated := now)];
            changed := true;
          }
          i := i + 1;
        }
        assert proposed == Slashed(config, s, s.proposed);
        assert changed <==> exists c :: c in s.proposed && Stale(config, s, c);
        if changed {
          SortProposedCandidates();
        } else {
          assert proposed == s.proposed;
        }
      } else {
        assert forall c :: c in s.proposed ==> !Stale(config, s, c);
      }
      actualAuthors := [];
    }

    /** One candidate's turn: drop it, move it a step down, or leave it. */
    method PrepareCandidate(candidate: Candidate)
      modifies this
      ensures Snapshot() == old(Snapshot()).(proposed := proposed, waiting := waiting)
      ensures proposed == if Disqualified(candidate)
                          then match Downgrade(candidate)
                               case None => Retain(old(proposed), candidate.who)
                               case Some(d) => WithStatus(old(proposed), candidate.who, d.status)
                          else old(proposed)
      ensures waiting == if Disqualified(candidate) && candidate.status == Waiting
                         then Without(old(waiting), {candidate.who})
                         else old(waiting)
    {
      if candidate.offline || candidate.leaving || candidate.bond == 0 {
        match candidate.status {
          case Online | Offline =>
            RetainCandidates(candidate.who);
          case Waiting =>
            RemoveFromWaiting(candidate.who);
            RetainCandidates(candidate.who);
          case Queuing =>
            SetStatus(candidate.who, Waiting);
          case Authoring =>
            SetStatus(candidate.who, Queuing);
        }
      }
    }

    /** The loop visits a snapshot while it rewrites the live list. */
    method PrepareNextWaitingList()
      requires Unique(proposed)
      modifies this
      ensures Snapshot() == Prepare(old(Snapshot()))
    {
      var candidates := proposed;
      var k := 0;
      WithoutNothing(waiting, Unwaited(candidates[..0]));
      assert PreparePass(candidates[..0]) + candidates[0..] == candidates;
      hide PreparePass, Without, Unwaited, Retain, WithStatus, Unique;
      while k < |candidates|
        invariant k <= |candidates|
        invariant proposed == PreparePass(candidates[..k]) + candidates[k..]
        invariant waiting == Without(old(waiting), Unwaited(candidates[..k]))
        invariant Snapshot() == old(Snapshot()).(proposed := proposed, waiting := waiting)
      {
        var candidate := candidates[k];
        PrepareTurn(candidates, proposed, k);
        UnwaitedTurn(candidates, old(waiting), k);
        PrepareCandidate(candidate);
        k := k + 1;
      }
      assert candidates[..k] == candidates;
    }

    method PushDesired() returns (next: seq<AccountId>)
      requires |desired| <= config.maxCandidates
      ensures next == desired
    {
      next := [];
      var k := 0;
      while k < |desired| && |next| < config.maxCandidates
        invariant k <= |desired| && next == desired[..k]
      {
        next := next + [desired[k]];
        k := k + 1;
      }
    }

    /** One candidate's turn: an eligible one that is not on the list yet joins it. */
    method RefreshCandidate(candidate: Candidate, next: seq<AccountId>) returns (longer: seq<AccountId>)
      modifies this
      ensures longer == Joined(candidate, next)
      ensures Snapshot() == old(Snapshot()).(proposed := Marked(old(proposed), candidate, next))
    {
      longer := next;
      if candidate.who !in next && candidate.bond != 0 && !candidate.leaving && !candidate.offline {
        longer := longer + [candidate.who];
        if candidate.status == Online {
          SetStatus(candidate.who, Waiting);
        }
      }
    }

    method RefreshWaitingList()
      requires Unique(proposed) && |desired| <= config.maxCandidates
      modifies this
      ensures Snapshot() == Refresh(config, old(Snapshot()))
    {
      hide Unique, RefreshState, EligibleIds, Take, Joined, Marked, MarkWaiting;
      var candidates := proposed;
      var next := PushDesired();
      ghost var room := config.maxCandidates - |desired|;
      var k := 0;
      RefreshStart(candidates, desired, room);
      while k < |candidates| && |next| < config.maxCandidates
        invariant k <= |candidates|
        invariant RefreshState(candidates, proposed, desired, room, next, k)
        invariant Snapshot() == old(Snapshot()).(proposed := proposed)
      {
        var candidate := candidates[k];
        RefreshTurn(candidates, proposed, desired, room, next, k);
        next := RefreshCandidate(candidate, next);
        k := k + 1;
      }
      RefreshExit(candidates, proposed, desired, room, next, k);
      waiting := next;
    }

    method RunEndSession()
      requires Valid()
      modifies this
      ensures Snapshot() == EndSession(config, old(Snapshot()))
    {
      ghost var s := Snapshot();
      RunQueueAuthors();
      SlashStaleAuthors();
      BeforePrepareUnique(config, s);
      PrepareNextWaitingList();
      PrepareUnique(BeforePrepare(config, s).proposed);
      RefreshWaitingList();
    }

    method RunNewSession() returns (authors: seq<AccountId>)
      requires Unique(proposed)
      modifies this
      ensures Snapshot() == NewSession(old(Snapshot()))
      ensures authors == invulnerables == old(invulnerables)
    {
      authors := invulnerables;
      ghost var cs := proposed;
      var k := 0;
      assert Crown(cs, authors[..0]) == cs;
      while k < |authors|
        invariant k <= |authors| && proposed == Crown(cs, authors[..k])
        invariant Snapshot() == old(Snapshot()).(proposed := proposed)
      {
        CrownTurn(cs, authors[..k], authors[k]);
        assert authors[..k + 1] == authors[..k] + [authors[k]];
        SetStatus(authors[k], Authoring);
        k := k + 1;
      }
      assert authors[..k] == authors;
    }

    /** A boundary as the session pallet drives it. */
    method RotateSession(keys: set<AccountId>)
      requires Valid()
      modifies this
      ensures Valid()
      ensures Snapshot() == Rotate(config, old(Snapshot()), keys)
    {
      ghost var s := Snapshot();
      RunEndSession();
      validators := queued;
      EndSessionUnique(config, s);
      var authors := RunNewSession();
      queued := Keyed(authors, keys);
      startedAt := now;
      RotateKeeps(config, s, keys);
    }
  }
}
