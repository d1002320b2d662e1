/** Safety of every run. */
module Safety {
  import opened Types
  import opened Registry
  import opened Stakes
  import opened Dispatch
  import opened Sessions
  import opened Runs
  import opened Invariants
  import opened Boundary

  lemma StakingSeats(cfg: Config, s: State, step: Step)
    requires (step.StakeStep? || step.UnstakeStep?) && Call(cfg, s, step).Ok?
    ensures SameSeats(s, Call(cfg, s, step).state)
  {
    hide Look, Sort, Added, Removed, Find;
  }

  /** No call changes who waits, sits or validates. */
  lemma CallSeats(cfg: Config, s: State, step: Step)
    requires IsCall(step) && Call(cfg, s, step).Ok?
    ensures SameSeats(s, Call(cfg, s, step).state)
  {
    if step.LeaveStep? {
      LeaveSeats(s, step.who);
      hide *;
    } else if step.StakeStep? || step.UnstakeStep? {
      StakingSeats(cfg, s, step);
      hide *;
    }
  }

  lemma CallKeeps(cfg: Config, s: State, step: Step)
    requires Inv(cfg, s) && IsCall(step)
    requires Call(cfg, s, step).Ok?
    ensures Inv(cfg, Call(cfg, s, step).state)
  {
    hide Inv, Register, Bond, SetCommission, Stake, Unstake, SetOffline, Leave, Correct;
    match step
    case RegisterStep(who) => RegisterKeeps(cfg, s, who);
    case BondStep(who, newBond, reserveOk) => BondKeeps(cfg, s, who, newBond, reserveOk);
    case CommissionStep(who, commission) => CommissionKeeps(cfg, s, who, commission);
    case StakeStep(who, candidate, amount, reserveOk) => StakeKeeps(cfg, s, who, candidate, amount, reserveOk);
    case UnstakeStep(who, candidate) => UnstakeKeeps(cfg, s, who, candidate);
    case OfflineStep(who, offline) => OfflineKeeps(cfg, s, who, offline);
    case LeaveStep(who) => LeaveKeeps(cfg, s, who);
    case CorrectStep(who, amount) => CorrectKeeps(cfg, s, who, amount);
  }

  lemma LedgerKeeps(cfg: Config, s: State, free: map<AccountId, nat>, reserved: map<AccountId, nat>)
    requires Inv(cfg, s)
    ensures Inv(cfg, s.(free := free, reserved := reserved))
  {
    var t := s.(free := free, reserved := reserved);
    forall a
      ensures AccountOk(cfg, t, a)
    {
      assert AccountOk(cfg, s, a);
      assert DelegationsOf(t, a) == DelegationsOf(s, a);
    }
  }

  lemma StepKeeps(cfg: Config, s: State, step: Step)
    requires Inv(cfg, s) && Enabled(s, step)
    ensures Inv(cfg, Apply(cfg, s, step))
    ensures !step.RotateStep? ==>
              var t := Apply(cfg, s, step);
              && t.waiting == s.waiting && t.invulnerables == s.invulnerables
              && t.validators == s.validators && t.queued == s.queued
    ensures Apply(cfg, s, step).desired == s.desired
    ensures s.now <= Apply(cfg, s, step).now
  {
    hide Inv;
    if IsCall(step) {
      if Call(cfg, s, step).Ok? {
        CallKeeps(cfg, s, step);
        CallSeats(cfg, s, step);
      }
      hide Call;
    } else if step.BlockStep? {
      BlockKeeps(cfg, s, step.author);
    } else if step.RotateStep? {
      RotateKeeps(cfg, s, step.keys);
      RotateSeats(cfg, s, step.keys);
      hide Rotate;
    } else {
      LedgerKeeps(cfg, s, step.free, step.reserved);
    }
  }

  lemma {:induction false} RunKeeps(cfg: Config, s: State, steps: seq<Step>)
    requires Inv(cfg, s) && Feasible(cfg, s, steps)
    ensures Inv(cfg, Run(cfg, s, steps))
    ensures Run(cfg, s, steps).desired == s.desired
    ensures s.now <= Run(cfg, s, steps).now
  {
    if steps == [] {
    } else {
      var init := steps[..|steps| - 1];
      RunKeeps(cfg, s, init);
      StepKeeps(cfg, Run(cfg, s, init), steps[|steps| - 1]);
    }
  }

  lemma GenesisHolds(cfg: Config, desired: seq<AccountId>, keys: set<AccountId>,
                     free: map<AccountId, nat>, reserved: map<AccountId, nat>)
    requires |desired| <= cfg.maxCandidates
    ensures Inv(cfg, Genesis(desired, keys, free, reserved))
  {
    if Distinct(desired) {
      WithoutDistinct(desired, (set a | a in desired) - keys);
    }
  }

  lemma {:induction false} TraceHolds(cfg: Config, states: seq<State>, steps: seq<Step>, k: nat)
    requires IsTrace(cfg, states, steps) && k <= |steps|
    ensures Inv(cfg, states[k])
  {
    hide Inv, Apply, Enabled;
    if k == 0 {
      var desired, keys, free, reserved :|
        |desired| <= cfg.maxCandidates && states[0] == Genesis(desired, keys, free, reserved);
      GenesisHolds(cfg, desired, keys, free, reserved);
    } else {
      TraceHolds(cfg, states, steps, k - 1);
      var step := steps[k - 1];
      StepKeeps(cfg, states[k - 1], step);
    }
  }

  /** Every reachable state meets the invariant. */
  lemma ReachableHolds(cfg: Config, s: State)
    requires Reachable(cfg, s)
    ensures Inv(cfg, s)
  {
    var states, steps :| IsTrace(cfg, states, steps) && s == states[|steps|];
    TraceHolds(cfg, states, steps, |steps|);
  }

  lemma ReachableStep(cfg: Config, s: State, step: Step)
    requires Reachable(cfg, s) && Enabled(s, step)
    ensures Reachable(cfg, Apply(cfg, s, step))
  {
    hide Apply, Enabled, IsGenesis;
    var states, steps :| IsTrace(cfg, states, steps) && s == states[|steps|];
    var states', steps' := states + [Apply(cfg, s, step)], steps + [step];
    forall k | 0 <= k < |steps'|
      ensures Enabled(states'[k], steps'[k]) && states'[k + 1] == Apply(cfg, states'[k], steps'[k])
    {
      assert k < |steps| ==> steps'[k] == steps[k];
    }
    assert IsTrace(cfg, states', steps');
  }

  lemma {:induction false} ReachableOnward(cfg: Config, s: State, steps: seq<Step>)
    requires Reachable(cfg, s) && Feasible(cfg, s, steps)
    ensures Reachable(cfg, Run(cfg, s, steps))
  {
    hide Apply, Enabled, Reachable;
    if steps == [] {
    } else {
      var init := steps[..|steps| - 1];
      ReachableOnward(cfg, s, init);
      ReachableStep(cfg, Run(cfg, s, init), steps[|steps| - 1]);
    }
  }

  /** Every run from genesis ends in a reachable state. */
  lemma RunsAreReachable(cfg: Config, desired: seq<AccountId>, keys: set<AccountId>,
                         free: map<AccountId, nat>, reserved: map<AccountId, nat>, steps: seq<Step>)
    requires |desired| <= cfg.maxCandidates
    requires Feasible(cfg, Genesis(desired, keys, free, reserved), steps)
    ensures Reachable(cfg, Run(cfg, Genesis(desired, keys, free, reserved), steps))
  {
    hide Apply, Enabled, Run, Feasible;
    var s := Genesis(desired, keys, free, reserved);
    assert IsTrace(cfg, [s], []);
    var none: seq<Step> := [];
    assert [s][|none|] == s;
    ReachableOnward(cfg, s, steps);
  }

  // ---------- session keys ----------

  lemma KeyedMembers(ids: seq<AccountId>, keys: set<AccountId>, who: AccountId)
    ensures who in Keyed(ids, keys) <==> who in ids && who in keys
  {
  }

  lemma {:induction false} WithoutAgree(ids: seq<AccountId>, gone: set<AccountId>, others: set<AccountId>)
    requires forall a :: a in ids ==> (a in gone <==> a in others)
    ensures Without(ids, gone) == Without(ids, others)
  {
    if ids == [] {
    } else {
      assert ids[|ids| - 1] in ids;
      WithoutAgree(ids[..|ids| - 1], gone, others);
    }
  }

  /** `pallet-session` keeps the order of the accounts that have keys. */
  lemma KeyedExactly(ids: seq<AccountId>, keys: set<AccountId>, last: AccountId)
    ensures Keyed([], keys) == []
    ensures Keyed(ids + [last], keys) == Keyed(ids, keys) + (if last in keys then [last] else [])
  {
    var all := ids + [last];
    assert all[..|all| - 1] == ids;
    WithoutAgree(ids, (set a | a in ids) - keys, (set a | a in all) - keys);
  }

  // ---------- seats ----------

  /** Nobody waits, is queued, is seated or validates without a bond, except the genesis accounts. */
  lemma SeatHoldersAreBonded(cfg: Config, s: State, who: AccountId)
    requires Reachable(cfg, s)
    requires who in s.waiting || who in s.invulnerables || who in s.validators || who in s.queued
    requires who !in s.desired
    ensures Has(s.proposed, who)
    ensures var c := Look(s.proposed, who).value;
      && !c.leaving
      && c.bond > 0 && c.bond >= cfg.minBond
      && (who in s.invulnerables || who in s.queued ==> c.status == Authoring)
      && (who in s.validators ==> c.status == Queuing || c.status == Authoring)
      && (who in s.waiting ==> c.status == Waiting || c.status == Queuing || c.status == Authoring)
  {
    ReachableHolds(cfg, s);
    assert AccountOk(cfg, s, who);
  }

  /** The session pallet only ever receives bonded candidates and genesis accounts. */
  lemma HandedAreBonded(cfg: Config, s: State, keys: set<AccountId>, who: AccountId)
    requires Reachable(cfg, s)
    requires who in Handed(cfg, s) && who !in s.desired
    ensures Has(s.proposed, who)
    ensures Look(s.proposed, who).value.bond > 0 && !Look(s.proposed, who).value.leaving
    ensures Look(Rotate(cfg, s, keys).proposed, who).Some?
    ensures Look(Rotate(cfg, s, keys).proposed, who).value.status == Authoring
  {
    ReachableHolds(cfg, s);
    assert AccountOk(cfg, s, who);
    RotateSeats(cfg, s, keys);
    RotateAccount(cfg, s, keys, who);
    hide Rotate, Handed;
  }

  /** The genesis accounts lead the waiting list, the validator set and every set handed out. */
  lemma DesiredStaySeated(cfg: Config, s: State, steps: seq<Step>)
    requires Reachable(cfg, s) && Feasible(cfg, s, steps)
    ensures var t := Run(cfg, s, steps);
      && t.desired == s.desired
      && s.desired <= t.waiting && s.desired <= t.invulnerables && s.desired <= Handed(cfg, t)
  {
    ReachableHolds(cfg, s);
    RunKeeps(cfg, s, steps);
    HandedSet(cfg, Run(cfg, s, steps));
  }

  /** What the genesis build stores: the given accounts wait, sit and are desired at once, and those
      with keys are the first validators and queued to follow themselves. */
  lemma GenesisExactly(desired: seq<AccountId>, keys: set<AccountId>,
                       free: map<AccountId, nat>, reserved: map<AccountId, nat>, who: AccountId)
    ensures var s := Genesis(desired, keys, free, reserved);
      && s.desired == s.waiting == s.invulnerables == desired
      && (who in s.validators <==> who in desired && who in keys)
      && s.queued == s.validators == Keyed(desired, keys)
      && s.proposed == [] && s.delegations == map[] && s.actualAuthors == []
      && s.startedAt == s.now == 0 && s.free == free && s.reserved == reserved
  {
    KeyedMembers(desired, keys, who);
  }

  /** On every run from a genesis build, the accounts given to it lead the waiting list, the
      validator set and the set handed out next. */
  lemma GenesisAccountsStay(cfg: Config, desired: seq<AccountId>, keys: set<AccountId>, free: map<AccountId, nat>,
                            reserved: map<AccountId, nat>, steps: seq<Step>)
    requires |desired| <= cfg.maxCandidates
    requires Feasible(cfg, Genesis(desired, keys, free, reserved), steps)
    ensures var t := Run(cfg, Genesis(desired, keys, free, reserved), steps);
      && t.desired == desired
      && desired <= t.waiting && desired <= t.invulnerables && desired <= Handed(cfg, t)
  {
    hide Run, Feasible, Handed;
    GenesisHolds(cfg, desired, keys, free, reserved);
    GenesisExactly(desired, keys, free, reserved, 0);
    var s := Genesis(desired, keys, free, reserved);
    RunKeeps(cfg, s, steps);
    HandedSet(cfg, Run(cfg, s, steps));
  }

  lemma StepSeats(cfg: Config, s: State, step: Step)
    requires Inv(cfg, s) && Enabled(s, step) && s.invulnerables != []
    ensures Apply(cfg, s, step).invulnerables != []
  {
    if step.RotateStep? {
      RotateSeats(cfg, s, step.keys);
    } else if !step.BlockStep? {
      StepKeeps(cfg, s, step);
    }
  }

  /** A validator set, once there is one, is never replaced by an empty one. */
  lemma {:induction false} SeatsNeverEmpty(cfg: Config, s: State, steps: seq<Step>)
    requires Reachable(cfg, s) && Feasible(cfg, s, steps)
    requires s.invulnerables != []
    ensures Run(cfg, s, steps).invulnerables != []
    ensures Handed(cfg, Run(cfg, s, steps)) != []
  {
    if steps == [] {
    } else {
      var init, last := steps[..|steps| - 1], steps[|steps| - 1];
      SeatsNeverEmpty(cfg, s, init);
      var t := Run(cfg, s, init);
      ReachableOnward(cfg, s, init);
      ReachableHolds(cfg, t);
      StepSeats(cfg, t, last);
    }
    HandedSet(cfg, Run(cfg, s, steps));
  }

  // ---------- order, bounds, uniqueness ----------

  /** The online candidates always stand in ranking order, though the list is not always sorted. */
  lemma OnlineAlwaysRanked(cfg: Config, s: State, i: nat, j: nat)
    requires Reachable(cfg, s)
    requires i < j < |s.proposed| && !s.proposed[i].offline && !s.proposed[j].offline
    ensures Key(s.proposed[i]) >= Key(s.proposed[j])
    ensures s.proposed[i].who != s.proposed[j].who
  {
    ReachableHolds(cfg, s);
  }

  lemma BoundsHold(cfg: Config, s: State)
    requires Reachable(cfg, s)
    ensures |s.proposed| <= cfg.maxCandidates
    ensures |s.waiting| <= cfg.maxCandidates && |s.invulnerables| <= cfg.maxCandidates
    ensures |s.validators| <= cfg.maxCandidates && |s.actualAuthors| <= cfg.maxCandidates
    ensures Distinct(s.desired) ==>
              Distinct(s.waiting) && Distinct(s.invulnerables) && Distinct(s.validators)
    ensures forall c :: c in s.delegations ==> ListOk(cfg, c, s.delegations[c])
    ensures forall c :: c in s.proposed ==>
              c.status != Offline && (c.bond == 0 || c.bond >= cfg.minBond)
  {
    ReachableHolds(cfg, s);
    forall c | c in s.proposed
      ensures c.status != Offline && (c.bond == 0 || c.bond >= cfg.minBond)
    {
      LookIn(s.proposed, c);
      assert AccountOk(cfg, s, c.who);
    }
  }

  /** The best-effort push always finds room, so every author of the session is on record. */
  lemma EveryAuthorRecorded(cfg: Config, s: State, author: AccountId)
    requires Reachable(cfg, s) && author in s.validators
    ensures author in NewBlock(cfg, s, Some(author)).actualAuthors
    ensures author !in s.actualAuthors ==> |s.actualAuthors| < cfg.maxCandidates
  {
    ReachableHolds(cfg, s);
    BlockAuthors(cfg, s, Some(author));
    if author !in s.actualAuthors {
      RoomForAuthor(cfg, s, author);
    }
  }

  // ---------- pipeline delay ----------

  lemma {:induction false} QuietRun(cfg: Config, s: State, steps: seq<Step>)
    requires Inv(cfg, s) && Feasible(cfg, s, steps) && Rotations(steps) == 0
    ensures var t := Run(cfg, s, steps);
      && t.waiting == s.waiting && t.invulnerables == s.invulnerables
      && t.validators == s.validators && t.queued == s.queued
  {
    hide Inv, Apply;
    if steps == [] {
    } else {
      var init := steps[..|steps| - 1];
      QuietRun(cfg, s, init);
      RunKeeps(cfg, s, init);
      StepKeeps(cfg, Run(cfg, s, init), steps[|steps| - 1]);
    }
  }

  /** The set handed out at one boundary is the waiting list built at the boundary before, whatever
      is called in between; an empty list repeats the previous set. */
  lemma PipelineDelay(cfg: Config, s: State, keys: set<AccountId>, between: seq<Step>)
    requires Reachable(cfg, s)
    requires Rotations(between) == 0 && Feasible(cfg, Rotate(cfg, s, keys), between)
    ensures Handed(cfg, Run(cfg, Rotate(cfg, s, keys), between))
         == if EndSession(cfg, s).waiting == [] then Handed(cfg, s) else EndSession(cfg, s).waiting
  {
    var t := Rotate(cfg, s, keys);
    ReachableHolds(cfg, s);
    RotateKeeps(cfg, s, keys);
    RotateSeats(cfg, s, keys);
    QuietRun(cfg, t, between);
    HandedSet(cfg, Run(cfg, t, between));
  }

  // ---------- from waiting to validating ----------

  /** Waiting is enough: an account with session keys that waits at one boundary validates from the
      next boundary on, whatever is called in between. */
  lemma WaitingWillValidate(cfg: Config, s: State, keys: set<AccountId>, between: seq<Step>,
                            later: set<AccountId>, who: AccountId)
    requires Reachable(cfg, s) && who in s.waiting && who in keys
    requires Rotations(between) == 0 && Feasible(cfg, Rotate(cfg, s, keys), between)
    ensures who in Handed(cfg, s) && who in Rotate(cfg, s, keys).queued
    ensures who in Rotate(cfg, Run(cfg, Rotate(cfg, s, keys), between), later).validators
  {
    hide Rotate, Handed, Run, Feasible, Inv, Reachable;
    var t := Rotate(cfg, s, keys);
    ReachableHolds(cfg, s);
    RotateKeeps(cfg, s, keys);
    RotateSeats(cfg, s, keys);
    KeyedMembers(t.invulnerables, keys, who);
    QuietRun(cfg, t, between);
    RotateSeats(cfg, Run(cfg, t, between), later);
  }

  /** Whoever is put on the waiting list at one boundary and has session keys at the next validates
      from the one after that on, whatever is called in between. */
  lemma ElectedWillValidate(cfg: Config, s: State, first: set<AccountId>, before: seq<Step>, keys: set<AccountId>,
                            between: seq<Step>, last: set<AccountId>, who: AccountId)
    requires Reachable(cfg, s) && who in Rotate(cfg, s, first).waiting && who in keys
    requires Rotations(before) == 0 && Feasible(cfg, Rotate(cfg, s, first), before)
    requires Rotations(between) == 0
    requires Feasible(cfg, Rotate(cfg, Run(cfg, Rotate(cfg, s, first), before), keys), between)
    ensures var second := Rotate(cfg, Run(cfg, Rotate(cfg, s, first), before), keys);
            who in Rotate(cfg, Run(cfg, second, between), last).validators
  {
    hide Run, Feasible, Reachable, Inv, Rotate;
    var t := Rotate(cfg, s, first);
    ReachableHolds(cfg, s);
    RotateKeeps(cfg, s, first);
    RotateApplies(cfg, s, RotateStep(first));
    ReachableStep(cfg, s, RotateStep(first));
    QuietRun(cfg, t, before);
    ReachableOnward(cfg, t, before);
    WaitingWillValidate(cfg, Run(cfg, t, before), keys, between, last, who);
  }
}
