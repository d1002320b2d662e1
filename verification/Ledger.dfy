/** The reserve ledger against bonds and stakes. */
module Ledger {
  import opened Types
  import opened Registry
  import opened Stakes
  import opened Dispatch
  import opened Sessions
  import opened Runs
  import opened Effects
  import opened Invariants
  import opened Boundary
  import opened Safety
  import opened Agreement

  function BondOf(s: State, who: AccountId): nat {
    match Look(s.proposed, who)
    case None => 0
    case Some(c) => c.bond
  }

  /** What `who` has staked behind each candidate. */
  function StakeMap(delegations: map<AccountId, seq<Delegation>>, who: AccountId): map<AccountId, nat> {
    map c | c in delegations :: StakeOf(delegations[c], who)
  }

  ghost function StakesBy(delegations: map<AccountId, seq<Delegation>>, who: AccountId): nat {
    Sum(StakeMap(delegations, who))
  }

  ghost predicate AccountCovered(s: State, who: AccountId) {
    BondOf(s, who) + StakesBy(s.delegations, who) <= Balance(s.reserved, who)
  }

  /** Every bond and stake is backed by reserves, and the issuance fits a balance. */
  ghost predicate Covered(s: State) {
    && (forall a :: AccountCovered(s, a))
    && Sum(s.free) + Sum(s.reserved) <= MAX_BALANCE
  }

  /** Corrections do not dip into the caller's own stakes; the rest of the chain does not touch
      reserves held for this pallet, nor mint beyond a balance. */
  ghost predicate Backed(s: State, step: Step) {
    match step
    case CorrectStep(who, amount) =>
      Correct(s, who, amount).Ok? ==>
        Released(s, who, amount) + StakesBy(s.delegations, who) <= Balance(s.reserved, who)
    case LedgerStep(free, reserved) => Covered(s.(free := free, reserved := reserved))
    case _ => true
  }

  /** Reserves that stop being a bond without being released, or come from elsewhere. */
  function ResidueStep(cfg: Config, s: State, step: Step, who: AccountId): int {
    match step
    case RotateStep(keys) => if Has(Rotate(cfg, s, keys).proposed, who) then 0 else BondOf(s, who)
    case CorrectStep(a, amount) =>
      if a == who && Correct(s, a, amount).Ok? then BondOf(s, who) - Released(s, who, amount) else 0
    case LedgerStep(_, reserved) => Balance(reserved, who) - Balance(s.reserved, who)
    case _ => 0
  }

  // ---------- sums over one account's stakes ----------

  function Behind(delegations: map<AccountId, seq<Delegation>>, candidate: AccountId): seq<Delegation> {
    if candidate in delegations then delegations[candidate] else []
  }

  lemma StakesPut(delegations: map<AccountId, seq<Delegation>>, candidate: AccountId, ds: seq<Delegation>,
                  who: AccountId)
    ensures StakesBy(delegations[candidate := ds], who)
         == StakesBy(delegations, who) - StakeOf(Behind(delegations, candidate), who) + StakeOf(ds, who)
    ensures StakeOf(Behind(delegations, candidate), who) <= StakesBy(delegations, who)
  {
    var m := StakeMap(delegations, who);
    assert StakeMap(delegations[candidate := ds], who) == m[candidate := StakeOf(ds, who)];
    SumUpdate(m, candidate, StakeOf(ds, who));
  }

  lemma StakesDrop(delegations: map<AccountId, seq<Delegation>>, candidate: AccountId, who: AccountId)
    ensures StakesBy(delegations - {candidate}, who)
         == StakesBy(delegations, who) - StakeOf(Behind(delegations, candidate), who)
  {
    var m := StakeMap(delegations, who);
    assert StakeMap(delegations - {candidate}, who) == m - {candidate};
    SumRemove(m, candidate);
  }

  // ---------- no saturation ----------

  lemma StakeWithin(s: State, candidate: AccountId, i: nat)
    requires DistinctDelegators(DelegationsOf(s, candidate)) && i < |DelegationsOf(s, candidate)|
    ensures var d := DelegationsOf(s, candidate)[i]; d.stake <= StakesBy(s.delegations, d.delegator)
  {
    var ds := DelegationsOf(s, candidate);
    StakeAt(ds, i);
    StakesPut(s.delegations, candidate, ds, ds[i].delegator);
  }

  lemma BondAndStakesWithin(cfg: Config, s: State, candidate: AccountId)
    requires DelegationsOk(cfg, s.delegations) && Covered(s)
    ensures BondOf(s, candidate) + Total(DelegationsOf(s, candidate)) <= MAX_BALANCE
  {
    var ds := DelegationsOf(s, candidate);
    var all := ds + [Delegation(candidate, BondOf(s, candidate))];
    assert AccountCovered(s, candidate);
    forall i | 0 <= i < |all|
      ensures all[i].stake <= Balance(s.reserved, all[i].delegator)
    {
      if i < |ds| {
        StakeWithin(s, candidate, i);
        assert AccountCovered(s, ds[i].delegator);
      }
    }
    TotalCovered(all, s.reserved);
    assert all[..|ds|] == ds;
  }

  /** Covered stakes never saturate: totals and ranking keys are true sums. */
  lemma NothingSaturates(cfg: Config, s: State, candidate: AccountId)
    requires Inv(cfg, s) && Covered(s)
    ensures Fold(DelegationsOf(s, candidate)) == Total(DelegationsOf(s, candidate))
    ensures Has(s.proposed, candidate) ==>
              var c := Look(s.proposed, candidate).value; Key(c) == c.bond + c.totalStake
  {
    BondAndStakesWithin(cfg, s, candidate);
    FoldIsCappedTotal(DelegationsOf(s, candidate));
    assert AccountOk(cfg, s, candidate);
  }

  // ---------- one step ----------

  ghost function Issuance(s: State): nat {
    Sum(s.free) + Sum(s.reserved)
  }

  lemma ReserveIssuance(s: State, who: AccountId, amount: nat)
    requires amount <= Balance(s.free, who)
    ensures Issuance(Reserve(s, who, amount)) == Issuance(s)
  {
    SumUpdate(s.free, who, Balance(s.free, who) - amount);
    SumUpdate(s.reserved, who, Balance(s.reserved, who) + amount);
  }

  lemma UnreserveIssuance(s: State, who: AccountId, amount: nat)
    ensures Issuance(Unreserve(s, who, amount)) == Issuance(s)
  {
    var actual := Released(s, who, amount);
    SumUpdate(s.free, who, Balance(s.free, who) + actual);
    SumUpdate(s.reserved, who, Balance(s.reserved, who) - actual);
  }

  /** What is reserved beyond what this pallet accounts for. */
  ghost function Residue(s: State, who: AccountId): int {
    Balance(s.reserved, who) - BondOf(s, who) - StakesBy(s.delegations, who)
  }

  lemma BondWrites(cfg: Config, s: State, step: Step)
    requires step.BondStep? && Call(cfg, s, step).Ok?
    ensures Has(s.proposed, step.who)
    ensures var t, bond := Call(cfg, s, step).state, Look(s.proposed, step.who).value.bond;
      && t.delegations == s.delegations
      && (step.newBond > bond ==>
            && step.newBond - bond <= Balance(s.free, step.who)
            && t.free == Reserve(s, step.who, step.newBond - bond).free
            && t.reserved == Reserve(s, step.who, step.newBond - bond).reserved)
      && (step.newBond < bond ==>
            && t.free == Unreserve(s, step.who, bond - step.newBond).free
            && t.reserved == Unreserve(s, step.who, bond - step.newBond).reserved)
      && (step.newBond == bond ==> t.free == s.free && t.reserved == s.reserved)
  {
    hide Find, Sort;
  }

  lemma BondConserves(cfg: Config, s: State, step: Step, who: AccountId)
    requires Unique(s.proposed) && step.BondStep? && Call(cfg, s, step).Ok?
    requires BondOf(s, step.who) <= Balance(s.reserved, step.who)
    ensures var t := Call(cfg, s, step).state;
      Residue(t, who) == Residue(s, who) && Issuance(t) == Issuance(s)
  {
    hide Call, Sum, StakesBy, Find;
    CallLook(cfg, s, step, who);
    BondWrites(cfg, s, step);
    var t, bond := Call(cfg, s, step).state, BondOf(s, step.who);
    assert bond == Look(s.proposed, step.who).value.bond;
    assert BondOf(t, who) == if who == step.who then step.newBond else BondOf(s, who);
    hide BondOf, Look;
    if step.newBond > bond {
      ReserveIssuance(s, step.who, step.newBond - bond);
    } else if step.newBond < bond {
      UnreserveIssuance(s, step.who, bond - step.newBond);
    }
  }

  lemma CorrectConserves(cfg: Config, s: State, step: Step, who: AccountId)
    requires Unique(s.proposed) && step.CorrectStep? && Call(cfg, s, step).Ok?
    ensures var t := Call(cfg, s, step).state;
      && Residue(t, who) == Residue(s, who) + ResidueStep(cfg, s, step, who)
      && Issuance(t) == Issuance(s)
  {
    CallLook(cfg, s, step, who);
    UnreserveIssuance(s, step.who, step.amount);
  }

  lemma StakingKeepsBonds(cfg: Config, s: State, step: Step, who: AccountId)
    requires Unique(s.proposed) && (step.StakeStep? || step.UnstakeStep?) && Call(cfg, s, step).Ok?
    ensures BondOf(Call(cfg, s, step).state, who) == BondOf(s, who)
  {
    CallLook(cfg, s, step, who);
  }

  lemma AddedStakesBy(s: State, candidate: AccountId, caller: AccountId, amount: nat, who: AccountId)
    requires DistinctDelegators(DelegationsOf(s, candidate))
    requires StakesBy(s.delegations, caller) <= Balance(s.reserved, caller) && Issuance(s) <= MAX_BALANCE
    requires amount <= Balance(s.free, caller)
    ensures StakesBy(s.delegations[candidate := Added(DelegationsOf(s, candidate), caller, amount)], who)
         == StakesBy(s.delegations, who) + (if who == caller then amount else 0)
  {
    var ds := DelegationsOf(s, candidate);
    AddedStakes(ds, caller, amount, who);
    StakesPut(s.delegations, candidate, Added(ds, caller, amount), who);
    StakesPut(s.delegations, candidate, ds, caller);
    SumUpdate(s.free, caller, 0);
    SumUpdate(s.reserved, caller, 0);
  }

  lemma StakeWrites(cfg: Config, s: State, step: Step)
    requires step.StakeStep? && Call(cfg, s, step).Ok?
    ensures step.amount <= Balance(s.free, step.who) && Has(s.proposed, step.candidate)
    ensures var t, r := Call(cfg, s, step).state, Reserve(s, step.who, step.amount);
      && t.free == r.free && t.reserved == r.reserved
      && t.delegations
         == s.delegations[step.candidate := Added(DelegationsOf(s, step.candidate), step.who, step.amount)]
      && SameSeats(s, t)
  {
    hide Find, Sort, Fold, Added;
  }

  lemma StakeConserves(cfg: Config, s: State, step: Step, who: AccountId)
    requires Unique(s.proposed) && step.StakeStep? && Call(cfg, s, step).Ok?
    requires DistinctDelegators(DelegationsOf(s, step.candidate))
    requires StakesBy(s.delegations, step.who) <= Balance(s.reserved, step.who) && Issuance(s) <= MAX_BALANCE
    ensures var t := Call(cfg, s, step).state;
      Residue(t, who) == Residue(s, who) && Issuance(t) == Issuance(s)
  {
    hide Call, BondOf, Added, Sum, StakesBy;
    StakingKeepsBonds(cfg, s, step, who);
    StakeWrites(cfg, s, step);
    ReserveIssuance(s, step.who, step.amount);
    AddedStakesBy(s, step.candidate, step.who, step.amount, who);
  }

  lemma RemovedStakesBy(delegations: map<AccountId, seq<Delegation>>, candidate: AccountId, caller: AccountId,
                        who: AccountId)
    requires DistinctDelegators(Behind(delegations, candidate))
    requires FindDelegator(Behind(delegations, candidate), caller) < |Behind(delegations, candidate)|
    ensures var ds := Behind(delegations, candidate);
      StakesBy(if Removed(ds, caller) == [] then delegations - {candidate}
               else delegations[candidate := Removed(ds, caller)], who)
      == StakesBy(delegations, who) - (if who == caller then StakeOf(ds, caller) else 0)
    ensures StakeOf(Behind(delegations, candidate), caller) <= StakesBy(delegations, caller)
  {
    var ds := Behind(delegations, candidate);
    var rest := Removed(ds, caller);
    RemovedStakes(ds, caller, who);
    StakesPut(delegations, candidate, rest, who);
    StakesPut(delegations, candidate, ds, caller);
    StakesDrop(delegations, candidate, who);
  }

  lemma UnstakeWrites(cfg: Config, s: State, step: Step)
    requires step.UnstakeStep? && Call(cfg, s, step).Ok?
    ensures FindDelegator(DelegationsOf(s, step.candidate), step.who) < |DelegationsOf(s, step.candidate)|
    ensures var t, ds := Call(cfg, s, step).state, DelegationsOf(s, step.candidate);
            var r := Unreserve(s, step.who, StakeOf(ds, step.who));
      && t.free == r.free && t.reserved == r.reserved
      && t.delegations
         == (if Removed(ds, step.who) == [] then s.delegations - {step.candidate}
             else s.delegations[step.candidate := Removed(ds, step.who)])
      && SameSeats(s, t)
  {
    hide Find, Sort, Fold, Removed, FindDelegator;
  }

  /** A backed unstake frees exactly the recorded stake. */
  lemma UnstakeConserves(cfg: Config, s: State, step: Step, who: AccountId)
    requires Unique(s.proposed) && step.UnstakeStep? && Call(cfg, s, step).Ok?
    requires DistinctDelegators(DelegationsOf(s, step.candidate))
    requires StakesBy(s.delegations, step.who) <= Balance(s.reserved, step.who)
    ensures var t := Call(cfg, s, step).state;
      && Residue(t, who) == Residue(s, who) && Issuance(t) == Issuance(s)
      && Balance(t.free, who)
         == Balance(s.free, who)
            + (if who == step.who then StakeOf(DelegationsOf(s, step.candidate), who) else 0)
  {
    hide Call, BondOf, Removed, Sum, StakesBy, FindDelegator;
    StakingKeepsBonds(cfg, s, step, who);
    UnstakeWrites(cfg, s, step);
    assert Behind(s.delegations, step.candidate) == DelegationsOf(s, step.candidate);
    RemovedStakesBy(s.delegations, step.candidate, step.who, who);
    UnreserveIssuance(s, step.who, StakeOf(DelegationsOf(s, step.candidate), step.who));
  }

  // ---------- what each call moves ----------

  /** What a successful call takes from the caller's free balance into its reserves; what it puts
      back is limited by what is reserved. */
  function Moved(s: State, step: Step): int
    requires IsCall(step)
  {
    match step
    case BondStep(who, newBond, _) =>
      if newBond >= BondOf(s, who) then newBond - BondOf(s, who)
      else -Min(BondOf(s, who) - newBond, Balance(s.reserved, who))
    case StakeStep(_, _, amount, _) => amount
    case UnstakeStep(who, candidate) =>
      -Min(StakeOf(DelegationsOf(s, candidate), who), Balance(s.reserved, who))
    case CorrectStep(who, amount) => -Min(amount, Balance(s.reserved, who))
    case _ => 0
  }

  lemma OtherMoves(cfg: Config, s: State, step: Step)
    requires IsCall(step) && Call(cfg, s, step).Ok?
    requires !step.BondStep? && !step.StakeStep? && !step.UnstakeStep?
    ensures var t := Call(cfg, s, step).state;
            if step.CorrectStep? then
              && t.free == Unreserve(s, step.who, step.amount).free
              && t.reserved == Unreserve(s, step.who, step.amount).reserved
            else t.free == s.free && t.reserved == s.reserved
  {
    hide Unreserve, Find, Sort, Without;
  }

  lemma BondMoves(cfg: Config, s: State, step: Step, who: AccountId)
    requires step.BondStep? && Call(cfg, s, step).Ok?
    ensures var t := Call(cfg, s, step).state;
      && Balance(t.free, who) == Balance(s.free, who) - (if who == step.who then Moved(s, step) else 0)
      && Balance(t.reserved, who) == Balance(s.reserved, who) + (if who == step.who then Moved(s, step) else 0)
  {
    BondWrites(cfg, s, step);
    assert BondOf(s, step.who) == Look(s.proposed, step.who).value.bond;
    hide Call, BondOf, Look, Find;
  }

  /** Money moves between the caller's own free and reserved balance only, by exactly this much. */
  lemma CallMoves(cfg: Config, s: State, step: Step, who: AccountId)
    requires IsCall(step) && Call(cfg, s, step).Ok?
    ensures var t := Call(cfg, s, step).state;
      && Balance(t.free, who) == Balance(s.free, who) - (if who == step.who then Moved(s, step) else 0)
      && Balance(t.reserved, who) == Balance(s.reserved, who) + (if who == step.who then Moved(s, step) else 0)
  {
    hide Call, StakeOf, BondOf, Look, Find;
    if step.BondStep? {
      BondMoves(cfg, s, step, who);
      hide Moved, Balance;
    } else if step.StakeStep? {
      StakeWrites(cfg, s, step);
    } else if step.UnstakeStep? {
      UnstakeWrites(cfg, s, step);
    } else {
      OtherMoves(cfg, s, step);
    }
  }

  // ---------- runs ----------

  lemma OtherConserves(cfg: Config, s: State, step: Step, who: AccountId)
    requires Unique(s.proposed) && IsCall(step) && Call(cfg, s, step).Ok?
    requires step.RegisterStep? || step.CommissionStep? || step.OfflineStep? || step.LeaveStep?
    ensures var t := Call(cfg, s, step).state;
      Residue(t, who) == Residue(s, who) && Issuance(t) == Issuance(s)
  {
    CallLook(cfg, s, step, who);
    hide Find, Sort, Sum, Without;
  }

  lemma CallConserves(cfg: Config, s: State, step: Step, who: AccountId)
    requires Inv(cfg, s) && Covered(s) && IsCall(step) && Call(cfg, s, step).Ok?
    ensures var t := Call(cfg, s, step).state;
      && Residue(t, who) == Residue(s, who) + ResidueStep(cfg, s, step, who)
      && Issuance(t) == Issuance(s)
  {
    assert AccountCovered(s, step.who);
    hide Call, Balance, Sum;
    match step
    case BondStep(_, _, _) => BondConserves(cfg, s, step, who);
    case CorrectStep(_, _) => CorrectConserves(cfg, s, step, who);
    case StakeStep(_, _, _, _) => StakeConserves(cfg, s, step, who);
    case UnstakeStep(_, _) => UnstakeConserves(cfg, s, step, who);
    case _ => OtherConserves(cfg, s, step, who);
  }

  lemma RotateConserves(cfg: Config, s: State, keys: set<AccountId>, who: AccountId)
    requires Inv(cfg, s)
    ensures var t := Rotate(cfg, s, keys);
      && Residue(t, who) == Residue(s, who) + (if Has(t.proposed, who) then 0 else BondOf(s, who))
      && Issuance(t) == Issuance(s)
  {
    RotateRecord(cfg, s, keys, who);
    RotateSeats(cfg, s, keys);
  }

  lemma BlockConserves(cfg: Config, s: State, author: Option<AccountId>, who: AccountId)
    ensures var t := NewBlock(cfg, s, author);
      Residue(t, who) == Residue(s, who) && Issuance(t) == Issuance(s)
  {
    BlockLook(cfg, s, author, who);
    BlockSeats(cfg, s, author);
    hide NewBlock;
  }

  /** Per step and account: reserves change by exactly the change in bond, stakes and residue. */
  lemma StepConserves(cfg: Config, s: State, step: Step, who: AccountId)
    requires Inv(cfg, s) && Covered(s)
    ensures Residue(Apply(cfg, s, step), who) == Residue(s, who) + ResidueStep(cfg, s, step, who)
    ensures !step.LedgerStep? ==> Issuance(Apply(cfg, s, step)) == Issuance(s)
  {
    if IsCall(step) {
      if Call(cfg, s, step).Ok? {
        CallConserves(cfg, s, step, who);
      }
    } else if step.BlockStep? {
      BlockConserves(cfg, s, step.author, who);
    } else if step.RotateStep? {
      RotateConserves(cfg, s, step.keys, who);
    }
  }

  lemma StepCovers(cfg: Config, s: State, step: Step)
    requires Inv(cfg, s) && Covered(s) && Backed(s, step)
    ensures Covered(Apply(cfg, s, step))
  {
    var t := Apply(cfg, s, step);
    StepConserves(cfg, s, step, 0);
    forall a
      ensures AccountCovered(t, a)
    {
      assert AccountCovered(s, a);
      if step.LedgerStep? {
        assert AccountCovered(s.(free := step.free, reserved := step.reserved), a);
      } else {
        StepConserves(cfg, s, step, a);
      }
    }
  }

  /** A correction that releases more than the caller's residue and bond uncovers its stakes. */
  lemma CorrectUncovers(cfg: Config, s: State, step: Step)
    requires Inv(cfg, s) && Covered(s) && step.CorrectStep? && !Backed(s, step)
    ensures !AccountCovered(Apply(cfg, s, step), step.who)
  {
    CallConserves(cfg, s, step, step.who);
    CallLook(cfg, s, step, step.who);
    hide Call, Sum, Inv, Covered;
  }

  /** A covered state stays covered over a step exactly when the step is backed. */
  lemma StepCoversExactly(cfg: Config, s: State, step: Step)
    requires Inv(cfg, s) && Covered(s)
    ensures Covered(Apply(cfg, s, step)) <==> Backed(s, step)
  {
    hide Inv;
    if Backed(s, step) {
      StepCovers(cfg, s, step);
    } else if step.CorrectStep? {
      hide Apply, Backed;
      CorrectUncovers(cfg, s, step);
    }
  }

  ghost predicate BackedRun(cfg: Config, s: State, steps: seq<Step>) {
    forall k {:trigger steps[k]} :: 0 <= k < |steps| ==> Backed(Run(cfg, s, steps[..k]), steps[k])
  }

  /** The residue a whole run leaves: orphaned bonds, less corrections, plus outside reserves. */
  function RunResidue(cfg: Config, s: State, steps: seq<Step>, who: AccountId): int {
    if steps == [] then 0
    else
      var init := steps[..|steps| - 1];
      RunResidue(cfg, s, init, who) + ResidueStep(cfg, Run(cfg, s, init), steps[|steps| - 1], who)
  }

  lemma ResidueCovered(s: State, who: AccountId)
    requires Covered(s)
    ensures Residue(s, who) >= 0
    ensures Balance(s.reserved, who) == BondOf(s, who) + StakesBy(s.delegations, who) + Residue(s, who)
  {
    assert AccountCovered(s, who);
  }

  /** On every backed run, reserves equal bond plus stakes plus the residue that the history
      explains, and this remainder is never negative. */
  lemma {:induction false} ReserveConservation(cfg: Config, s: State, steps: seq<Step>, who: AccountId)
    requires Reachable(cfg, s) && Feasible(cfg, s, steps)
    requires Covered(s) && BackedRun(cfg, s, steps)
    ensures Covered(Run(cfg, s, steps))
    ensures var t := Run(cfg, s, steps);
      && Balance(t.reserved, who)
         == BondOf(t, who) + StakesBy(t.delegations, who) + Residue(s, who) + RunResidue(cfg, s, steps, who)
      && Residue(s, who) + RunResidue(cfg, s, steps, who) >= 0
  {
    hide Apply, Inv, Reachable, ResidueStep, Backed, Residue;
    ReachableHolds(cfg, s);
    if steps == [] {
    } else {
      var init, last := steps[..|steps| - 1], steps[|steps| - 1];
      forall k | 0 <= k < |init|
        ensures Backed(Run(cfg, s, init[..k]), init[k])
      {
        assert steps[k] == init[k] && init[..k] == steps[..k];
      }
      ReserveConservation(cfg, s, init, who);
      RunKeeps(cfg, s, init);
      var t := Run(cfg, s, init);
      ResidueCovered(t, who);
      hide Covered;
      assert Backed(t, last);
      StepCovers(cfg, t, last);
      StepConserves(cfg, t, last, who);
    }
    ResidueCovered(Run(cfg, s, steps), who);
  }

  /** The state is covered after every prefix of the run. */
  ghost predicate CoveredThroughout(cfg: Config, s: State, steps: seq<Step>) {
    forall k :: 0 <= k <= |steps| ==> Covered(Run(cfg, s, steps[..k]))
  }

  lemma CoveredAt(cfg: Config, s: State, steps: seq<Step>, k: nat)
    requires Reachable(cfg, s) && Feasible(cfg, s, steps) && k < |steps|
    requires Covered(Run(cfg, s, steps[..k]))
    ensures Covered(Run(cfg, s, steps[..k + 1])) <==> Backed(Run(cfg, s, steps[..k]), steps[k])
  {
    hide Run, Feasible, Reachable, Inv, Covered, Backed, Apply;
    FeasiblePrefix(cfg, s, steps, k);
    ReachableOnward(cfg, s, steps[..k]);
    ReachableHolds(cfg, Run(cfg, s, steps[..k]));
    StepCoversExactly(cfg, Run(cfg, s, steps[..k]), steps[k]);
    RunPrefix(cfg, s, steps, k);
  }

  lemma {:induction false} CoveredUpTo(cfg: Config, s: State, steps: seq<Step>, k: nat)
    requires Reachable(cfg, s) && Feasible(cfg, s, steps) && k <= |steps|
    requires Covered(s) && BackedRun(cfg, s, steps)
    ensures Covered(Run(cfg, s, steps[..k]))
  {
    hide Feasible, Reachable, Covered, Backed, Apply;
    if k == 0 {
    } else {
      CoveredUpTo(cfg, s, steps, k - 1);
      CoveredAt(cfg, s, steps, k - 1);
      assert Backed(Run(cfg, s, steps[..k - 1]), steps[k - 1]);
    }
  }

  /** Every bond and stake stays backed all through a run exactly when it starts covered and every
      step of the run is backed. */
  lemma CoveredExactly(cfg: Config, s: State, steps: seq<Step>)
    requires Reachable(cfg, s) && Feasible(cfg, s, steps)
    ensures CoveredThroughout(cfg, s, steps) <==> Covered(s) && BackedRun(cfg, s, steps)
  {
    hide Feasible, Reachable, Covered, Backed, Apply;
    if CoveredThroughout(cfg, s, steps) {
      assert Run(cfg, s, steps[..0]) == s;
      forall k | 0 <= k < |steps|
        ensures Backed(Run(cfg, s, steps[..k]), steps[k])
      {
        CoveredAt(cfg, s, steps, k);
        assert Covered(Run(cfg, s, steps[..k + 1]));
      }
    }
    if Covered(s) && BackedRun(cfg, s, steps) {
      forall k | 0 <= k <= |steps|
        ensures Covered(Run(cfg, s, steps[..k]))
      {
        CoveredUpTo(cfg, s, steps, k);
      }
    }
  }

  /** On every backed run totals and ranking keys are true sums. */
  lemma NothingSaturatesOnRuns(cfg: Config, s: State, steps: seq<Step>, candidate: AccountId)
    requires Reachable(cfg, s) && Feasible(cfg, s, steps)
    requires Covered(s) && BackedRun(cfg, s, steps)
    ensures var t := Run(cfg, s, steps);
      && Fold(DelegationsOf(t, candidate)) == Total(DelegationsOf(t, candidate))
      && (Has(t.proposed, candidate) ==>
            var c := Look(t.proposed, candidate).value; Key(c) == c.bond + c.totalStake)
  {
    ReserveConservation(cfg, s, steps, candidate);
    ReachableHolds(cfg, s);
    RunKeeps(cfg, s, steps);
    NothingSaturates(cfg, Run(cfg, s, steps), candidate);
  }

  /** A genesis whose issuance fits a balance is covered: nothing is bonded or staked yet. */
  lemma GenesisCovered(desired: seq<AccountId>, keys: set<AccountId>,
                       free: map<AccountId, nat>, reserved: map<AccountId, nat>)
    ensures Covered(Genesis(desired, keys, free, reserved)) <==> Sum(free) + Sum(reserved) <= MAX_BALANCE
  {
    var s := Genesis(desired, keys, free, reserved);
    forall a
      ensures AccountCovered(s, a)
    {
      assert StakeMap(s.delegations, a) == map[];
    }
  }

  /** After every backed run, a successful unstake gives the caller exactly the stake on record and
      nobody else anything. */
  lemma UnstakeFreesExactly(cfg: Config, s: State, steps: seq<Step>, caller: AccountId, candidate: AccountId,
                            who: AccountId)
    requires Reachable(cfg, s) && Feasible(cfg, s, steps)
    requires Covered(s) && BackedRun(cfg, s, steps)
    requires Unstake(Run(cfg, s, steps), caller, candidate).Ok?
    ensures Balance(Unstake(Run(cfg, s, steps), caller, candidate).state.free, who)
         == Balance(Run(cfg, s, steps).free, who)
            + (if who == caller then StakeOf(DelegationsOf(Run(cfg, s, steps), candidate), caller) else 0)
  {
    hide Run, Feasible, Reachable, BackedRun, Unstake;
    ReserveConservation(cfg, s, steps, caller);
    ReachableHolds(cfg, s);
    RunKeeps(cfg, s, steps);
    var t := Run(cfg, s, steps);
    assert AccountCovered(t, caller);
    assert candidate in t.delegations ==> ListOk(cfg, candidate, t.delegations[candidate]);
    hide Inv, Covered;
    UnstakeConserves(cfg, t, UnstakeStep(caller, candidate), who);
  }

  // ---------- bond_correction ----------

  /** The correction is safe exactly when what it releases leaves the caller's stakes reserved. */
  lemma CorrectionExact(cfg: Config, s: State, who: AccountId, amount: nat)
    requires Reachable(cfg, s) && Covered(s) && Correct(s, who, amount).Ok?
    ensures Covered(Correct(s, who, amount).state)
       <==> Released(s, who, amount) + StakesBy(s.delegations, who) <= Balance(s.reserved, who)
  {
    ReachableHolds(cfg, s);
    var step := CorrectStep(who, amount);
    CallConserves(cfg, s, step, who);
    CallLook(cfg, s, step, who);
    if Backed(s, step) {
      StepCovers(cfg, s, step);
    } else {
      assert !AccountCovered(Correct(s, who, amount).state, who);
    }
  }

  /** A caller without delegations, or one that asks for no more than its reserves less its
      stakes, needs no care. */
  lemma CorrectionSafeAmounts(s: State, who: AccountId, amount: nat)
    requires StakesBy(s.delegations, who) == 0 || amount + StakesBy(s.delegations, who) <= Balance(s.reserved, who)
    ensures Backed(s, CorrectStep(who, amount))
  {
  }

  /** The steps by which an account that is no candidate any more gets reserves back. */
  function Recovery(who: AccountId, amount: nat): seq<Step> {
    [RegisterStep(who), OfflineStep(who, true), CorrectStep(who, amount)]
  }

  lemma RecoveryRun(cfg: Config, s: State, who: AccountId, amount: nat)
    ensures var u := Recovery(who, amount);
      && Feasible(cfg, s, u)
      && Run(cfg, s, u) == Apply(cfg, Apply(cfg, Apply(cfg, s, u[0]), u[1]), u[2])
  {
    hide Apply;
    var u := Recovery(who, amount);
    FeasibleWithoutBlocks(cfg, s, u);
    RunPrefix(cfg, s, u, 0);
    RunPrefix(cfg, s, u, 1);
    RunPrefix(cfg, s, u, 2);
    assert u[..0] == [] && u[..3] == u;
  }

  lemma RegistersFresh(cfg: Config, s: State, who: AccountId)
    requires Unique(s.proposed) && !Has(s.proposed, who) && |s.proposed| < cfg.maxCandidates
    ensures var t := Apply(cfg, s, RegisterStep(who));
      && Unique(t.proposed) && t == s.(proposed := t.proposed)
      && Look(t.proposed, who) == Some(NewCandidate(who, s.now))
  {
    AppendUnique(s.proposed, NewCandidate(who, s.now));
    LookAppend(s.proposed, NewCandidate(who, s.now), who);
  }

  lemma PutSize(s: State, c: Candidate)
    requires Unique(s.proposed) && Has(s.proposed, c.who)
    ensures Unique(Put(s, c).proposed) && |Put(s, c).proposed| == |s.proposed|
    ensures Unique(PutAndSort(s, c).proposed) && |PutAndSort(s, c).proposed| == |s.proposed|
  {
    var cs := Put(s, c).proposed;
    SortUnique(cs);
    SortRanks(cs);
  }

  lemma GoesOffline(cfg: Config, s: State, who: AccountId)
    requires Unique(s.proposed) && Look(s.proposed, who).Some?
    ensures var t := Apply(cfg, s, OfflineStep(who, true));
      && Unique(t.proposed) && t == s.(proposed := t.proposed)
      && Look(t.proposed, who) == Some(Look(s.proposed, who).value.(offline := true, lastUpdated := s.now))
  {
    var c := Look(s.proposed, who).value.(offline := true, lastUpdated := s.now);
    PutLook(s, c, who);
    PutSize(s, c);
    hide Unique, Find;
  }

  lemma RegistersOffline(cfg: Config, s: State, who: AccountId)
    requires Unique(s.proposed) && !Has(s.proposed, who) && |s.proposed| < cfg.maxCandidates
    ensures var t := Apply(cfg, Apply(cfg, s, RegisterStep(who)), OfflineStep(who, true));
      && Unique(t.proposed) && SameSeats(s, t) && t.free == s.free && t.reserved == s.reserved
      && Look(t.proposed, who) == Some(NewCandidate(who, s.now).(offline := true))
  {
    var r := Apply(cfg, s, RegisterStep(who));
    RegistersFresh(cfg, s, who);
    hide Unique;
    GoesOffline(cfg, r, who);
    hide Apply;
  }

  lemma Releases(cfg: Config, s: State, who: AccountId, amount: nat)
    requires Look(s.proposed, who).Some? && Look(s.proposed, who).value.offline && !Placed(s, who)
    ensures var t := Apply(cfg, s, CorrectStep(who, amount));
      && Balance(t.free, who) == Balance(s.free, who) + Released(s, who, amount)
      && Balance(t.reserved, who) == Balance(s.reserved, who) - Released(s, who, amount)
  {
    assert Correct(s, who, amount).Ok?;
  }

  /** Reserves left behind by a dropped candidate can be recovered: whoever is not registered, holds
      no genesis seat and finds room on the list gets back what it asks for, up to all it has
      reserved. */
  lemma OrphansRecovered(cfg: Config, s: State, who: AccountId, amount: nat)
    requires Reachable(cfg, s) && !Has(s.proposed, who) && who !in s.desired
    requires |s.proposed| < cfg.maxCandidates
    ensures Feasible(cfg, s, Recovery(who, amount))
    ensures var t := Run(cfg, s, Recovery(who, amount));
      && Balance(t.free, who) == Balance(s.free, who) + Released(s, who, amount)
      && Balance(t.reserved, who) == Balance(s.reserved, who) - Released(s, who, amount)
  {
    ReachableHolds(cfg, s);
    assert AccountOk(cfg, s, who);
    RecoveryRun(cfg, s, who, amount);
    RegistersOffline(cfg, s, who);
    hide Inv, Reachable, Run, Feasible, AccountOk, Unique;
    var r := Apply(cfg, Apply(cfg, s, RegisterStep(who)), OfflineStep(who, true));
    Releases(cfg, r, who, amount);
    hide Apply;
  }

  const UNBACKING: seq<Step> :=
    [RegisterStep(1), RegisterStep(2), StakeStep(1, 2, 50, true), OfflineStep(1, true), CorrectStep(1, 50)]

  lemma UnbackingStakes(cfg: Config, s: State)
    requires cfg.maxDelegations >= 1
    requires s == Genesis([], {}, map[1 := 50], map[]).(proposed := [NewCandidate(1, 0), NewCandidate(2, 0)])
    ensures var t := Apply(cfg, s, UNBACKING[2]);
      && Unique(t.proposed) && SameSeats(s, t)
      && Balance(t.free, 1) == 0 && Balance(t.reserved, 1) == 50
      && t.delegations == map[2 := [Delegation(1, 50)]]
      && Has(t.proposed, 1)
      && Has(t.proposed, 2) && Look(t.proposed, 2).value.totalStake == 50
  {
    var step := UNBACKING[2];
    var t := Call(cfg, s, step).state;
    assert Has(s.proposed, 2);
    assert Call(cfg, s, step).Ok?;
    CallLook(cfg, s, step, 1);
    CallLook(cfg, s, step, 2);
    assert Fold([Delegation(1, 50)]) == 50;
    var cs := s.proposed[Find(s.proposed, 2) := NewRecord(s, step)];
    assert Unique(cs);
    SortUnique(cs);
  }

  lemma UnbackingCorrects(cfg: Config, s: State)
    requires Unique(s.proposed) && s.waiting == s.invulnerables == s.validators == []
    requires Balance(s.free, 1) == 0 && Balance(s.reserved, 1) == 50
    requires Has(s.proposed, 1) && Has(s.proposed, 2)
    ensures var t := Apply(cfg, Apply(cfg, s, UNBACKING[3]), UNBACKING[4]);
      && Balance(t.free, 1) == 50 && Balance(t.reserved, 1) == 0
      && t.delegations == s.delegations
      && Has(t.proposed, 2)
      && Look(t.proposed, 2).value.totalStake == Look(s.proposed, 2).value.totalStake
  {
    var t := Apply(cfg, s, UNBACKING[3]);
    CallLook(cfg, s, UNBACKING[3], 1);
    CallLook(cfg, s, UNBACKING[3], 2);
    var cs := s.proposed[Find(s.proposed, 1) := NewRecord(s, UNBACKING[3])];
    assert Unique(cs);
    SortUnique(cs);
    assert Call(cfg, t, UNBACKING[4]).Ok?;
    CallLook(cfg, t, UNBACKING[4], 2);
  }

  lemma UnbackingRun(cfg: Config, s: State)
    ensures Run(cfg, s, UNBACKING)
         == Apply(cfg, Apply(cfg, Run(cfg, s, UNBACKING[..3]), UNBACKING[3]), UNBACKING[4])
    ensures Run(cfg, s, UNBACKING[..3])
         == Apply(cfg, Apply(cfg, Apply(cfg, s, UNBACKING[0]), UNBACKING[1]), UNBACKING[2])
    ensures Feasible(cfg, s, UNBACKING)
  {
    hide Apply;
    var u := UNBACKING;
    FeasibleWithoutBlocks(cfg, s, u);
    RunPrefix(cfg, s, u, 0);
    RunPrefix(cfg, s, u, 1);
    RunPrefix(cfg, s, u, 2);
    RunPrefix(cfg, s, u, 3);
    RunPrefix(cfg, s, u, 4);
    assert u[..0] == [] && u[..5] == u;
  }

  /** A run from genesis on which a correction takes back a stake that still counts. */
  lemma CorrectionCanUnbackStakes(cfg: Config)
    requires cfg.maxCandidates >= 2 && cfg.maxDelegations >= 1
    ensures Feasible(cfg, Genesis([], {}, map[1 := 50], map[]), UNBACKING)
    ensures var t := Run(cfg, Genesis([], {}, map[1 := 50], map[]), UNBACKING);
      && Balance(t.free, 1) == 50 && Balance(t.reserved, 1) == 0
      && DelegationsOf(t, 2) == [Delegation(1, 50)]
      && Has(t.proposed, 2) && Look(t.proposed, 2).value.totalStake == 50
  {
    var s := Genesis([], {}, map[1 := 50], map[]);
    UnbackingRun(cfg, s);
    var registered := Apply(cfg, Apply(cfg, s, UNBACKING[0]), UNBACKING[1]);
    assert registered.proposed == [NewCandidate(1, 0), NewCandidate(2, 0)];
    UnbackingStakes(cfg, registered);
    UnbackingCorrects(cfg, Apply(cfg, registered, UNBACKING[2]));
  }

  // ---------- stake and unstake ----------

  /** Unstaking behind a candidate with a correct total lowers that total by exactly the stake. */
  lemma UnstakeLowersTotal(cfg: Config, s: State, step: Step)
    requires Reachable(cfg, s) && Covered(s) && step.UnstakeStep? && Call(cfg, s, step).Ok?
    requires InSync(s, step.candidate)
    ensures Has(s.proposed, step.candidate) && Has(Apply(cfg, s, step).proposed, step.candidate)
    ensures Look(Apply(cfg, s, step).proposed, step.candidate).value.totalStake
         == Look(s.proposed, step.candidate).value.totalStake - StakeOf(DelegationsOf(s, step.candidate), step.who)
  {
    ReachableHolds(cfg, s);
    BondAndStakesWithin(cfg, s, step.candidate);
    CallLook(cfg, s, step, step.candidate);
    RemovedFolds(DelegationsOf(s, step.candidate), step.who);
    hide Call, Fold, Removed, Find, StakeOf, Inv, Covered, Total;
  }

  lemma RemovedAdded(ds: seq<Delegation>, who: AccountId, amount: nat)
    requires FindDelegator(ds, who) == |ds|
    ensures Removed(Added(ds, who, amount), who) == ds
    ensures FindDelegator(Added(ds, who, amount), who) == |ds|
  {
    var r := Added(ds, who, amount);
    assert forall k :: 0 <= k < |ds| ==> r[k] == ds[k];
    assert r[|ds|].delegator == who;
  }

  lemma ReserveRoundTrip(s: State, t: State, who: AccountId, amount: nat, other: AccountId)
    requires amount <= Balance(s.free, who)
    requires t.free == Reserve(s, who, amount).free && t.reserved == Reserve(s, who, amount).reserved
    ensures Balance(Unreserve(t, who, amount).free, other) == Balance(s.free, other)
    ensures Balance(Unreserve(t, who, amount).reserved, other) == Balance(s.reserved, other)
  {
  }

  /** The caller of a stake with no earlier delegation can unstake, and gets everything back. */
  lemma UnstakeFollowsStake(cfg: Config, s: State, who: AccountId, candidate: AccountId, amount: nat,
                            other: AccountId)
    requires Unique(s.proposed) && (candidate in s.delegations ==> s.delegations[candidate] != [])
    requires FindDelegator(DelegationsOf(s, candidate), who) == |DelegationsOf(s, candidate)|
    requires Stake(cfg, s, who, candidate, amount, true).Ok?
    ensures var t := Stake(cfg, s, who, candidate, amount, true).state;
      && Unstake(t, who, candidate).Ok?
      && NewDelegations(t, UnstakeStep(who, candidate)) == DelegationsOf(s, candidate)
      && var u := Unstake(t, who, candidate).state;
      && SameSeats(s, u)
      && u.delegations == s.delegations
      && Balance(u.free, other) == Balance(s.free, other)
      && Balance(u.reserved, other) == Balance(s.reserved, other)
  {
    hide Stake, Removed, Sort, Fold, Find;
    var ds := DelegationsOf(s, candidate);
    var t := Stake(cfg, s, who, candidate, amount, true).state;
    RemovedAdded(ds, who, amount);
    StakeWrites(cfg, s, StakeStep(who, candidate, amount, true));
    CallLook(cfg, s, StakeStep(who, candidate, amount, true), candidate);
    assert DelegationsOf(t, candidate) == Added(ds, who, amount);
    hide Added;
    assert StakeOf(Added(ds, who, amount), who) == amount;
    UnstakeWrites(cfg, t, UnstakeStep(who, candidate));
    ReserveRoundTrip(s, t, who, amount, other);
  }

  lemma CallSize(cfg: Config, s: State, step: Step)
    requires Unique(s.proposed) && (step.StakeStep? || step.UnstakeStep?) && Call(cfg, s, step).Ok?
    ensures var t := Call(cfg, s, step).state; Unique(t.proposed) && |t.proposed| == |s.proposed|
  {
    CallPuts(cfg, s, step);
    PutSize(s, NewRecord(s, step));
  }

  lemma StakeSucceeds(cfg: Config, s: State, who: AccountId, candidate: AccountId, amount: nat)
    ensures Stake(cfg, s, who, candidate, amount, true).Ok?
       <==> && who != candidate && Has(s.proposed, candidate) && amount <= Balance(s.free, who)
            && (|| FindDelegator(DelegationsOf(s, candidate), who) < |DelegationsOf(s, candidate)|
                || |DelegationsOf(s, candidate)| < cfg.maxDelegations)
  {
    hide Find, FindDelegator, Recompute, Added;
  }

  lemma ReserveTwice(s: State, r: State, who: AccountId, first: nat, second: nat)
    requires first + second <= Balance(s.free, who)
    requires r.free == Reserve(s, who, first).free && r.reserved == Reserve(s, who, first).reserved
    ensures second <= Balance(r.free, who)
    ensures Reserve(r, who, second).free == Reserve(s, who, first + second).free
    ensures Reserve(r, who, second).reserved == Reserve(s, who, first + second).reserved
  {
  }

  /** What a stake leaves, for the stakes after it. */
  lemma StakeLeaves(cfg: Config, s: State, who: AccountId, candidate: AccountId, amount: nat, other: AccountId)
    requires Unique(s.proposed) && Stake(cfg, s, who, candidate, amount, true).Ok?
    ensures amount <= Balance(s.free, who) && Has(s.proposed, candidate)
    ensures var t, ds := Stake(cfg, s, who, candidate, amount, true).state, DelegationsOf(s, candidate);
      && SameSeats(s, t)
      && t.free == Reserve(s, who, amount).free && t.reserved == Reserve(s, who, amount).reserved
      && t.delegations == s.delegations[candidate := Added(ds, who, amount)]
      && Unique(t.proposed) && Has(t.proposed, candidate)
      && Look(t.proposed, other)
         == if other == candidate
            then var c := Look(s.proposed, candidate).value;
                 Some(c.(totalStake := Fold(Added(ds, who, amount)), lastUpdated := s.now))
            else Look(s.proposed, other)
  {
    var step := StakeStep(who, candidate, amount, true);
    StakeWrites(cfg, s, step);
    CallSize(cfg, s, step);
    CallLook(cfg, s, step, other);
    CallLook(cfg, s, step, candidate);
    hide Stake, Added, Fold, Find, Unique;
  }

  lemma StakeTwiceSucceeds(cfg: Config, s: State, who: AccountId, candidate: AccountId, first: nat, second: nat)
    requires Unique(s.proposed) && first + second <= MAX_BALANCE
    ensures var r := Stake(cfg, s, who, candidate, first, true);
            Stake(cfg, s, who, candidate, first + second, true).Ok?
            <==> r.Ok? && Stake(cfg, r.state, who, candidate, second, true).Ok?
  {
    AddedTwice(DelegationsOf(s, candidate), who, first, second);
    StakeSucceeds(cfg, s, who, candidate, first);
    StakeSucceeds(cfg, s, who, candidate, first + second);
    hide Stake, Added, FindDelegator, Fold, Find, Unique, Look;
    var r := Stake(cfg, s, who, candidate, first, true);
    if r.Ok? {
      StakeLeaves(cfg, s, who, candidate, first, candidate);
      StakeSucceeds(cfg, r.state, who, candidate, second);
    }
  }

  lemma StakeTwiceLeaves(cfg: Config, s: State, who: AccountId, candidate: AccountId, first: nat, second: nat,
                         other: AccountId)
    requires Unique(s.proposed) && first + second <= MAX_BALANCE
    requires Stake(cfg, s, who, candidate, first + second, true).Ok?
    requires Stake(cfg, s, who, candidate, first, true).Ok?
    requires Stake(cfg, Stake(cfg, s, who, candidate, first, true).state, who, candidate, second, true).Ok?
    ensures var t := Stake(cfg, Stake(cfg, s, who, candidate, first, true).state, who, candidate, second, true).state;
            var u := Stake(cfg, s, who, candidate, first + second, true).state;
      && SameSeats(t, u)
      && t.delegations == u.delegations && t.free == u.free && t.reserved == u.reserved
      && Look(t.proposed, other) == Look(u.proposed, other)
  {
    hide Stake, Added, FindDelegator, Fold, Find, Unique, Reserve;
    var r, ds := Stake(cfg, s, who, candidate, first, true).state, DelegationsOf(s, candidate);
    AddedTwice(ds, who, first, second);
    StakeLeaves(cfg, s, who, candidate, first, other);
    StakeLeaves(cfg, s, who, candidate, first, candidate);
    StakeLeaves(cfg, r, who, candidate, second, other);
    StakeLeaves(cfg, s, who, candidate, first + second, other);
    ReserveTwice(s, r, who, first, second);
  }

  /** Staking twice succeeds exactly when staking the sum at once does, and comes to the same. */
  lemma StakeTwice(cfg: Config, s: State, who: AccountId, candidate: AccountId, first: nat, second: nat,
                   other: AccountId)
    requires Unique(s.proposed) && DistinctDelegators(DelegationsOf(s, candidate))
    requires first + second <= MAX_BALANCE
    ensures var once := Stake(cfg, s, who, candidate, first + second, true);
            var r := Stake(cfg, s, who, candidate, first, true);
      && (once.Ok? <==> r.Ok? && Stake(cfg, r.state, who, candidate, second, true).Ok?)
      && (once.Ok? ==>
            var t, u := Stake(cfg, r.state, who, candidate, second, true).state, once.state;
            && SameSeats(t, u)
            && t.delegations == u.delegations && t.free == u.free && t.reserved == u.reserved
            && Look(t.proposed, other) == Look(u.proposed, other)
            && StakeOf(DelegationsOf(t, candidate), who)
               == Min(StakeOf(DelegationsOf(s, candidate), who) + first + second, MAX_BALANCE))
  {
    StakeTwiceSucceeds(cfg, s, who, candidate, first, second);
    if Stake(cfg, s, who, candidate, first + second, true).Ok? {
      StakeTwiceLeaves(cfg, s, who, candidate, first, second, other);
      StakeLeaves(cfg, s, who, candidate, first + second, candidate);
      AddedStakes(DelegationsOf(s, candidate), who, first + second, who);
    }
    hide Stake, Added, FindDelegator, Find, Unique, SameSeats, Look;
  }

  /** Staking behind a synced candidate and unstaking at once restores every balance, the
      delegations and every candidate, up to the time of the last update. */
  lemma StakeUnstakeRoundTrip(cfg: Config, s: State, who: AccountId, candidate: AccountId, amount: nat,
                              other: AccountId)
    requires Reachable(cfg, s)
    requires FindDelegator(DelegationsOf(s, candidate), who) == |DelegationsOf(s, candidate)|
    requires Stake(cfg, s, who, candidate, amount, true).Ok?
    requires InSync(s, candidate)
    ensures var t := Stake(cfg, s, who, candidate, amount, true).state;
      && Unstake(t, who, candidate).Ok?
      && var u := Unstake(t, who, candidate).state;
      && SameSeats(s, u)
      && u.delegations == s.delegations
      && Balance(u.free, other) == Balance(s.free, other)
      && Balance(u.reserved, other) == Balance(s.reserved, other)
      && |u.proposed| == |s.proposed|
      && (other != candidate ==> Look(u.proposed, other) == Look(s.proposed, other))
      && (other == candidate ==>
            Look(u.proposed, other) == Some(Look(s.proposed, other).value.(lastUpdated := s.now)))
  {
    hide Stake, Unstake, Reachable, Balance, Find;
    ReachableHolds(cfg, s);
    assert candidate in s.delegations ==> ListOk(cfg, candidate, s.delegations[candidate]);
    hide Inv, Unique, OnlineRanked;
    var step, back := StakeStep(who, candidate, amount, true), UnstakeStep(who, candidate);
    var t := Call(cfg, s, step).state;
    UnstakeFollowsStake(cfg, s, who, candidate, amount, other);
    StakeWrites(cfg, s, step);
    CallSize(cfg, s, step);
    CallSize(cfg, t, back);
    CallLook(cfg, s, step, other);
    CallLook(cfg, t, back, other);
  }
}
