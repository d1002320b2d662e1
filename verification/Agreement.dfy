/** Recorded totals against the delegations behind them. */
module Agreement {
  import opened Types
  import opened Registry
  import opened Stakes
  import opened Dispatch
  import opened Sessions
  import opened Runs
  import opened Effects
  import opened Invariants
  import opened Boundary
  import opened Safety

  predicate InSync(s: State, who: AccountId) {
    match Look(s.proposed, who)
    case None => true
    case Some(c) => c.totalStake == Fold(DelegationsOf(s, who))
  }

  /** A recorded total never exceeds what is delegated. */
  lemma TotalNeverAhead(cfg: Config, s: State, who: AccountId)
    requires Reachable(cfg, s) && Has(s.proposed, who)
    ensures Look(s.proposed, who).value.totalStake <= Fold(DelegationsOf(s, who))
  {
    ReachableHolds(cfg, s);
    assert AccountOk(cfg, s, who);
  }

  /** Any successful stake or unstake behind a candidate puts its total right. */
  lemma StakingSyncs(cfg: Config, s: State, step: Step)
    requires Unique(s.proposed) && IsCall(step) && Call(cfg, s, step).Ok?
    requires step.StakeStep? || step.UnstakeStep?
    ensures Has(Apply(cfg, s, step).proposed, step.candidate)
    ensures InSync(Apply(cfg, s, step), step.candidate)
  {
    CallLook(cfg, s, step, step.candidate);
    CallDelegations(cfg, s, step, step.candidate);
  }

  /** A stake behind a candidate with a correct total raises that total by its amount, up to the
      largest balance. */
  lemma StakeRaisesTotal(cfg: Config, s: State, step: Step)
    requires Unique(s.proposed) && step.StakeStep? && Call(cfg, s, step).Ok?
    requires InSync(s, step.candidate)
    ensures Has(s.proposed, step.candidate) && Has(Apply(cfg, s, step).proposed, step.candidate)
    ensures Look(Apply(cfg, s, step).proposed, step.candidate).value.totalStake
         == Min(Look(s.proposed, step.candidate).value.totalStake + step.amount, MAX_BALANCE)
  {
    CallLook(cfg, s, step, step.candidate);
    AddedFolds(DelegationsOf(s, step.candidate), step.who, step.amount);
    hide Call, Fold, Added, Find;
  }

  /** Registering is the one call that can leave the total behind, exactly when stakes of an
      earlier candidacy are still outstanding. */
  lemma RegisteringSyncs(cfg: Config, s: State, who: AccountId)
    requires Unique(s.proposed) && Register(cfg, s, who).Ok?
    ensures InSync(Register(cfg, s, who).state, who) <==> Fold(DelegationsOf(s, who)) == 0
  {
    CallLook(cfg, s, RegisterStep(who), who);
  }

  /** The step does not put `who` on the list over outstanding stakes. */
  predicate FreshStart(cfg: Config, s: State, step: Step, who: AccountId) {
    step == RegisterStep(who) && Register(cfg, s, who).Ok? ==> Fold(DelegationsOf(s, who)) == 0
  }

  lemma CallSynced(cfg: Config, s: State, step: Step, who: AccountId)
    requires Unique(s.proposed) && InSync(s, who)
    requires IsCall(step) && Call(cfg, s, step).Ok?
    ensures InSync(Call(cfg, s, step).state, who) <==> FreshStart(cfg, s, step, who)
  {
    CallLook(cfg, s, step, who);
    CallDelegations(cfg, s, step, who);
    if step.RegisterStep? {
      hide Fold, Find;
    } else {
      hide Call, Fold, Find;
    }
  }

  lemma RotateSynced(cfg: Config, s: State, keys: set<AccountId>, who: AccountId)
    requires Unique(s.proposed) && InSync(s, who)
    ensures InSync(Rotate(cfg, s, keys), who)
  {
    RotateRecord(cfg, s, keys, who);
    RotateSeats(cfg, s, keys);
    hide Rotate;
  }

  lemma BlockSynced(cfg: Config, s: State, author: Option<AccountId>, who: AccountId)
    requires InSync(s, who)
    ensures InSync(NewBlock(cfg, s, author), who)
  {
    BlockLook(cfg, s, author, who);
    BlockSeats(cfg, s, author);
    hide NewBlock;
  }

  /** A correct total stays correct over a step exactly when the step is no registration over
      outstanding stakes. */
  lemma StepSynced(cfg: Config, s: State, step: Step, who: AccountId)
    requires Unique(s.proposed) && InSync(s, who)
    ensures InSync(Apply(cfg, s, step), who) <==> FreshStart(cfg, s, step, who)
  {
    if IsCall(step) {
      if Call(cfg, s, step).Ok? {
        CallSynced(cfg, s, step, who);
        hide InSync, FreshStart;
      }
    } else if step.BlockStep? {
      BlockSynced(cfg, s, step.author, who);
      hide NewBlock;
    } else if step.RotateStep? {
      RotateSynced(cfg, s, step.keys, who);
      hide Rotate;
    }
  }

  predicate FreshStarts(cfg: Config, s: State, steps: seq<Step>, who: AccountId) {
    forall k {:trigger steps[k]} :: 0 <= k < |steps| ==> FreshStart(cfg, Run(cfg, s, steps[..k]), steps[k], who)
  }

  /** The total of `who` is correct after every prefix of the run. */
  predicate SyncedThroughout(cfg: Config, s: State, steps: seq<Step>, who: AccountId) {
    forall k :: 0 <= k <= |steps| ==> InSync(Run(cfg, s, steps[..k]), who)
  }

  lemma SyncedAt(cfg: Config, s: State, steps: seq<Step>, who: AccountId, k: nat)
    requires Reachable(cfg, s) && Feasible(cfg, s, steps) && k < |steps|
    requires InSync(Run(cfg, s, steps[..k]), who)
    ensures InSync(Run(cfg, s, steps[..k + 1]), who) <==> FreshStart(cfg, Run(cfg, s, steps[..k]), steps[k], who)
  {
    hide Run, Feasible, Reachable, InSync, FreshStart, Apply;
    FeasiblePrefix(cfg, s, steps, k);
    ReachableOnward(cfg, s, steps[..k]);
    ReachableHolds(cfg, Run(cfg, s, steps[..k]));
    StepSynced(cfg, Run(cfg, s, steps[..k]), steps[k], who);
    RunPrefix(cfg, s, steps, k);
  }

  lemma {:induction false} SyncedUpTo(cfg: Config, s: State, steps: seq<Step>, who: AccountId, k: nat)
    requires Reachable(cfg, s) && Feasible(cfg, s, steps) && k <= |steps|
    requires InSync(s, who) && FreshStarts(cfg, s, steps, who)
    ensures InSync(Run(cfg, s, steps[..k]), who)
  {
    hide Feasible, Reachable, InSync, FreshStart, Apply;
    if k == 0 {
    } else {
      SyncedUpTo(cfg, s, steps, who, k - 1);
      SyncedAt(cfg, s, steps, who, k - 1);
      assert FreshStart(cfg, Run(cfg, s, steps[..k - 1]), steps[k - 1], who);
    }
  }

  /** A total is correct all through a run exactly when it is correct at the start and the run does
      not register the candidate over outstanding stakes. */
  lemma SyncedExactly(cfg: Config, s: State, steps: seq<Step>, who: AccountId)
    requires Reachable(cfg, s) && Feasible(cfg, s, steps)
    ensures SyncedThroughout(cfg, s, steps, who) <==> InSync(s, who) && FreshStarts(cfg, s, steps, who)
  {
    hide Feasible, Reachable, InSync, FreshStart, Apply;
    if SyncedThroughout(cfg, s, steps, who) {
      assert Run(cfg, s, steps[..0]) == s;
      forall k | 0 <= k < |steps|
        ensures FreshStart(cfg, Run(cfg, s, steps[..k]), steps[k], who)
      {
        SyncedAt(cfg, s, steps, who, k);
        assert InSync(Run(cfg, s, steps[..k + 1]), who);
      }
    }
    if InSync(s, who) && FreshStarts(cfg, s, steps, who) {
      forall k | 0 <= k <= |steps|
        ensures InSync(Run(cfg, s, steps[..k]), who)
      {
        SyncedUpTo(cfg, s, steps, who, k);
      }
    }
  }

  /** In particular it is correct at the end of such a run. */
  lemma RunStaysSynced(cfg: Config, s: State, steps: seq<Step>, who: AccountId)
    requires Reachable(cfg, s) && Feasible(cfg, s, steps)
    requires InSync(s, who) && FreshStarts(cfg, s, steps, who)
    ensures InSync(Run(cfg, s, steps), who)
  {
    hide Run, Feasible, Reachable, InSync, FreshStarts;
    SyncedUpTo(cfg, s, steps, who, |steps|);
    assert steps[..|steps|] == steps;
  }

  // ---------- stakes behind an absent candidate ----------

  predicate StaysAway(cfg: Config, s: State, steps: seq<Step>, who: AccountId) {
    forall k :: 0 <= k <= |steps| ==> !Has(Run(cfg, s, steps[..k]).proposed, who)
  }

  lemma CallTarget(cfg: Config, s: State, step: Step)
    requires IsCall(step) && Call(cfg, s, step).Ok?
    ensures step.StakeStep? || step.UnstakeStep? ==> Has(s.proposed, Target(step))
  {
  }

  lemma StepLocked(cfg: Config, s: State, step: Step, candidate: AccountId)
    requires !Has(s.proposed, candidate)
    ensures DelegationsOf(Apply(cfg, s, step), candidate) == DelegationsOf(s, candidate)
  {
    if IsCall(step) {
      if Call(cfg, s, step).Ok? {
        CallDelegations(cfg, s, step, candidate);
        CallTarget(cfg, s, step);
        hide Call;
      }
    } else if step.RotateStep? {
      RotateSeats(cfg, s, step.keys);
      hide Rotate;
    }
  }

  /** While a candidate is not registered, the delegations behind it can be neither added to nor
      withdrawn: they are locked until it registers again. */
  lemma {:induction false} StakesLocked(cfg: Config, s: State, steps: seq<Step>, candidate: AccountId)
    requires StaysAway(cfg, s, steps, candidate)
    ensures DelegationsOf(Run(cfg, s, steps), candidate) == DelegationsOf(s, candidate)
    ensures forall who :: Unstake(Run(cfg, s, steps), who, candidate).Err?
  {
    assert steps[..|steps|] == steps;
    if steps == [] {
    } else {
      var init, last := steps[..|steps| - 1], steps[|steps| - 1];
      forall k | 0 <= k <= |init|
        ensures !Has(Run(cfg, s, init[..k]).proposed, candidate)
      {
        assert init[..k] == steps[..k];
      }
      StakesLocked(cfg, s, init, candidate);
      hide Unstake;
      StepLocked(cfg, Run(cfg, s, init), last, candidate);
      hide Apply;
    }
  }

  /** A delegator can withdraw exactly when the candidate is registered, and gets its entry removed. */
  lemma WithdrawnExactly(s: State, who: AccountId, candidate: AccountId)
    requires DistinctDelegators(DelegationsOf(s, candidate))
    requires FindDelegator(DelegationsOf(s, candidate), who) < |DelegationsOf(s, candidate)|
    ensures Unstake(s, who, candidate).Ok? <==> Has(s.proposed, candidate)
    ensures Unstake(s, who, candidate).Ok? ==>
              StakeOf(DelegationsOf(Unstake(s, who, candidate).state, candidate), who) == 0
  {
    RemovedStakes(DelegationsOf(s, candidate), who, who);
    hide Removed, Find, FindDelegator, StakeOf;
  }
}
