/** Runs: arbitrary interleavings of calls, blocks, rotations and moves of the rest of the chain. */
module Runs {
  import opened Types
  import opened Dispatch
  import opened Sessions

  datatype Step =
    | RegisterStep(who: AccountId)
    | BondStep(who: AccountId, newBond: nat, reserveOk: bool)
    | CommissionStep(who: AccountId, commission: nat)
    | StakeStep(who: AccountId, candidate: AccountId, amount: nat, reserveOk: bool)
    | UnstakeStep(who: AccountId, candidate: AccountId)
    | OfflineStep(who: AccountId, offline: bool)
    | LeaveStep(who: AccountId)
    | CorrectStep(who: AccountId, amount: nat)
    | BlockStep(author: Option<AccountId>)
    | RotateStep(keys: set<AccountId>)
    // transfers, and reserves held by other pallets
    | LedgerStep(free: map<AccountId, nat>, reserved: map<AccountId, nat>)

  predicate IsCall(step: Step) {
    !step.BlockStep? && !step.RotateStep? && !step.LedgerStep?
  }

  function Call(cfg: Config, s: State, step: Step): Outcome
    requires IsCall(step)
  {
    match step
    case RegisterStep(who) => Register(cfg, s, who)
    case BondStep(who, newBond, reserveOk) => Bond(cfg, s, who, newBond, reserveOk)
    case CommissionStep(who, commission) => SetCommission(s, who, commission)
    case StakeStep(who, candidate, amount, reserveOk) => Stake(cfg, s, who, candidate, amount, reserveOk)
    case UnstakeStep(who, candidate) => Unstake(s, who, candidate)
    case OfflineStep(who, offline) => SetOffline(s, who, offline)
    case LeaveStep(who) => Leave(s, who)
    case CorrectStep(who, amount) => Correct(s, who, amount)
  }

  function Apply(cfg: Config, s: State, step: Step): State {
    if IsCall(step) then
      var r := Call(cfg, s, step);
      if r.Ok? then r.state else s
    else
      match step
      case BlockStep(author) => NewBlock(cfg, s, author)
      case RotateStep(keys) => Rotate(cfg, s, keys)
      case LedgerStep(free, reserved) => s.(free := free, reserved := reserved)
  }

  lemma RotateApplies(cfg: Config, s: State, step: Step)
    requires step.RotateStep?
    ensures Apply(cfg, s, step) == Rotate(cfg, s, step.keys)
  {
  }

  /** Block authors are looked up in the acting validator set. */
  predicate Enabled(s: State, step: Step) {
    step.BlockStep? && step.author.Some? ==> step.author.value in s.validators
  }

  function Run(cfg: Config, s: State, steps: seq<Step>): State {
    if steps == [] then s
    else Apply(cfg, Run(cfg, s, steps[..|steps| - 1]), steps[|steps| - 1])
  }

  predicate Feasible(cfg: Config, s: State, steps: seq<Step>) {
    steps == []
    || (&& Feasible(cfg, s, steps[..|steps| - 1])
        && Enabled(Run(cfg, s, steps[..|steps| - 1]), steps[|steps| - 1]))
  }

  /** The genesis build: the desired accounts are waiting and seated at once; the session pallet
      draws its first two validator lists from them. */
  function Genesis(desired: seq<AccountId>, keys: set<AccountId>,
                   free: map<AccountId, nat>, reserved: map<AccountId, nat>): State {
    State([], desired, desired, desired, map[], [], Keyed(desired, keys), Keyed(desired, keys), 0,
          free, reserved, 0)
  }

  ghost predicate IsGenesis(cfg: Config, s: State) {
    exists desired: seq<AccountId>, keys: set<AccountId>, free, reserved ::
      |desired| <= cfg.maxCandidates && s == Genesis(desired, keys, free, reserved)
  }

  /** The states of a run from genesis, with the steps between them. */
  ghost predicate IsTrace(cfg: Config, states: seq<State>, steps: seq<Step>) {
    && |states| == |steps| + 1
    && IsGenesis(cfg, states[0])
    && forall k {:trigger steps[k]} :: 0 <= k < |steps| ==>
         Enabled(states[k], steps[k]) && states[k + 1] == Apply(cfg, states[k], steps[k])
  }

  ghost predicate Reachable(cfg: Config, s: State) {
    exists states, steps :: IsTrace(cfg, states, steps) && s == states[|steps|]
  }

  /** Session boundaries among the steps. */
  function Rotations(steps: seq<Step>): nat {
    if steps == [] then 0
    else Rotations(steps[..|steps| - 1]) + (if steps[|steps| - 1].RotateStep? then 1 else 0)
  }

  lemma {:induction false} RunConcat(cfg: Config, s: State, first: seq<Step>, second: seq<Step>)
    ensures Run(cfg, s, first + second) == Run(cfg, Run(cfg, s, first), second)
    ensures Feasible(cfg, s, first + second)
       <==> Feasible(cfg, s, first) && Feasible(cfg, Run(cfg, s, first), second)
  {
    if second == [] {
      assert first + second == first;
    } else {
      var init := second[..|second| - 1];
      RunConcat(cfg, s, first, init);
      assert (first + second)[..|first + second| - 1] == first + init;
    }
  }

  lemma FeasiblePrefix(cfg: Config, s: State, steps: seq<Step>, k: nat)
    requires Feasible(cfg, s, steps) && k <= |steps|
    ensures Feasible(cfg, s, steps[..k])
  {
    hide Run, Feasible;
    RunConcat(cfg, s, steps[..k], steps[k..]);
    assert steps[..k] + steps[k..] == steps;
  }

  lemma RunPrefix(cfg: Config, s: State, steps: seq<Step>, k: nat)
    requires k < |steps|
    ensures Run(cfg, s, steps[..k + 1]) == Apply(cfg, Run(cfg, s, steps[..k]), steps[k])
    ensures Feasible(cfg, s, steps[..k + 1])
       <==> Feasible(cfg, s, steps[..k]) && Enabled(Run(cfg, s, steps[..k]), steps[k])
  {
    hide Apply, Enabled;
    assert steps[..k + 1][..k] == steps[..k];
  }

  lemma {:induction false} FeasibleWithoutBlocks(cfg: Config, s: State, steps: seq<Step>)
    requires forall k :: 0 <= k < |steps| ==> !steps[k].BlockStep?
    ensures Feasible(cfg, s, steps)
  {
    if steps == [] {
    } else {
      FeasibleWithoutBlocks(cfg, s, steps[..|steps| - 1]);
    }
  }
  /** A run is feasible exactly when every block author in it validates at the time. */
  lemma {:induction false} FeasibleExactly(cfg: Config, s: State, steps: seq<Step>)
    ensures Feasible(cfg, s, steps)
       <==> forall k {:trigger steps[k]} :: 0 <= k < |steps| && steps[k].BlockStep? && steps[k].author.Some? ==>
              steps[k].author.value in Run(cfg, s, steps[..k]).validators
  {
    hide Run;
    if steps == [] {
    } else {
      var init := steps[..|steps| - 1];
      FeasibleExactly(cfg, s, init);
      assert forall k :: 0 <= k < |init| ==> steps[k] == init[k] && steps[..k] == init[..k];
    }
  }
}
