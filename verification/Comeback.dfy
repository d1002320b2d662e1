/** Stepping down and coming back. */
module Comeback {
  import opened Types
  import opened Registry
  import opened Dispatch
  import opened Sessions
  import opened Runs
  import opened Effects
  import opened Invariants
  import opened Safety
  import opened Passes
  import opened Selection

  /** Registered, bonded, staying and online. */
  predicate Ready(s: State, who: AccountId) {
    Has(s.proposed, who) && var c := Look(s.proposed, who).value; c.bond > 0 && !c.leaving && !c.offline
  }

  lemma TogglesLook(s: State, who: AccountId, offline: bool, other: AccountId)
    requires Unique(s.proposed) && Has(s.proposed, who)
    ensures SetOffline(s, who, offline).Ok?
    ensures var t := SetOffline(s, who, offline).state;
      && t == s.(proposed := t.proposed)
      && Unique(t.proposed) && Has(t.proposed, who)
      && Look(t.proposed, other)
         == if other == who then Some(Look(s.proposed, who).value.(offline := offline, lastUpdated := s.now))
            else Look(s.proposed, other)
  {
    var c := Look(s.proposed, who).value.(offline := offline, lastUpdated := s.now);
    PutLook(s, c, who);
    PutLook(s, c, other);
    SortUnique(Put(s, c).proposed);
    hide Find, Sort;
  }

  /** Going offline and coming back always succeeds and changes nothing but the time of update. */
  lemma OfflineOnlineRoundTrip(s: State, who: AccountId, other: AccountId)
    requires Unique(s.proposed) && Has(s.proposed, who) && !Look(s.proposed, who).value.offline
    ensures SetOffline(s, who, true).Ok?
    ensures var r := SetOffline(SetOffline(s, who, true).state, who, false);
      && r.Ok?
      && r.state == s.(proposed := r.state.proposed)
      && Look(r.state.proposed, other)
         == if other == who then Some(Look(s.proposed, who).value.(lastUpdated := s.now))
            else Look(s.proposed, other)
  {
    hide SetOffline, Find, Unique;
    TogglesLook(s, who, true, who);
    TogglesLook(s, who, true, other);
    TogglesLook(SetOffline(s, who, true).state, who, false, other);
  }

  /** The one step that ends readiness between two boundaries: the candidate's own decision. */
  predicate StepsDown(step: Step, who: AccountId) {
    || step == OfflineStep(who, true)
    || (step.BondStep? && step.who == who && step.newBond == 0)
  }

  lemma DepartOffline(cfg: Config, s: State, step: Step)
    requires (step.LeaveStep? || step.CorrectStep?) && Call(cfg, s, step).Ok?
    ensures Has(s.proposed, step.who) && Look(s.proposed, step.who).value.offline
  {
    hide Find, Without;
  }

  lemma CallStaysReady(cfg: Config, s: State, step: Step, who: AccountId)
    requires Unique(s.proposed) && Ready(s, who)
    requires IsCall(step) && Call(cfg, s, step).Ok? && !StepsDown(step, who)
    ensures Ready(Call(cfg, s, step).state, who)
  {
    CallLook(cfg, s, step, who);
    if step.LeaveStep? || step.CorrectStep? {
      DepartOffline(cfg, s, step);
    }
    hide Call, Find;
  }

  lemma StepStaysReady(cfg: Config, s: State, step: Step, who: AccountId)
    requires Unique(s.proposed) && Ready(s, who)
    requires !step.RotateStep? && !StepsDown(step, who)
    ensures Ready(Apply(cfg, s, step), who)
  {
    if IsCall(step) {
      if Call(cfg, s, step).Ok? {
        CallStaysReady(cfg, s, step, who);
        hide Ready;
      }
    } else if step.BlockStep? {
      BlockLook(cfg, s, step.author, who);
      hide NewBlock, Find;
    }
  }

  lemma {:induction false} StaysReady(cfg: Config, s: State, steps: seq<Step>, who: AccountId)
    requires Inv(cfg, s) && Feasible(cfg, s, steps) && Ready(s, who)
    requires Rotations(steps) == 0 && forall step :: step in steps ==> !StepsDown(step, who)
    ensures Ready(Run(cfg, s, steps), who)
  {
    hide Apply, Ready, StepsDown;
    if steps == [] {
    } else {
      var init, last := steps[..|steps| - 1], steps[|steps| - 1];
      assert forall step :: step in init ==> step in steps;
      assert last in steps;
      StaysReady(cfg, s, init, who);
      RunKeeps(cfg, s, init);
      StepStaysReady(cfg, Run(cfg, s, init), last, who);
    }
  }

  /** A boundary makes a ready candidate a contender exactly when it does not find it stale. */
  lemma ReadyContends(cfg: Config, s: State, keys: set<AccountId>, who: AccountId)
    requires Reachable(cfg, s) && Ready(s, who) && who !in s.desired
    ensures Contender(Rotate(cfg, s, keys), who) <==> !Hit(cfg, s, Look(s.proposed, who).value)
  {
    ReachableHolds(cfg, s);
    hide Rotate, Find, Reachable, Hit;
    RotateExactly(cfg, s, keys, who);
    SeatsExactly(cfg, s, keys, who);
  }

  /** A bonded candidate that has not left and comes back online contends at the next boundary, unless
      it is stale or steps down again, whatever is called in between. */
  lemma ComesBack(cfg: Config, s: State, who: AccountId, between: seq<Step>, keys: set<AccountId>)
    requires Reachable(cfg, s) && Has(s.proposed, who) && who !in s.desired
    requires Look(s.proposed, who).value.bond > 0 && !Look(s.proposed, who).value.leaving
    requires Feasible(cfg, Apply(cfg, s, OfflineStep(who, false)), between)
    requires Rotations(between) == 0 && forall step :: step in between ==> !StepsDown(step, who)
    ensures var u := Run(cfg, Apply(cfg, s, OfflineStep(who, false)), between);
            Has(u.proposed, who)
            && (Contender(Rotate(cfg, u, keys), who) <==> !Hit(cfg, u, Look(u.proposed, who).value))
  {
    hide Rotate, Run, Feasible, Reachable, Contender, Hit, Find, Rotations, StepsDown;
    ReachableHolds(cfg, s);
    TogglesLook(s, who, false, who);
    var step := OfflineStep(who, false);
    var t := Apply(cfg, s, step);
    assert Ready(t, who);
    ReachableStep(cfg, s, step);
    hide Apply, Inv;
    ReachableHolds(cfg, t);
    StaysReady(cfg, t, between, who);
    RunKeeps(cfg, t, between);
    ReachableOnward(cfg, t, between);
    ReadyContends(cfg, Run(cfg, t, between), keys, who);
  }
}
