/** The one candidate record each successful call writes. */
module Effects {
  import opened Types
  import opened Registry
  import opened Stakes
  import opened Dispatch
  import opened Runs

  function Target(step: Step): AccountId
    requires IsCall(step)
  {
    if step.StakeStep? || step.UnstakeStep? then step.candidate else step.who
  }

  /** The delegations behind the target after the call. */
  function NewDelegations(s: State, step: Step): seq<Delegation>
    requires IsCall(step)
  {
    var ds := DelegationsOf(s, Target(step));
    match step
    case StakeStep(who, _, amount, _) => Added(ds, who, amount)
    case UnstakeStep(who, _) => Removed(ds, who)
    case _ => ds
  }

  function NewRecord(s: State, step: Step): Candidate
    requires IsCall(step)
    requires !step.RegisterStep? ==> Has(s.proposed, Target(step))
  {
    if step.RegisterStep? then Candidate(step.who, 0, 0, s.now, s.now, false, false, 0, Online)
    else
      var c := Look(s.proposed, Target(step)).value.(lastUpdated := s.now);
      match step
      case BondStep(_, newBond, _) => c.(bond := newBond)
      case CommissionStep(_, commission) => c.(commission := commission)
      case OfflineStep(_, offline) => c.(offline := offline)
      case LeaveStep(_) => c.(leaving := true)
      case CorrectStep(_, _) => c.(bond := 0)
      case _ => c.(totalStake := Fold(NewDelegations(s, step)))
  }

  lemma PutLook(s: State, c: Candidate, who: AccountId)
    requires Unique(s.proposed) && Has(s.proposed, c.who)
    ensures Look(Put(s, c).proposed, who) == if who == c.who then Some(c) else Look(s.proposed, who)
    ensures Look(PutAndSort(s, c).proposed, who) == if who == c.who then Some(c) else Look(s.proposed, who)
  {
    LookUpdate(s.proposed, c, who);
    var cs := s.proposed[Find(s.proposed, c.who) := c];
    assert Unique(cs);
    SortLook(cs, who);
  }

  lemma CallPuts(cfg: Config, s: State, step: Step)
    requires IsCall(step) && !step.RegisterStep? && Call(cfg, s, step).Ok?
    ensures Has(s.proposed, Target(step))
    ensures var t, c := Call(cfg, s, step).state, NewRecord(s, step);
            c.who == Target(step) && (t.proposed == Put(s, c).proposed || t.proposed == PutAndSort(s, c).proposed)
  {
    hide Find, FindDelegator, Sort, Fold, Without;
    match step
    case StakeStep(_, _, _, _) =>
    case UnstakeStep(_, _) =>
    case BondStep(_, _, _) =>
    case _ =>
  }

  /** A successful call rewrites its target and no other candidate. */
  lemma CallLook(cfg: Config, s: State, step: Step, who: AccountId)
    requires Unique(s.proposed) && IsCall(step) && Call(cfg, s, step).Ok?
    ensures !step.RegisterStep? ==> Has(s.proposed, Target(step))
    ensures step.RegisterStep? ==> !Has(s.proposed, Target(step))
    ensures Look(Call(cfg, s, step).state.proposed, who)
         == if who == Target(step) then Some(NewRecord(s, step)) else Look(s.proposed, who)
  {
    if step.RegisterStep? {
      LookAppend(s.proposed, NewCandidate(step.who, s.now), who);
    } else {
      CallPuts(cfg, s, step);
      PutLook(s, NewRecord(s, step), who);
    }
  }

  /** A successful call rewrites the delegations behind its target and no others. */
  lemma CallDelegations(cfg: Config, s: State, step: Step, who: AccountId)
    requires IsCall(step) && Call(cfg, s, step).Ok?
    ensures DelegationsOf(Call(cfg, s, step).state, who)
         == if who == Target(step) then NewDelegations(s, step) else DelegationsOf(s, who)
  {
  }
}
