/** Whom the staleness slash can hit. */
module Staleness {
  import opened Types
  import opened Registry
  import opened Sessions
  import opened Runs
  import opened Effects
  import opened Invariants
  import opened Boundary
  import opened Safety

  /** The slash of a boundary reached in `s` leaves the offline flag of `who` alone. */
  predicate Spared(cfg: Config, s: State, who: AccountId) {
    match Look(s.proposed, who)
    case None => !Has(BeforePrepare(cfg, s).proposed, who)
    case Some(c) =>
      var d := Look(BeforePrepare(cfg, s).proposed, who);
      d.Some? && d.value.offline == c.offline
  }

  /** Exactly the online, stale, non-desired validators that did not author are hit. */
  lemma SlashedExactly(cfg: Config, s: State, who: AccountId)
    requires Reachable(cfg, s)
    ensures !Spared(cfg, s, who) <==>
              && Has(s.proposed, who) && !Look(s.proposed, who).value.offline
              && who in s.validators && who !in s.desired && who !in s.actualAuthors
              && s.now - Look(s.proposed, who).value.lastAuthored > cfg.maxStaling
  {
    ReachableHolds(cfg, s);
    assert AccountOk(cfg, s, who);
    BeforePrepareLook(cfg, s, who);
  }

  lemma DesiredSpared(cfg: Config, s: State, who: AccountId)
    requires Reachable(cfg, s) && who in s.desired
    ensures Spared(cfg, s, who)
  {
    SlashedExactly(cfg, s, who);
  }

  /** If `who` is registered, it was last active at block `since` or later. */
  predicate ActiveSince(s: State, who: AccountId, since: nat) {
    match Look(s.proposed, who)
    case None => true
    case Some(c) => c.lastAuthored >= since
  }

  lemma CallStaysActive(cfg: Config, s: State, step: Step, who: AccountId, since: nat)
    requires Inv(cfg, s) && ActiveSince(s, who, since) && since <= s.now
    requires IsCall(step) && Call(cfg, s, step).Ok?
    ensures ActiveSince(Call(cfg, s, step).state, who, since)
  {
    CallLook(cfg, s, step, who);
  }

  lemma RotateStaysActive(cfg: Config, s: State, keys: set<AccountId>, who: AccountId, since: nat)
    requires Inv(cfg, s) && ActiveSince(s, who, since)
    ensures ActiveSince(Rotate(cfg, s, keys), who, since)
  {
    RotateRecord(cfg, s, keys, who);
  }

  lemma StepStaysActive(cfg: Config, s: State, step: Step, who: AccountId, since: nat)
    requires Inv(cfg, s) && ActiveSince(s, who, since) && since <= s.now
    ensures ActiveSince(Apply(cfg, s, step), who, since)
  {
    if IsCall(step) {
      if Call(cfg, s, step).Ok? {
        CallStaysActive(cfg, s, step, who, since);
      }
    } else if step.BlockStep? {
      BlockLook(cfg, s, step.author, who);
    } else if step.RotateStep? {
      RotateStaysActive(cfg, s, step.keys, who, since);
    }
  }

  lemma {:induction false} RunStaysActive(cfg: Config, s: State, steps: seq<Step>, who: AccountId, since: nat)
    requires Inv(cfg, s) && Feasible(cfg, s, steps)
    requires ActiveSince(s, who, since) && since <= s.now
    ensures ActiveSince(Run(cfg, s, steps), who, since)
  {
    if steps == [] {
    } else {
      var init := steps[..|steps| - 1];
      RunStaysActive(cfg, s, init, who, since);
      RunKeeps(cfg, s, init);
      StepStaysActive(cfg, Run(cfg, s, init), steps[|steps| - 1], who, since);
    }
  }

  lemma ActiveSpared(cfg: Config, s: State, who: AccountId, since: nat)
    requires Inv(cfg, s) && ActiveSince(s, who, since) && s.now - since <= cfg.maxStaling
    ensures Spared(cfg, s, who)
  {
    BeforePrepareLook(cfg, s, who);
  }

  lemma BecomesActive(cfg: Config, s: State, step: Step, who: AccountId)
    requires Inv(cfg, s)
    requires step == BlockStep(Some(who)) || (step == RegisterStep(who) && !Has(s.proposed, who))
    ensures ActiveSince(Apply(cfg, s, step), who, Apply(cfg, s, step).now)
  {
    if step.BlockStep? {
      BlockLook(cfg, s, step.author, who);
    } else if Call(cfg, s, step).Ok? {
      CallLook(cfg, s, step, who);
    }
  }

  /** Whatever happens since, an account that authored a block or registered within the last
      `MaxStalingPeriod` blocks is spared. */
  lemma RecentlyActiveSpared(cfg: Config, s: State, step: Step, steps: seq<Step>, who: AccountId)
    requires Reachable(cfg, s) && Enabled(s, step)
    requires step == BlockStep(Some(who)) || (step == RegisterStep(who) && !Has(s.proposed, who))
    requires Feasible(cfg, Apply(cfg, s, step), steps)
    requires Run(cfg, Apply(cfg, s, step), steps).now - Apply(cfg, s, step).now <= cfg.maxStaling
    ensures Spared(cfg, Run(cfg, Apply(cfg, s, step), steps), who)
  {
    ReachableHolds(cfg, s);
    StepKeeps(cfg, s, step);
    var t := Apply(cfg, s, step);
    BecomesActive(cfg, s, step, who);
    RunStaysActive(cfg, t, steps, who, t.now);
    RunKeeps(cfg, t, steps);
    ActiveSpared(cfg, Run(cfg, t, steps), who, t.now);
  }

  lemma SameStale(cfg: Config, s: State, c: Candidate)
    requires Inv(cfg, s) && s.now - s.startedAt <= cfg.maxStaling
    requires c in s.proposed
    ensures Stale(cfg, s, c) == Stale(cfg, s.(actualAuthors := []), c)
  {
    LookIn(s.proposed, c);
    assert AccountOk(cfg, s, c.who);
  }

  lemma SameSlash(cfg: Config, s: State, t: State)
    requires t == s.(actualAuthors := t.actualAuthors)
    requires forall c :: c in s.proposed ==> Stale(cfg, s, c) == Stale(cfg, t, c)
    ensures SlashStale(cfg, s) == SlashStale(cfg, t)
  {
    assert Slashed(cfg, s, s.proposed) == Slashed(cfg, t, t.proposed);
  }

  /** In a session no longer than `MaxStalingPeriod`, the record of authors decides nothing at the
      boundary: whoever is on it is not stale anyway. */
  lemma AuthorsFilterIdle(cfg: Config, s: State, keys: set<AccountId>)
    requires Reachable(cfg, s) && s.now - s.startedAt <= cfg.maxStaling
    ensures BeforePrepare(cfg, s) == BeforePrepare(cfg, s.(actualAuthors := []))
    ensures Rotate(cfg, s, keys) == Rotate(cfg, s.(actualAuthors := []), keys)
  {
    ReachableHolds(cfg, s);
    var q, t := QueueAuthors(s), QueueAuthors(s.(actualAuthors := []));
    forall c | c in q.proposed
      ensures Stale(cfg, q, c) == Stale(cfg, t, c)
    {
      var i :| 0 <= i < |q.proposed| && q.proposed[i] == c;
      SameStale(cfg, s, s.proposed[i]);
    }
    SameSlash(cfg, q, t);
    hide SlashStale, Inv;
  }

  // ---------- authors ----------

  lemma StepKeepsAuthors(cfg: Config, s: State, step: Step, who: AccountId)
    requires !step.RotateStep? && who in s.actualAuthors
    ensures who in Apply(cfg, s, step).actualAuthors
  {
    if IsCall(step) {
      if Call(cfg, s, step).Ok? {
        CallSeats(cfg, s, step);
      }
      hide Call;
    }
  }

  /** Whoever is recorded as an author stays recorded until the boundary. */
  lemma {:induction false} AuthorsStayRecorded(cfg: Config, s: State, steps: seq<Step>, who: AccountId)
    requires Rotations(steps) == 0 && who in s.actualAuthors
    ensures who in Run(cfg, s, steps).actualAuthors
  {
    hide Apply;
    if steps == [] {
    } else {
      var init := steps[..|steps| - 1];
      AuthorsStayRecorded(cfg, s, init, who);
      StepKeepsAuthors(cfg, Run(cfg, s, init), steps[|steps| - 1], who);
    }
  }

  /** Whoever authored a block of the session is on record at its boundary and is spared there,
      however short the staling period. */
  lemma SessionAuthorsSpared(cfg: Config, s: State, steps: seq<Step>, author: AccountId)
    requires Reachable(cfg, s) && author in s.validators && Rotations(steps) == 0
    requires Feasible(cfg, Apply(cfg, s, BlockStep(Some(author))), steps)
    ensures var t := Run(cfg, Apply(cfg, s, BlockStep(Some(author))), steps);
            author in t.actualAuthors && Spared(cfg, t, author)
  {
    var step := BlockStep(Some(author));
    EveryAuthorRecorded(cfg, s, author);
    ReachableStep(cfg, s, step);
    var t := Apply(cfg, s, step);
    AuthorsStayRecorded(cfg, t, steps, author);
    hide Apply, Run, Spared, Reachable;
    ReachableOnward(cfg, t, steps);
    SlashedExactly(cfg, Run(cfg, t, steps), author);
  }
}
