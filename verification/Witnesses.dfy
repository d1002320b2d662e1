/** Runs from genesis on which the pallet does not do what its comments promise. */
module Witnesses {
  import opened Types
  import opened Registry
  import opened Stakes
  import opened Dispatch
  import opened Sessions
  import opened Runs
  import opened Effects
  import opened Boundary
  import opened Safety
  import opened Lifecycle
  import opened Selection

  /** A genesis without validators, in which account 1 has `funds`. */
  function Bare(funds: nat): State {
    Genesis([], {}, map[1 := funds], map[])
  }

  lemma NobodyKeyed(ids: seq<AccountId>)
    ensures Keyed(ids, {}) == []
  {
    var r := Keyed(ids, {});
    forall a
      ensures a !in r
    {
      KeyedMembers(ids, {}, a);
    }
    FirstMember(r);
  }

  // ---------- the list is not kept sorted ----------

  const UNSORTING: seq<Step> := [RegisterStep(1), OfflineStep(1, true), RegisterStep(2)]

  lemma SingleSorted(c: Candidate)
    ensures Sort([c]) == [c]
  {
    assert Sort([c][..0]) == [];
  }

  /** Registering behind an offline candidate leaves the list unsorted. */
  lemma ListUnsorted(cfg: Config)
    requires cfg.maxCandidates >= 2
    ensures Feasible(cfg, Bare(0), UNSORTING)
    ensures !Sorted(Run(cfg, Bare(0), UNSORTING).proposed)
  {
    var s, u := Bare(0), UNSORTING;
    FeasibleWithoutBlocks(cfg, s, u);
    RunPrefix(cfg, s, u, 0);
    RunPrefix(cfg, s, u, 1);
    RunPrefix(cfg, s, u, 2);
    assert u[..0] == [] && u[..3] == u;
    var registered := Apply(cfg, s, u[0]);
    assert registered.proposed == [NewCandidate(1, 0)];
    var c := NewCandidate(1, 0).(offline := true);
    var offline := Apply(cfg, registered, u[1]);
    assert offline.proposed == [c] by {
      assert Find(registered.proposed, 1) == 0;
      SingleSorted(c);
    }
    var t := Apply(cfg, offline, u[2]);
    assert t.proposed == [c, NewCandidate(2, 0)] by {
      assert !Has(offline.proposed, 2);
    }
    assert !Leq(t.proposed[0], t.proposed[1]);
  }

  // ---------- one candidate at a boundary ----------

  /** A state whose only candidate is `c` and in which nobody validates. */
  predicate Sole(s: State, c: Candidate) {
    s.proposed == [c] && s.desired == [] && s.validators == [] && s.queued == []
  }

  function Survivor(c: Candidate, waiting: seq<AccountId>): seq<Candidate> {
    var d := Downgrade(PromoteOne(c, waiting));
    if d.Some? then [d.value] else []
  }

  function Electable(cs: seq<Candidate>): seq<AccountId>
    requires |cs| <= 1
  {
    if cs != [] && Eligible(cs[0]) then [cs[0].who] else []
  }

  lemma SolePrepared(c: Candidate)
    ensures PreparePass([c]) == if Downgrade(c).Some? then [Downgrade(c).value] else []
  {
    assert PreparePass([c][..0]) == [];
  }

  lemma SoleBefore(cfg: Config, s: State, c: Candidate)
    requires Sole(s, c)
    ensures Prepare(BeforePrepare(cfg, s)).proposed == Survivor(c, s.waiting)
  {
    var p := PromoteOne(c, s.waiting);
    assert QueueAuthors(s).proposed == [p] by {
      if s.waiting == [] {
        assert p == c;
      } else {
        assert Promote([c], s.waiting) == [p];
      }
    }
    SolePrepared(p);
    hide PromoteOne, Downgrade, PreparePass, Sort;
  }

  lemma SoleElected(cs: seq<Candidate>, room: nat)
    requires |cs| <= 1 && room >= 1
    ensures Take(EligibleIds(cs, []), room) == Electable(cs)
  {
    if |cs| == 1 {
      assert cs[..0] == [] && EligibleIds(cs[..0], []) == [];
      assert EligibleIds(cs, []) == EligibleIds(cs[..0], []) + Electable(cs);
    }
  }

  lemma SoleMarked(cs: seq<Candidate>, chosen: seq<AccountId>, seated: seq<AccountId>)
    requires |cs| <= 1
    ensures Crown(MarkWaiting(cs, chosen), seated)
         == if cs == [] then [] else [CrownOne(WaitOne(cs[0], chosen), seated)]
  {
  }

  lemma SurvivorAlone(c: Candidate, waiting: seq<AccountId>)
    ensures |Survivor(c, waiting)| <= 1
  {
  }

  /** The boundary in such a state. */
  lemma SoleRotates(cfg: Config, s: State, c: Candidate)
    requires Sole(s, c) && cfg.maxCandidates >= 1
    ensures var cs, t := Survivor(c, s.waiting), Rotate(cfg, s, {});
      && t.invulnerables == (if s.waiting == [] then s.invulnerables else s.waiting)
      && t.waiting == Electable(cs)
      && t.proposed == (if cs == [] then [] else [CrownOne(WaitOne(cs[0], t.waiting), t.invulnerables)])
      && t.desired == [] && t.validators == [] && t.queued == []
      && t.delegations == s.delegations && t.now == s.now && t.free == s.free
  {
    hide Rotate, Handed, Picked, BeforePrepare, Prepare, EligibleIds, Take, Survivor, CrownOne, WaitOne, Keyed;
    var cs := Survivor(c, s.waiting);
    assert |cs| <= 1 by {
      SurvivorAlone(c, s.waiting);
    }
    SoleBefore(cfg, s, c);
    RotateList(cfg, s, {});
    SoleElected(cs, cfg.maxCandidates);
    RotateSeats(cfg, s, {});
    NobodyKeyed(Rotate(cfg, s, {}).invulnerables);
    SoleMarked(cs, Picked(cfg, s), Handed(cfg, s));
  }

  lemma SoleLook(s: State, c: Candidate)
    requires s.proposed == [c]
    ensures Look(s.proposed, c.who) == Some(c)
    ensures forall a :: Has(s.proposed, a) ==> a == c.who
  {
    assert Find(s.proposed, c.who) == 0;
  }

  lemma SoleCall(cfg: Config, s: State, c: Candidate, step: Step)
    requires Sole(s, c) && (step.BondStep? || step.OfflineStep?) && step.who == c.who
    requires Call(cfg, s, step).Ok?
    ensures Sole(Apply(cfg, s, step), NewRecord(s, step))
    ensures SameSeats(s, Apply(cfg, s, step)) && Look(s.proposed, c.who) == Some(c)
  {
    CallSeats(cfg, s, step);
    CallPuts(cfg, s, step);
    SingleSorted(NewRecord(s, step));
    assert Find(s.proposed, c.who) == 0;
    hide Call, Find;
    assert s.proposed[0 := NewRecord(s, step)] == [NewRecord(s, step)];
  }

  // ---------- seated for good ----------

  function Abandoning(bond: nat): seq<Step> {
    [RegisterStep(1), BondStep(1, bond, true), RotateStep({}), RotateStep({}), OfflineStep(1, true), RotateStep({})]
  }

  lemma AbandoningRun(cfg: Config, s: State, bond: nat)
    ensures var u := Abandoning(bond);
      && Feasible(cfg, s, u)
      && Run(cfg, s, u[..3]) == Apply(cfg, Apply(cfg, Apply(cfg, s, u[0]), u[1]), u[2])
      && Run(cfg, s, u) == Apply(cfg, Apply(cfg, Apply(cfg, Run(cfg, s, u[..3]), u[3]), u[4]), u[5])
  {
    hide Apply;
    var u := Abandoning(bond);
    FeasibleWithoutBlocks(cfg, s, u);
    RunPrefix(cfg, s, u, 0);
    RunPrefix(cfg, s, u, 1);
    RunPrefix(cfg, s, u, 2);
    RunPrefix(cfg, s, u, 3);
    RunPrefix(cfg, s, u, 4);
    RunPrefix(cfg, s, u, 5);
    assert u[..0] == [] && u[..6] == u;
  }

  lemma Bonded(cfg: Config, bond: nat)
    requires cfg.maxCandidates >= 1 && bond > 0 && bond >= cfg.minBond
    ensures var u := Abandoning(bond);
            var t := Apply(cfg, Apply(cfg, Bare(bond), u[0]), u[1]);
      && Sole(t, NewCandidate(1, 0).(bond := bond))
      && t.waiting == t.invulnerables == []
  {
    var u, s, c := Abandoning(bond), Bare(bond), NewCandidate(1, 0);
    NobodyKeyed([]);
    var r := Apply(cfg, s, u[0]);
    assert Sole(r, c);
    assert Find(r.proposed, 1) == 0;
    assert Call(cfg, r, u[1]).Ok?;
    SoleCall(cfg, r, c, u[1]);
  }

  lemma SeatedAfterTwo(cfg: Config, s: State, c: Candidate)
    requires cfg.maxCandidates >= 1 && Sole(s, c) && s.waiting == s.invulnerables == []
    requires Eligible(c) && c.status == Online
    ensures var t := Rotate(cfg, Rotate(cfg, s, {}), {});
      Sole(t, c.(status := Authoring)) && t.waiting == t.invulnerables == [c.who]
  {
    hide Rotate;
    var r, d := Rotate(cfg, s, {}), c.(status := Waiting);
    SoleRotates(cfg, s, c);
    assert Survivor(c, []) == [c];
    assert Sole(r, d) && r.waiting == [c.who] && r.invulnerables == [];
    SoleRotates(cfg, r, d);
    assert Survivor(d, [c.who]) == [c.(status := Queuing)];
  }

  lemma GoesOffline(cfg: Config, s: State, c: Candidate, step: Step)
    requires Sole(s, c) && step == OfflineStep(c.who, true)
    ensures Sole(Apply(cfg, s, step), c.(offline := true, lastUpdated := s.now))
    ensures SameSeats(s, Apply(cfg, s, step))
  {
    SoleLook(s, c);
    assert Has(s.proposed, c.who);
    assert Call(cfg, s, step).Ok?;
    SoleCall(cfg, s, c, step);
    hide Apply, Call, Find;
  }

  lemma LookHas(s: State, c: Candidate)
    requires Look(s.proposed, c.who) == Some(c)
    ensures Has(s.proposed, c.who)
  {
  }

  lemma LastSeated(cfg: Config, s: State, c: Candidate)
    requires cfg.maxCandidates >= 1
    requires Sole(s, c) && c.offline && c.status == Authoring && s.waiting == [c.who]
    ensures var t := Rotate(cfg, s, {});
      && Deserted(t) && t.waiting == [] && t.invulnerables == [c.who]
      && Has(t.proposed, c.who) && Look(t.proposed, c.who).value.offline
  {
    hide Rotate, Find, Look;
    SoleRotates(cfg, s, c);
    var t := Rotate(cfg, s, {});
    assert Survivor(c, [c.who]) == [c.(status := Queuing)];
    assert t.proposed == [c];
    SoleLook(t, c);
    LookHas(t, c);
  }

  lemma StuckEnd(cfg: Config, s: State, c: Candidate, steps: seq<Step>)
    requires |steps| == 6 && steps[4] == OfflineStep(1, true) && steps[5] == RotateStep({})
    requires cfg.maxCandidates >= 1
    requires Sole(s, c) && c.who == 1 && c.status == Authoring && s.waiting == [1] && s.invulnerables == [1]
    ensures var t := Apply(cfg, Apply(cfg, s, steps[4]), steps[5]);
      && Deserted(t) && t.waiting == [] && t.invulnerables == [1]
      && Has(t.proposed, 1) && Look(t.proposed, 1).value.offline
  {
    hide Apply, Rotate, Deserted, Look, Find;
    GoesOffline(cfg, s, c, steps[4]);
    var r := Apply(cfg, s, steps[4]);
    RotateApplies(cfg, r, steps[5]);
    LastSeated(cfg, r, c.(offline := true, lastUpdated := s.now));
  }

  lemma StuckAfterAll(cfg: Config, bond: nat)
    requires cfg.maxCandidates >= 1 && bond > 0 && bond >= cfg.minBond
    ensures var t := Run(cfg, Bare(bond), Abandoning(bond));
      && Deserted(t) && t.waiting == [] && t.invulnerables == [1]
      && Has(t.proposed, 1) && Look(t.proposed, 1).value.offline
  {
    hide Run, Feasible, Apply, Deserted, Look;
    var u, c := Abandoning(bond), NewCandidate(1, 0).(bond := bond);
    AbandoningRun(cfg, Bare(bond), bond);
    Bonded(cfg, bond);
    var s := Apply(cfg, Apply(cfg, Bare(bond), u[0]), u[1]);
    SeatedAfterTwo(cfg, s, c);
    RotateApplies(cfg, s, u[2]);
    RotateApplies(cfg, Apply(cfg, s, u[2]), u[3]);
    hide Rotate;
    StuckEnd(cfg, Apply(cfg, Apply(cfg, s, u[2]), u[3]), c.(status := Authoring), u);
  }

  /** A run from genesis that ends deserted, with an offline candidate seated: no number of further
      boundaries removes it. */
  lemma CandidateStuck(cfg: Config, bond: nat, steps: seq<Step>)
    requires cfg.maxCandidates >= 1 && bond > 0 && bond >= cfg.minBond
    requires Feasible(cfg, Run(cfg, Bare(bond), Abandoning(bond)), steps)
    requires forall k :: 0 <= k < |steps| ==> !IsCall(steps[k])
    ensures Feasible(cfg, Bare(bond), Abandoning(bond))
    ensures var s := Run(cfg, Bare(bond), Abandoning(bond));
      && Reachable(cfg, s) && s.waiting == [] && s.invulnerables == [1]
      && Has(s.proposed, 1) && Look(s.proposed, 1).value.offline
    ensures var t := Run(cfg, Run(cfg, Bare(bond), Abandoning(bond)), steps);
      1 in t.invulnerables && Has(t.proposed, 1) && Disqualified(Look(t.proposed, 1).value)
  {
    hide Run, Feasible, Reachable, Deserted, Look, Disqualified, IsCall;
    var s := Run(cfg, Bare(bond), Abandoning(bond));
    AbandoningRun(cfg, Bare(bond), bond);
    RunsAreReachable(cfg, [], {}, map[1 := bond], map[], Abandoning(bond));
    StuckAfterAll(cfg, bond);
    SeatedForGood(cfg, s, steps, 1);
  }

  // ---------- stakes behind a dropped candidate ----------

  const STRANDING: seq<Step> :=
    [RegisterStep(2), StakeStep(1, 2, 50, true), RotateStep({}), RegisterStep(2)]

  lemma StrandingRun(cfg: Config, s: State)
    ensures var u := STRANDING;
      && Feasible(cfg, s, u) && Feasible(cfg, s, u[..3])
      && Run(cfg, s, u[..3]) == Apply(cfg, Apply(cfg, Apply(cfg, s, u[0]), u[1]), u[2])
      && Run(cfg, s, u) == Apply(cfg, Run(cfg, s, u[..3]), u[3])
  {
    hide Apply;
    var u := STRANDING;
    FeasibleWithoutBlocks(cfg, s, u);
    FeasiblePrefix(cfg, s, u, 3);
    RunPrefix(cfg, s, u, 0);
    RunPrefix(cfg, s, u, 1);
    RunPrefix(cfg, s, u, 2);
    RunPrefix(cfg, s, u, 3);
    assert u[..0] == [] && u[..4] == u;
  }

  lemma StrandingStakes(cfg: Config)
    requires cfg.maxCandidates >= 1 && cfg.maxDelegations >= 1
    ensures var t := Apply(cfg, Apply(cfg, Bare(50), STRANDING[0]), STRANDING[1]);
      && Sole(t, NewCandidate(2, 0).(totalStake := 50))
      && t.waiting == t.invulnerables == []
      && t.delegations == map[2 := [Delegation(1, 50)]]
      && Balance(t.free, 1) == 0 && t.now == 0
  {
    var u, s, c := STRANDING, Bare(50), NewCandidate(2, 0);
    NobodyKeyed([]);
    var r := Apply(cfg, s, u[0]);
    assert Sole(r, c);
    assert Find(r.proposed, 2) == 0;
    var d := c.(totalStake := 50);
    assert Added([], 1, 50) == [Delegation(1, 50)];
    assert Fold([Delegation(1, 50)]) == 50;
    SingleSorted(d);
    assert r.proposed[0 := d] == [d];
  }

  lemma StrandedEnd(cfg: Config, s: State)
    requires cfg.maxCandidates >= 1
    requires s.proposed == [] && DelegationsOf(s, 2) == [Delegation(1, 50)]
    ensures Unstake(s, 1, 2) == Err(CandidateNotFound)
    ensures var t := Apply(cfg, s, STRANDING[3]);
      && Has(t.proposed, 2) && Look(t.proposed, 2).value.totalStake == 0
      && DelegationsOf(t, 2) == [Delegation(1, 50)]
  {
    assert FindDelegator([Delegation(1, 50)], 1) == 0;
    var t := Apply(cfg, s, STRANDING[3]);
    assert t.proposed == [NewCandidate(2, s.now)];
    assert Find(t.proposed, 2) == 0;
  }

  /** A run from genesis after which a stake is locked behind an account that is no candidate, and
      its continuation after which the account is a candidate again with a total of zero. */
  lemma StakeStranded(cfg: Config)
    requires cfg.maxCandidates >= 1 && cfg.maxDelegations >= 1
    ensures Feasible(cfg, Bare(50), STRANDING)
    ensures var s := Run(cfg, Bare(50), STRANDING[..3]);
      && Reachable(cfg, s) && !Has(s.proposed, 2)
      && DelegationsOf(s, 2) == [Delegation(1, 50)] && Balance(s.free, 1) == 0
      && Unstake(s, 1, 2) == Err(CandidateNotFound)
    ensures var t := Run(cfg, Bare(50), STRANDING);
      && Reachable(cfg, t) && Has(t.proposed, 2)
      && Look(t.proposed, 2).value.totalStake == 0 && Fold(DelegationsOf(t, 2)) == 50
  {
    var u := STRANDING;
    StrandingRun(cfg, Bare(50));
    RunsAreReachable(cfg, [], {}, map[1 := 50], map[], u);
    RunsAreReachable(cfg, [], {}, map[1 := 50], map[], u[..3]);
    hide Run, Feasible, Reachable, Rotate;
    StrandingStakes(cfg);
    var r, c := Apply(cfg, Apply(cfg, Bare(50), u[0]), u[1]), NewCandidate(2, 0).(totalStake := 50);
    RotateApplies(cfg, r, u[2]);
    SoleRotates(cfg, r, c);
    var s := Apply(cfg, r, u[2]);
    assert s.proposed == [] && DelegationsOf(s, 2) == [Delegation(1, 50)];
    assert Fold([Delegation(1, 50)]) == 50;
    StrandedEnd(cfg, s);
    hide Apply;
  }
}
