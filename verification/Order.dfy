/** When the candidate list as a whole is sorted: which steps keep it so, and exactly when. */
module Order {
  import opened Types
  import opened Registry
  import opened Stakes
  import opened Dispatch
  import opened Sessions
  import opened Runs
  import opened Effects
  import opened Invariants
  import opened Boundary
  import opened Safety

  // ---------- rewriting a sorted list in place ----------

  lemma LeqTransitive(a: Candidate, b: Candidate, c: Candidate)
    requires Leq(a, b) && Leq(b, c)
    ensures Leq(a, c)
  {
  }

  /** A record that does not overtake the one before it leaves the list sorted exactly when the one
      after it does not overtake either. */
  lemma SortedPut(cs: seq<Candidate>, i: nat, c: Candidate)
    requires Sorted(cs) && i < |cs| && Leq(cs[i], c)
    ensures Sorted(cs[i := c]) <==> i + 1 == |cs| || Leq(c, cs[i + 1])
  {
    var r := cs[i := c];
    if i + 1 == |cs| || Leq(c, cs[i + 1]) {
      forall j, k | 0 <= j < k < |r|
        ensures Leq(r[j], r[k])
      {
        assert Leq(cs[j], cs[k]);
        if k == i {
          LeqTransitive(cs[j], cs[i], c);
        } else if j == i {
          assert k == i + 1 || Leq(cs[i + 1], cs[k]);
          if k > i + 1 {
            LeqTransitive(c, cs[i + 1], cs[k]);
          }
        }
      }
    } else {
      assert r[i + 1] == cs[i + 1] && r[i] == c;
    }
  }

  lemma SortedAppend(cs: seq<Candidate>, c: Candidate)
    requires Sorted(cs)
    ensures Sorted(cs + [c]) <==> forall d :: d in cs ==> Leq(d, c)
  {
    var r := cs + [c];
    if forall d :: d in cs ==> Leq(d, c) {
    } else {
      var d :| d in cs && !Leq(d, c);
      var i :| 0 <= i < |cs| && cs[i] == d;
      assert r[i] == d && r[|cs|] == c;
    }
  }

  ghost predicate SameOrder(cs: seq<Candidate>, ds: seq<Candidate>) {
    && |cs| == |ds|
    && forall i :: 0 <= i < |cs| ==>
         ds[i].offline == cs[i].offline && Key(ds[i]) == Key(cs[i]) && ds[i].lastUpdated == cs[i].lastUpdated
  }

  lemma SameOrderKeeps(cs: seq<Candidate>, ds: seq<Candidate>)
    requires Sorted(cs) && SameOrder(cs, ds)
    ensures Sorted(ds)
  {
    forall i, j | 0 <= i < j < |ds|
      ensures Leq(ds[i], ds[j])
    {
      assert Leq(cs[i], cs[j]);
    }
  }

  // ---------- the exact condition ----------

  /** The candidate behind `who` does not outrank a record of `who` with ranking key `key`, written
      in this block. */
  predicate StaysAhead(s: State, who: AccountId, key: nat)
    requires Has(s.proposed, who)
  {
    var i := Find(s.proposed, who);
    i + 1 < |s.proposed| ==>
      var next := s.proposed[i + 1];
      || next.offline != s.proposed[i].offline
      || Key(next) < key
      || (Key(next) == key && next.lastUpdated == s.now)
  }

  /** The calls that write without sorting: what each needs to leave a sorted list sorted. */
  predicate KeepsOrder(cfg: Config, s: State, step: Step) {
    IsCall(step) && Call(cfg, s, step).Ok? ==>
      match step
      case RegisterStep(_) => forall c :: c in s.proposed ==> !c.offline
      case CommissionStep(who, _) => StaysAhead(s, who, Key(Look(s.proposed, who).value))
      case LeaveStep(who) => StaysAhead(s, who, Key(Look(s.proposed, who).value))
      case CorrectStep(who, _) => StaysAhead(s, who, SaturatingAdd(0, Look(s.proposed, who).value.totalStake))
      case _ => true
  }

  lemma SortingPuts(cfg: Config, s: State, step: Step)
    requires IsCall(step) && Call(cfg, s, step).Ok?
    requires step.BondStep? || step.StakeStep? || step.UnstakeStep? || step.OfflineStep?
    ensures Has(s.proposed, Target(step)) && NewRecord(s, step).who == Target(step)
    ensures Call(cfg, s, step).state.proposed == Sort(Put(s, NewRecord(s, step)).proposed)
  {
    hide Find, FindDelegator, Sort, Fold;
  }

  /** Bonding, staking, unstaking and going offline or online sort the list, whatever it was. */
  lemma SortingCalls(cfg: Config, s: State, step: Step)
    requires IsCall(step) && Call(cfg, s, step).Ok?
    requires step.BondStep? || step.StakeStep? || step.UnstakeStep? || step.OfflineStep?
    ensures Sorted(Call(cfg, s, step).state.proposed)
  {
    SortingPuts(cfg, s, step);
    SortSorts(Put(s, NewRecord(s, step)).proposed);
    hide Call;
  }

  lemma PlainPuts(cfg: Config, s: State, step: Step)
    requires IsCall(step) && Call(cfg, s, step).Ok?
    requires step.CommissionStep? || step.LeaveStep? || step.CorrectStep?
    ensures Has(s.proposed, step.who) && NewRecord(s, step).who == step.who
    ensures Call(cfg, s, step).state.proposed == Put(s, NewRecord(s, step)).proposed
    ensures !step.CommissionStep? ==> Look(s.proposed, step.who).value.offline
  {
    hide Find, Without;
  }

  lemma NextUpdated(cfg: Config, s: State, i: nat)
    requires Inv(cfg, s) && i < |s.proposed|
    ensures s.proposed[i].lastUpdated <= s.now
  {
    LookAt(s.proposed, i);
    assert AccountOk(cfg, s, s.proposed[i].who);
  }

  lemma PlainCallOrder(cfg: Config, s: State, step: Step)
    requires Inv(cfg, s) && Sorted(s.proposed)
    requires IsCall(step) && Call(cfg, s, step).Ok?
    requires step.CommissionStep? || step.LeaveStep? || step.CorrectStep?
    ensures Sorted(Call(cfg, s, step).state.proposed) <==> KeepsOrder(cfg, s, step)
  {
    hide Call;
    PlainPuts(cfg, s, step);
    var i := Find(s.proposed, step.who);
    NextUpdated(cfg, s, i);
    if i + 1 < |s.proposed| {
      NextUpdated(cfg, s, i + 1);
      assert Leq(s.proposed[i], s.proposed[i + 1]);
    }
    hide Inv, Find, Sorted;
    SortedPut(s.proposed, i, NewRecord(s, step));
  }

  lemma RegisterOrder(cfg: Config, s: State, who: AccountId)
    requires Inv(cfg, s) && Sorted(s.proposed) && Register(cfg, s, who).Ok?
    ensures Sorted(Register(cfg, s, who).state.proposed) <==> forall c :: c in s.proposed ==> !c.offline
  {
    var d := NewCandidate(who, s.now);
    SortedAppend(s.proposed, d);
    forall c | c in s.proposed
      ensures Leq(c, d) <==> !c.offline
    {
      var i :| 0 <= i < |s.proposed| && s.proposed[i] == c;
      NextUpdated(cfg, s, i);
    }
  }

  // ---------- boundaries ----------

  lemma SortedInit(cs: seq<Candidate>)
    requires Sorted(cs) && cs != []
    ensures Sorted(cs[..|cs| - 1])
    ensures var last := cs[|cs| - 1]; forall d :: d in cs[..|cs| - 1] ==> Leq(d, last)
  {
  }

  lemma DowngradeLeq(a: Candidate, b: Candidate)
    requires Leq(a, b) && Downgrade(a).Some? && Downgrade(b).Some?
    ensures Leq(Downgrade(a).value, Downgrade(b).value)
  {
  }

  lemma EmptySorted(cs: seq<Candidate>)
    requires cs == []
    ensures Sorted(cs)
  {
  }

  lemma {:induction false} PrepareKeepsSorted(cs: seq<Candidate>)
    requires Sorted(cs)
    ensures Sorted(PreparePass(cs))
  {
    hide Sorted, Leq, Downgrade;
    if cs == [] {
      EmptySorted(PreparePass(cs));
    } else {
      var init, last := cs[..|cs| - 1], cs[|cs| - 1];
      SortedInit(cs);
      PrepareKeepsSorted(init);
      if Downgrade(last).Some? {
        forall d | d in PreparePass(init)
          ensures Leq(d, Downgrade(last).value)
        {
          PrepareSource(init, d);
          var c :| c in init && Downgrade(c) == Some(d);
          DowngradeLeq(c, last);
        }
        SortedAppend(PreparePass(init), Downgrade(last).value);
      } else {
        assert PreparePass(cs) == PreparePass(init);
      }
    }
  }

  lemma SlashKeepsSorted(cfg: Config, s: State)
    requires Sorted(s.proposed)
    ensures Sorted(SlashStale(cfg, s).proposed)
  {
    SortSorts(Slashed(cfg, s, s.proposed));
  }

  lemma QueueKeepsSorted(s: State)
    requires Sorted(s.proposed)
    ensures Sorted(QueueAuthors(s).proposed)
  {
    SameOrderKeeps(s.proposed, QueueAuthors(s).proposed);
  }

  lemma SeatingKeepsSorted(cs: seq<Candidate>, chosen: seq<AccountId>, seated: seq<AccountId>)
    requires Sorted(cs)
    ensures Sorted(Crown(MarkWaiting(cs, chosen), seated))
  {
    SameOrderKeeps(cs, MarkWaiting(cs, chosen));
    SameOrderKeeps(MarkWaiting(cs, chosen), Crown(MarkWaiting(cs, chosen), seated));
  }

  /** A boundary keeps a sorted list sorted. */
  lemma RotateKeepsSorted(cfg: Config, s: State, keys: set<AccountId>)
    requires Sorted(s.proposed)
    ensures Sorted(Rotate(cfg, s, keys).proposed)
  {
    hide Sorted, PreparePass, EligibleIds, SlashStale, Without;
    QueueKeepsSorted(s);
    SlashKeepsSorted(cfg, QueueAuthors(s));
    PrepareKeepsSorted(BeforePrepare(cfg, s).proposed);
    SeatingKeepsSorted(Prepare(BeforePrepare(cfg, s)).proposed, Picked(cfg, s), Handed(cfg, s));
  }

  // ---------- steps and runs ----------

  lemma BlockOrder(cfg: Config, s: State, author: Option<AccountId>)
    requires Sorted(s.proposed)
    ensures Sorted(NewBlock(cfg, s, author).proposed)
  {
    SameOrderKeeps(s.proposed, NewBlock(cfg, s, author).proposed);
  }

  /** A sorted list stays sorted over a step exactly when the step keeps the order. */
  lemma StepOrder(cfg: Config, s: State, step: Step)
    requires Inv(cfg, s) && Sorted(s.proposed)
    ensures Sorted(Apply(cfg, s, step).proposed) <==> KeepsOrder(cfg, s, step)
  {
    hide Inv, Sorted, Rotate, NewBlock;
    if IsCall(step) {
      if Call(cfg, s, step).Ok? {
        if step.RegisterStep? {
          RegisterOrder(cfg, s, step.who);
        } else if step.CommissionStep? || step.LeaveStep? || step.CorrectStep? {
          PlainCallOrder(cfg, s, step);
          hide Call, KeepsOrder;
        } else {
          SortingCalls(cfg, s, step);
          hide Call;
        }
      }
    } else if step.BlockStep? {
      BlockOrder(cfg, s, step.author);
    } else if step.RotateStep? {
      RotateKeepsSorted(cfg, s, step.keys);
    }
  }

  /** The list is sorted after every prefix of the run. */
  ghost predicate SortedThroughout(cfg: Config, s: State, steps: seq<Step>) {
    forall k :: 0 <= k <= |steps| ==> Sorted(Run(cfg, s, steps[..k]).proposed)
  }

  predicate OrderKept(cfg: Config, s: State, steps: seq<Step>) {
    forall k {:trigger steps[k]} :: 0 <= k < |steps| ==> KeepsOrder(cfg, Run(cfg, s, steps[..k]), steps[k])
  }

  lemma OrderAt(cfg: Config, s: State, steps: seq<Step>, k: nat)
    requires Reachable(cfg, s) && Feasible(cfg, s, steps) && k < |steps|
    requires Sorted(Run(cfg, s, steps[..k]).proposed)
    ensures Sorted(Run(cfg, s, steps[..k + 1]).proposed) <==> KeepsOrder(cfg, Run(cfg, s, steps[..k]), steps[k])
  {
    hide Run, Feasible, Reachable, Inv, Sorted, KeepsOrder, Apply;
    FeasiblePrefix(cfg, s, steps, k);
    ReachableOnward(cfg, s, steps[..k]);
    ReachableHolds(cfg, Run(cfg, s, steps[..k]));
    StepOrder(cfg, Run(cfg, s, steps[..k]), steps[k]);
    RunPrefix(cfg, s, steps, k);
  }

  lemma {:induction false} OrderUpTo(cfg: Config, s: State, steps: seq<Step>, k: nat)
    requires Reachable(cfg, s) && Feasible(cfg, s, steps) && k <= |steps|
    requires Sorted(s.proposed) && OrderKept(cfg, s, steps)
    ensures Sorted(Run(cfg, s, steps[..k]).proposed)
  {
    hide Feasible, Reachable, Sorted, KeepsOrder, Apply;
    if k == 0 {
    } else {
      OrderUpTo(cfg, s, steps, k - 1);
      OrderAt(cfg, s, steps, k - 1);
      assert KeepsOrder(cfg, Run(cfg, s, steps[..k - 1]), steps[k - 1]);
    }
  }

  /** The documented order holds all through a run exactly when it holds at the start and no
      unsorted write of the run breaks it. */
  lemma SortedExactly(cfg: Config, s: State, steps: seq<Step>)
    requires Reachable(cfg, s) && Feasible(cfg, s, steps)
    ensures SortedThroughout(cfg, s, steps) <==> Sorted(s.proposed) && OrderKept(cfg, s, steps)
  {
    hide Feasible, Reachable, Sorted, KeepsOrder, Apply;
    if SortedThroughout(cfg, s, steps) {
      assert Run(cfg, s, steps[..0]) == s;
      forall k | 0 <= k < |steps|
        ensures KeepsOrder(cfg, Run(cfg, s, steps[..k]), steps[k])
      {
        OrderAt(cfg, s, steps, k);
        assert Sorted(Run(cfg, s, steps[..k + 1]).proposed);
      }
    }
    if Sorted(s.proposed) && OrderKept(cfg, s, steps) {
      forall k | 0 <= k <= |steps|
        ensures Sorted(Run(cfg, s, steps[..k]).proposed)
      {
        OrderUpTo(cfg, s, steps, k);
      }
    }
  }
}
