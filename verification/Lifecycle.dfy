/** How candidates leave: downgrades take a bounded number of boundaries and cannot be undone. */
module Lifecycle {
  import opened Types
  import opened Registry
  import opened Dispatch
  import opened Sessions
  import opened Runs
  import opened Effects
  import opened Invariants
  import opened Boundary
  import opened Safety

  /** The number of boundaries a candidate that stays disqualified has left. */
  function BoundariesLeft(s: State, who: AccountId): nat {
    match Look(s.proposed, who)
    case None => 0
    case Some(c) =>
      if who in s.waiting then 4
      else match c.status
        case Authoring => 3
        case Queuing => 2
        case _ => 1
  }

  /** The prepare pass of a boundary reached in `s` finds `who` disqualified, if it finds it. */
  predicate FoundDisqualified(cfg: Config, s: State, who: AccountId) {
    match Look(BeforePrepare(cfg, s).proposed, who)
    case None => true
    case Some(c) => Disqualified(c)
  }

  /** A boundary reached in `s` can move `who` down: seats are filled anew, or `who` has none. */
  predicate Unseats(s: State, who: AccountId) {
    s.waiting != [] || who !in s.invulnerables
  }

  /** A disqualified candidate moves from the waiting list to a seat, and from there step by step
      out of the list. */
  lemma OneDowngrades(cfg: Config, s: State, c: Candidate, chosen: seq<AccountId>, seated: seq<AccountId>)
    requires Disqualified(SlashOne(cfg, s, PromoteOne(c, s.waiting)))
    requires c.who !in chosen && (c.who in seated <==> c.who in s.waiting)
    requires c.who in s.waiting ==> Rank(c.status) >= Rank(Waiting)
    ensures match RotateOne(cfg, s, c, chosen, seated)
            case None => c.who !in s.waiting && c.status != Authoring && c.status != Queuing
            case Some(d) =>
              if c.who in s.waiting then d.status == Authoring
              else (c.status == Authoring && d.status == Queuing) || (c.status == Queuing && d.status == Waiting)
  {
  }

  /** Nobody who is found disqualified is put on the waiting list. */
  lemma NotPicked(cfg: Config, s: State, keys: set<AccountId>, who: AccountId)
    requires Unique(s.proposed) && who !in s.desired
    requires FoundDisqualified(cfg, s, who)
    ensures who !in Picked(cfg, s) && who !in Rotate(cfg, s, keys).waiting
  {
    RotateSeats(cfg, s, keys);
    hide Rotate, Picked;
    BeforePrepareLook(cfg, s, who);
    if who in Picked(cfg, s) {
      PickedQualified(cfg, s, who);
    }
  }

  lemma SeatedLeft(cfg: Config, s: State, who: AccountId)
    requires AccountOk(cfg, s, who) && who in s.invulnerables && who !in s.desired && who !in s.waiting
    ensures BoundariesLeft(s, who) == 3
  {
  }

  lemma WaitingRank(cfg: Config, s: State, who: AccountId)
    requires AccountOk(cfg, s, who) && who in s.waiting && who !in s.desired
    ensures Has(s.proposed, who) && Rank(Look(s.proposed, who).value.status) >= Rank(Waiting)
  {
  }

  lemma LeftCountsDown(cfg: Config, s: State, t: State, chosen: seq<AccountId>, seated: seq<AccountId>, c: Candidate)
    requires Look(s.proposed, c.who) == Some(c)
    requires Look(t.proposed, c.who) == RotateOne(cfg, s, c, chosen, seated) && c.who !in t.waiting
    requires Disqualified(SlashOne(cfg, s, PromoteOne(c, s.waiting)))
    requires c.who !in chosen && (c.who in seated <==> c.who in s.waiting)
    requires c.who in s.waiting ==> Rank(c.status) >= Rank(Waiting)
    ensures BoundariesLeft(t, c.who) == BoundariesLeft(s, c.who) - 1
  {
    hide RotateOne, Look, Find, SlashOne, PromoteOne, Disqualified, Rank;
    OneDowngrades(cfg, s, c, chosen, seated);
  }

  /** A boundary that finds a candidate disqualified and can move it takes exactly one from what it
      has left. */
  lemma RotateDowngrades(cfg: Config, s: State, keys: set<AccountId>, who: AccountId)
    requires Inv(cfg, s) && who !in s.desired
    requires FoundDisqualified(cfg, s, who) && Unseats(s, who)
    ensures BoundariesLeft(Rotate(cfg, s, keys), who) == SaturatingSub(BoundariesLeft(s, who), 1)
    ensures who !in Rotate(cfg, s, keys).waiting
  {
    hide Rotate, Picked, Handed, BeforePrepare, RotateOne, Disqualified, SlashOne, PromoteOne, Rank;
    assert AccountOk(cfg, s, who);
    NotPicked(cfg, s, keys, who);
    RotateLook(cfg, s, keys, who);
    HandedSet(cfg, s);
    BeforePrepareLook(cfg, s, who);
    hide Inv, AccountOk;
    if Has(s.proposed, who) {
      if who in s.waiting {
        WaitingRank(cfg, s, who);
      }
      hide BoundariesLeft;
      LeftCountsDown(cfg, s, Rotate(cfg, s, keys), Picked(cfg, s), Handed(cfg, s), Look(s.proposed, who).value);
    }
  }

  /** Without anybody waiting, a seated candidate found disqualified has as much left as before. */
  lemma SeatKeptLeft(cfg: Config, s: State, keys: set<AccountId>, who: AccountId)
    requires Inv(cfg, s) && who !in s.desired
    requires FoundDisqualified(cfg, s, who) && !Unseats(s, who)
    ensures BoundariesLeft(Rotate(cfg, s, keys), who) == BoundariesLeft(s, who) == 3
    ensures who !in Rotate(cfg, s, keys).waiting
  {
    assert AccountOk(cfg, s, who);
    NotPicked(cfg, s, keys, who);
    hide Inv, AccountOk, BoundariesLeft, Rotate;
    SeatedLeft(cfg, s, who);
    RotateSeats(cfg, s, keys);
    RotateAccount(cfg, s, keys, who);
    SeatedLeft(cfg, Rotate(cfg, s, keys), who);
  }

  /** Exactly when a boundary brings a disqualified candidate nearer to removal. */
  lemma DowngradesExactly(cfg: Config, s: State, keys: set<AccountId>, who: AccountId)
    requires Reachable(cfg, s) && Has(s.proposed, who) && who !in s.desired
    requires FoundDisqualified(cfg, s, who)
    ensures BoundariesLeft(Rotate(cfg, s, keys), who) < BoundariesLeft(s, who)
       <==> s.waiting != [] || who !in s.invulnerables
  {
    hide Reachable, Inv, Rotate, FoundDisqualified;
    ReachableHolds(cfg, s);
    if Unseats(s, who) {
      RotateDowngrades(cfg, s, keys, who);
    } else {
      SeatKeptLeft(cfg, s, keys, who);
    }
  }

  /** A record between boundaries: it keeps its status, cannot stop leaving, and can only appear
      as a fresh registration. */
  predicate QuietChange(s: State, t: State, who: AccountId) {
    match Look(s.proposed, who)
    case None => !Has(t.proposed, who) || Look(t.proposed, who) == Some(NewCandidate(who, s.now))
    case Some(c) =>
      var d := Look(t.proposed, who);
      d.Some? && d.value.status == c.status && (c.leaving ==> d.value.leaving)
  }

  lemma QuietCall(cfg: Config, s: State, step: Step, who: AccountId)
    requires Unique(s.proposed) && IsCall(step) && Call(cfg, s, step).Ok?
    ensures QuietChange(s, Call(cfg, s, step).state, who)
  {
    CallLook(cfg, s, step, who);
    hide Call;
  }

  lemma QuietStep(cfg: Config, s: State, step: Step, who: AccountId)
    requires Unique(s.proposed) && !step.RotateStep?
    ensures QuietChange(s, Apply(cfg, s, step), who)
  {
    if IsCall(step) {
      if Call(cfg, s, step).Ok? {
        QuietCall(cfg, s, step, who);
        hide Call, QuietChange;
      }
    } else if step.BlockStep? {
      BlockLook(cfg, s, step.author, who);
      hide NewBlock;
    }
  }

  lemma AbsentUnseated(cfg: Config, s: State, who: AccountId)
    requires Inv(cfg, s) && !Has(s.proposed, who) && who !in s.desired
    ensures !Placed(s, who)
  {
    assert AccountOk(cfg, s, who);
  }

  lemma QuietCount(s: State, t: State, who: AccountId)
    requires QuietChange(s, t, who) && t.waiting == s.waiting
    ensures Has(s.proposed, who) ==>
              && Has(t.proposed, who)
              && BoundariesLeft(t, who) == BoundariesLeft(s, who)
              && (Look(s.proposed, who).value.leaving ==> Look(t.proposed, who).value.leaving)
    ensures !Has(s.proposed, who) && who !in s.waiting ==> BoundariesLeft(t, who) <= 1
  {
    hide Find;
  }

  /** Between boundaries nobody moves on the ladder; an absent account can only register anew. */
  lemma QuietDowngrades(cfg: Config, s: State, step: Step, who: AccountId)
    requires Inv(cfg, s) && Enabled(s, step) && !step.RotateStep?
    ensures var t := Apply(cfg, s, step);
      && t.waiting == s.waiting && t.invulnerables == s.invulnerables
      && (Has(s.proposed, who) ==>
            && Has(t.proposed, who)
            && BoundariesLeft(t, who) == BoundariesLeft(s, who)
            && (Look(s.proposed, who).value.leaving ==> Look(t.proposed, who).value.leaving))
      && (!Has(s.proposed, who) && who !in s.desired ==> BoundariesLeft(t, who) <= 1)
  {
    hide Apply, AccountOk, BoundariesLeft, QuietChange;
    if !Has(s.proposed, who) && who !in s.desired {
      AbsentUnseated(cfg, s, who);
    }
    StepKeeps(cfg, s, step);
    QuietStep(cfg, s, step, who);
    hide Inv;
    QuietCount(s, Apply(cfg, s, step), who);
  }

  lemma QuietLeft(s: State, who: AccountId)
    ensures BoundariesLeft(s, who) <= 4
    ensures Has(s.proposed, who) <==> BoundariesLeft(s, who) > 0
  {
  }

  // ---------- bounded removal ----------

  /** Every boundary of the run that finds `who` registered finds it disqualified. */
  predicate AlwaysDisqualified(cfg: Config, s: State, steps: seq<Step>, who: AccountId) {
    forall k {:trigger steps[k]} :: 0 <= k < |steps| && steps[k].RotateStep? ==>
      FoundDisqualified(cfg, Run(cfg, s, steps[..k]), who)
  }

  /** The boundaries of the run that can move `who` down. */
  function Unseatings(cfg: Config, s: State, steps: seq<Step>, who: AccountId): nat {
    if steps == [] then 0
    else
      var init, last := steps[..|steps| - 1], steps[|steps| - 1];
      Unseatings(cfg, s, init, who)
      + (if last.RotateStep? && Unseats(Run(cfg, s, init), who) then 1 else 0)
  }

  lemma DisqualifiedBefore(cfg: Config, s: State, steps: seq<Step>, who: AccountId)
    requires AlwaysDisqualified(cfg, s, steps, who) && steps != []
    ensures AlwaysDisqualified(cfg, s, steps[..|steps| - 1], who)
    ensures steps[|steps| - 1].RotateStep? ==> FoundDisqualified(cfg, Run(cfg, s, steps[..|steps| - 1]), who)
  {
    hide Run, FoundDisqualified;
    var init := steps[..|steps| - 1];
    forall k | 0 <= k < |init| && init[k].RotateStep?
      ensures FoundDisqualified(cfg, Run(cfg, s, init[..k]), who)
    {
      assert steps[k] == init[k] && init[..k] == steps[..k];
    }
  }

  /** One step's effect on what a candidate has left, if a boundary finds it disqualified. */
  lemma StepLeft(cfg: Config, s: State, step: Step, who: AccountId)
    requires Inv(cfg, s) && Enabled(s, step) && who !in s.desired
    requires step.RotateStep? ==> FoundDisqualified(cfg, s, who)
    ensures var before, after := BoundariesLeft(s, who), BoundariesLeft(Apply(cfg, s, step), who);
      && (step.RotateStep? && Unseats(s, who) ==> after == SaturatingSub(before, 1))
      && (step.RotateStep? && !Unseats(s, who) ==> after == before == 3)
      && (!step.RotateStep? && before > 0 ==> after == before)
      && (!step.RotateStep? && before == 0 ==> after <= 1)
  {
    hide Inv, Apply, FoundDisqualified, BoundariesLeft;
    QuietLeft(s, who);
    if step.RotateStep? {
      RotateApplies(cfg, s, step);
      if Unseats(s, who) {
        RotateDowngrades(cfg, s, step.keys, who);
      } else {
        SeatKeptLeft(cfg, s, step.keys, who);
      }
    } else {
      QuietDowngrades(cfg, s, step, who);
    }
  }

  lemma {:induction false} RemovalMeasure(cfg: Config, s: State, steps: seq<Step>, who: AccountId)
    requires Inv(cfg, s) && Feasible(cfg, s, steps) && who !in s.desired
    requires AlwaysDisqualified(cfg, s, steps, who)
    ensures var left := SaturatingSub(4, Unseatings(cfg, s, steps, who));
      && BoundariesLeft(Run(cfg, s, steps), who) <= (if left == 0 then 1 else left)
      && (steps != [] && steps[|steps| - 1].RotateStep? ==> BoundariesLeft(Run(cfg, s, steps), who) <= left)
  {
    hide Inv, Apply, BoundariesLeft, FoundDisqualified, AlwaysDisqualified, Unseats;
    if steps == [] {
      QuietLeft(s, who);
    } else {
      var init, last := steps[..|steps| - 1], steps[|steps| - 1];
      DisqualifiedBefore(cfg, s, steps, who);
      RemovalMeasure(cfg, s, init, who);
      RunKeeps(cfg, s, init);
      StepLeft(cfg, Run(cfg, s, init), last, who);
    }
  }

  /** A candidate found disqualified at each boundary is gone at the latest after the fourth of
      those that can move it down, registering again notwithstanding. */
  lemma DisqualifiedAreRemoved(cfg: Config, s: State, steps: seq<Step>, who: AccountId)
    requires Reachable(cfg, s) && Feasible(cfg, s, steps) && who !in s.desired
    requires AlwaysDisqualified(cfg, s, steps, who)
    requires Unseatings(cfg, s, steps, who) >= 4 && steps[|steps| - 1].RotateStep?
    ensures !Has(Run(cfg, s, steps).proposed, who)
  {
    assert steps != [];
    hide Run, Feasible, Reachable, Inv, AlwaysDisqualified, Unseatings;
    ReachableHolds(cfg, s);
    RemovalMeasure(cfg, s, steps, who);
    QuietLeft(Run(cfg, s, steps), who);
  }

  lemma CallAbsent(cfg: Config, s: State, step: Step, who: AccountId)
    requires Unique(s.proposed) && IsCall(step) && Call(cfg, s, step).Ok? && step != RegisterStep(who)
    ensures !Has(s.proposed, who) ==> !Has(Call(cfg, s, step).state.proposed, who)
  {
    CallLook(cfg, s, step, who);
    hide Call;
  }

  lemma StaysAbsent(cfg: Config, s: State, step: Step, who: AccountId)
    requires Inv(cfg, s) && step != RegisterStep(who) && !step.RotateStep?
    ensures BoundariesLeft(s, who) == 0 ==> BoundariesLeft(Apply(cfg, s, step), who) == 0
  {
    assert Unique(s.proposed);
    hide Inv;
    QuietLeft(s, who);
    if IsCall(step) {
      if Call(cfg, s, step).Ok? {
        CallAbsent(cfg, s, step, who);
      }
      hide Call;
    } else if step.BlockStep? {
      BlockLook(cfg, s, step.author, who);
      hide NewBlock;
    }
  }

  lemma {:induction false} RemovalCountdown(cfg: Config, s: State, steps: seq<Step>, who: AccountId)
    requires Inv(cfg, s) && Feasible(cfg, s, steps) && who !in s.desired
    requires AlwaysDisqualified(cfg, s, steps, who) && RegisterStep(who) !in steps
    ensures BoundariesLeft(Run(cfg, s, steps), who)
         == SaturatingSub(BoundariesLeft(s, who), Unseatings(cfg, s, steps, who))
  {
    hide Inv, Apply, BoundariesLeft, FoundDisqualified, AlwaysDisqualified, Unseats;
    if steps == [] {
    } else {
      var init, last := steps[..|steps| - 1], steps[|steps| - 1];
      assert last in steps && forall x :: x in init ==> x in steps;
      DisqualifiedBefore(cfg, s, steps, who);
      RemovalCountdown(cfg, s, init, who);
      RunKeeps(cfg, s, init);
      StepLeft(cfg, Run(cfg, s, init), last, who);
      if !last.RotateStep? {
        StaysAbsent(cfg, Run(cfg, s, init), last, who);
      }
    }
  }

  /** Exactly when a candidate that is found disqualified at each boundary and does not register
      anew is gone: after as many boundaries that can move it as it had left. */
  lemma RemovedExactly(cfg: Config, s: State, steps: seq<Step>, who: AccountId)
    requires Reachable(cfg, s) && Feasible(cfg, s, steps) && who !in s.desired
    requires AlwaysDisqualified(cfg, s, steps, who) && RegisterStep(who) !in steps
    ensures !Has(Run(cfg, s, steps).proposed, who)
       <==> Unseatings(cfg, s, steps, who) >= BoundariesLeft(s, who)
  {
    hide Run, Feasible, Reachable, Inv, AlwaysDisqualified, Unseatings;
    ReachableHolds(cfg, s);
    RemovalCountdown(cfg, s, steps, who);
    QuietLeft(Run(cfg, s, steps), who);
  }

  lemma {:induction false} DesiredUnseat(cfg: Config, s: State, steps: seq<Step>, who: AccountId)
    requires Reachable(cfg, s) && Feasible(cfg, s, steps) && s.desired != []
    ensures Unseatings(cfg, s, steps, who) == Rotations(steps)
  {
    hide Apply, Reachable, Handed, Enabled;
    if steps == [] {
    } else {
      var init := steps[..|steps| - 1];
      DesiredUnseat(cfg, s, init, who);
      DesiredStaySeated(cfg, s, init);
    }
  }

  /** With a genesis account there is always somebody waiting, so every boundary counts. */
  lemma RemovedBesideDesired(cfg: Config, s: State, steps: seq<Step>, who: AccountId)
    requires Reachable(cfg, s) && Feasible(cfg, s, steps)
    requires s.desired != [] && who !in s.desired
    requires AlwaysDisqualified(cfg, s, steps, who)
    requires Rotations(steps) >= 4 && steps[|steps| - 1].RotateStep?
    ensures !Has(Run(cfg, s, steps).proposed, who)
  {
    hide Run, Feasible, Reachable, AlwaysDisqualified, Rotations, Unseatings;
    DesiredUnseat(cfg, s, steps, who);
    DisqualifiedAreRemoved(cfg, s, steps, who);
  }

  // ---------- seated for good ----------

  /** Without anybody waiting, a boundary removes no seated candidate, however disqualified. */
  lemma EmptyWaitingKeepsSeats(cfg: Config, s: State, keys: set<AccountId>, who: AccountId)
    requires Reachable(cfg, s) && s.waiting == []
    requires who in s.invulnerables && who !in s.desired
    ensures var t := Rotate(cfg, s, keys);
      who in t.invulnerables && Has(t.proposed, who) && Look(t.proposed, who).value.status == Authoring
  {
    ReachableHolds(cfg, s);
    assert AccountOk(cfg, s, who);
    RotateSeats(cfg, s, keys);
    RotateAccount(cfg, s, keys, who);
  }

  /** Nobody waits and every registered candidate is disqualified. */
  ghost predicate Deserted(s: State) {
    && s.waiting == [] && s.desired == []
    && forall a :: Has(s.proposed, a) ==> Disqualified(Look(s.proposed, a).value)
  }

  lemma OneStaysDisqualified(cfg: Config, s: State, c: Candidate, chosen: seq<AccountId>, seated: seq<AccountId>)
    requires Disqualified(c)
    ensures Disqualified(SlashOne(cfg, s, PromoteOne(c, s.waiting)))
    ensures match RotateOne(cfg, s, c, chosen, seated) case None => true case Some(d) => Disqualified(d)
  {
  }

  lemma FirstMember(ids: seq<AccountId>)
    ensures ids == [] || ids[0] in ids
  {
  }

  lemma DesertedRotates(cfg: Config, s: State, keys: set<AccountId>)
    requires Inv(cfg, s) && Deserted(s)
    ensures Deserted(Rotate(cfg, s, keys))
    ensures Rotate(cfg, s, keys).invulnerables == s.invulnerables
  {
    hide Rotate, Picked, Handed, RotateOne, Disqualified, SlashOne, PromoteOne;
    var t := Rotate(cfg, s, keys);
    RotateSeats(cfg, s, keys);
    HandedSet(cfg, s);
    forall a
      ensures !Has(t.proposed, a) || Disqualified(Look(t.proposed, a).value)
      ensures a !in Picked(cfg, s)
    {
      RotateLook(cfg, s, keys, a);
      if Has(s.proposed, a) {
        OneStaysDisqualified(cfg, s, Look(s.proposed, a).value, Picked(cfg, s), Handed(cfg, s));
      }
      if a in Picked(cfg, s) {
        PickedQualified(cfg, s, a);
      }
    }
    FirstMember(Picked(cfg, s));
  }

  lemma DesertedStep(cfg: Config, s: State, step: Step)
    requires Inv(cfg, s) && Deserted(s) && !IsCall(step)
    ensures Deserted(Apply(cfg, s, step))
    ensures Apply(cfg, s, step).invulnerables == s.invulnerables
  {
    var t := Apply(cfg, s, step);
    if step.RotateStep? {
      DesertedRotates(cfg, s, step.keys);
      hide *;
      RotateApplies(cfg, s, step);
    } else if step.BlockStep? {
      BlockSeats(cfg, s, step.author);
      forall a
        ensures Has(t.proposed, a) ==> Disqualified(Look(t.proposed, a).value)
      {
        BlockLook(cfg, s, step.author, a);
      }
      hide NewBlock;
    }
  }

  /** In a deserted state no number of boundaries removes a seated candidate: without calls it is
      seated and registered for good. */
  lemma {:induction false} SeatedForGood(cfg: Config, s: State, steps: seq<Step>, who: AccountId)
    requires Reachable(cfg, s) && Feasible(cfg, s, steps)
    requires Deserted(s) && who in s.invulnerables
    requires forall k :: 0 <= k < |steps| ==> !IsCall(steps[k])
    ensures var t := Run(cfg, s, steps);
      && Deserted(t) && t.invulnerables == s.invulnerables
      && Has(t.proposed, who) && Disqualified(Look(t.proposed, who).value)
  {
    hide Apply, Enabled, Reachable, Inv, Disqualified, IsCall;
    if steps == [] {
    } else {
      var init, last := steps[..|steps| - 1], steps[|steps| - 1];
      SeatedForGood(cfg, s, init, who);
      ReachableOnward(cfg, s, init);
      ReachableHolds(cfg, Run(cfg, s, init));
      DesertedStep(cfg, Run(cfg, s, init), last);
    }
    ReachableOnward(cfg, s, steps);
    SeatHoldersAreBonded(cfg, Run(cfg, s, steps), who);
  }

  // ---------- leaving ----------

  /** A candidate on its way out: leaving, and on neither list that seats are filled from. */
  predicate Departing(s: State, who: AccountId) {
    && Has(s.proposed, who) && Look(s.proposed, who).value.leaving
    && who !in s.waiting && who !in s.invulnerables && who !in s.validators
  }

  lemma LeavingDeparts(cfg: Config, s: State, who: AccountId)
    requires Reachable(cfg, s) && Has(s.proposed, who) && Look(s.proposed, who).value.leaving
    ensures Departing(s, who)
    ensures who !in s.desired && who !in Handed(cfg, s)
  {
    ReachableHolds(cfg, s);
    assert AccountOk(cfg, s, who);
    HandedSet(cfg, s);
    assert forall a :: a in s.desired ==> a in s.waiting;
  }

  lemma DepartingRotates(cfg: Config, s: State, keys: set<AccountId>, who: AccountId)
    requires Inv(cfg, s) && Departing(s, who) && who !in s.desired
    ensures BoundariesLeft(Rotate(cfg, s, keys), who) <= SaturatingSub(BoundariesLeft(s, who), 1)
    ensures Has(Rotate(cfg, s, keys).proposed, who) ==> Look(Rotate(cfg, s, keys).proposed, who).value.leaving
  {
    BeforePrepareLook(cfg, s, who);
    RotateDowngrades(cfg, s, keys, who);
    RotateLook(cfg, s, keys, who);
  }

  lemma DepartingBound(s: State, who: AccountId)
    requires Departing(s, who)
    ensures Has(s.proposed, who) && 1 <= BoundariesLeft(s, who) <= 3
  {
  }

  lemma DepartingStep(cfg: Config, s: State, step: Step, who: AccountId)
    requires Reachable(cfg, s) && Departing(s, who) && Enabled(s, step)
    requires Has(Apply(cfg, s, step).proposed, who)
    ensures Look(Apply(cfg, s, step).proposed, who).value.leaving
    ensures BoundariesLeft(Apply(cfg, s, step), who) + (if step.RotateStep? then 1 else 0) <= BoundariesLeft(s, who)
  {
    hide Reachable, Inv;
    ReachableHolds(cfg, s);
    LeavingDeparts(cfg, s, who);
    if step.RotateStep? {
      hide *;
      DepartingBound(s, who);
      DepartingRotates(cfg, s, step.keys, who);
      RotateApplies(cfg, s, step);
    } else {
      hide *;
      QuietDowngrades(cfg, s, step, who);
    }
  }

  /** `who` is registered after every prefix of the run. */
  predicate StillThere(cfg: Config, s: State, steps: seq<Step>, who: AccountId) {
    forall k :: 0 <= k <= |steps| ==> Has(Run(cfg, s, steps[..k]).proposed, who)
  }

  /** No call, `online_candidate` and `bond_candidate` included, brings a leaving candidate back:
      until it is dropped it is never waiting, seated, validating or handed out, and three
      boundaries do drop it. */
  lemma {:induction false} LeavingIsIrrevocable(cfg: Config, s: State, steps: seq<Step>, who: AccountId)
    requires Reachable(cfg, s) && Has(s.proposed, who) && Look(s.proposed, who).value.leaving
    requires Feasible(cfg, s, steps) && StillThere(cfg, s, steps, who)
    ensures Departing(Run(cfg, s, steps), who)
    ensures who !in Handed(cfg, Run(cfg, s, steps))
    ensures BoundariesLeft(Run(cfg, s, steps), who) + Rotations(steps) <= 3
    ensures Rotations(steps) < 3
  {
    hide Apply, Reachable, Handed, Departing, BoundariesLeft;
    LeavingDeparts(cfg, s, who);
    DepartingBound(s, who);
    if steps == [] {
    } else {
      var init, last := steps[..|steps| - 1], steps[|steps| - 1];
      assert steps[..|steps|] == steps;
      assert Has(Run(cfg, s, steps).proposed, who);
      forall k | 0 <= k <= |init|
        ensures Has(Run(cfg, s, init[..k]).proposed, who)
      {
        assert init[..k] == steps[..k];
      }
      LeavingIsIrrevocable(cfg, s, init, who);
      ReachableOnward(cfg, s, init);
      ReachableOnward(cfg, s, steps);
      DepartingStep(cfg, Run(cfg, s, init), last, who);
      LeavingDeparts(cfg, Run(cfg, s, steps), who);
      DepartingBound(Run(cfg, s, steps), who);
    }
  }

  /** Once `leave_candidate` has succeeded, three boundaries drop the candidate, whatever is called. */
  lemma LeaversAreDropped(cfg: Config, s: State, steps: seq<Step>, who: AccountId)
    requires Reachable(cfg, s) && Leave(s, who).Ok?
    requires Feasible(cfg, Leave(s, who).state, steps) && Rotations(steps) >= 3
    ensures exists k :: 0 <= k <= |steps| && !Has(Run(cfg, Leave(s, who).state, steps[..k]).proposed, who)
  {
    hide Run, Feasible, Reachable, Rotations;
    var step, t := LeaveStep(who), Leave(s, who).state;
    ReachableStep(cfg, s, step);
    ReachableHolds(cfg, s);
    CallLook(cfg, s, step, who);
    hide Leave;
    if StillThere(cfg, t, steps, who) {
      LeavingIsIrrevocable(cfg, t, steps, who);
    }
  }
}
