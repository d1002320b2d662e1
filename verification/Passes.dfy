/** The boundary in the terms of the chain: what each pass, and all of them together, make of each
    candidate, field by field, without the functions that model them. */
module Passes {
  import opened Types
  import opened Registry
  import opened Dispatch
  import opened Sessions
  import opened Runs
  import opened Effects
  import opened Invariants
  import opened Boundary
  import opened Safety

  // ---------- the passes ----------

  /** Stale at a boundary reached in `s`, as the pallet's documentation has it. */
  predicate Hit(cfg: Config, s: State, c: Candidate) {
    && c.who in s.validators && c.who !in s.actualAuthors && c.who !in s.desired
    && s.now - c.lastAuthored > cfg.maxStaling
  }

  /** `queue_authors` moves the waiting list into the seats and the waiting candidates on it one
      step up; without anybody waiting it does nothing. */
  lemma QueueExactly(s: State)
    ensures s.waiting == [] ==> QueueAuthors(s) == s
    ensures s.waiting != [] ==>
              var t := QueueAuthors(s);
              && t == s.(proposed := t.proposed, invulnerables := s.waiting)
              && |t.proposed| == |s.proposed|
              && forall i {:trigger t.proposed[i]} :: 0 <= i < |s.proposed| ==>
                   var c := s.proposed[i];
                   t.proposed[i]
                   == if c.status == Waiting && c.who in s.waiting then c.(status := Queuing) else c
  {
  }

  /** `slash_stale_authors` writes the flag and the time of the stale, empties the record of authors,
      and sorts if it hit anybody. */
  lemma SlashExactly(cfg: Config, s: State, who: AccountId)
    requires Unique(s.proposed)
    ensures var t := SlashStale(cfg, s); t == s.(proposed := t.proposed, actualAuthors := [])
    ensures Look(SlashStale(cfg, s).proposed, who)
         == match Look(s.proposed, who)
            case None => None
            case Some(c) =>
              if Hit(cfg, s, c) then Some(c.(offline := true, lastUpdated := s.now)) else Some(c)
    ensures if forall c :: c in s.proposed ==> !Hit(cfg, s, c) then SlashStale(cfg, s).proposed == s.proposed
            else exists cs ::
              && SlashStale(cfg, s).proposed == Sort(cs) && |cs| == |s.proposed|
              && forall i :: 0 <= i < |cs| ==>
                   cs[i] == if Hit(cfg, s, s.proposed[i])
                            then s.proposed[i].(offline := true, lastUpdated := s.now) else s.proposed[i]
  {
    SlashLook(cfg, s, who);
    assert forall c :: Stale(cfg, s, c) <==> Hit(cfg, s, c);
    if exists c :: c in s.proposed && Stale(cfg, s, c) {
      assert SlashStale(cfg, s).proposed == Sort(Slashed(cfg, s, s.proposed));
    }
    hide Find;
  }

  /** `prepare_next_waiting_list` leaves qualified candidates alone and takes every other one down
      by one status or out of the list, a waiting one also off the waiting list. */
  lemma PrepareExactly(s: State, who: AccountId)
    requires Unique(s.proposed)
    ensures var t := Prepare(s); t == s.(proposed := t.proposed, waiting := t.waiting)
    ensures Look(Prepare(s).proposed, who)
         == match Look(s.proposed, who)
            case None => None
            case Some(c) =>
              if !c.offline && !c.leaving && c.bond > 0 then Some(c)
              else if c.status == Authoring then Some(c.(status := Queuing))
              else if c.status == Queuing then Some(c.(status := Waiting))
              else None
    ensures who in Prepare(s).waiting
       <==> && who in s.waiting
            && match Look(s.proposed, who)
               case None => true
               case Some(c) => (!c.offline && !c.leaving && c.bond > 0) || c.status != Waiting
  {
    PrepareLook(s.proposed, who);
    if who in Unwaited(s.proposed) {
      var c :| c in s.proposed && Disqualified(c) && c.status == Waiting && c.who == who;
      LookIn(s.proposed, c);
    } else if Has(s.proposed, who) {
      LookIn(s.proposed, Look(s.proposed, who).value);
    }
    hide PreparePass, Find, Unique;
  }

  /** `refresh_waiting_list` marks the online candidates that it elects as waiting and writes no
      other status. */
  lemma RefreshExactly(cfg: Config, s: State)
    requires Unique(s.proposed)
    ensures var t := Refresh(cfg, s);
      && t == s.(proposed := t.proposed, waiting := t.waiting)
      && s.desired <= t.waiting
      && |t.proposed| == |s.proposed|
      && forall i {:trigger t.proposed[i]} :: 0 <= i < |s.proposed| ==>
           var c := s.proposed[i];
           t.proposed[i]
           == if c.status == Online && c.who in t.waiting && c.who !in s.desired then c.(status := Waiting) else c
  {
    var t, chosen := Refresh(cfg, s), Chosen(cfg, s);
    forall i {:trigger t.proposed[i]} | 0 <= i < |s.proposed|
      ensures s.proposed[i].who in chosen
         <==> s.proposed[i].who in t.waiting && s.proposed[i].who !in s.desired
    {
      EligibleMembers(s.proposed, s.desired, s.proposed[i].who);
    }
    hide EligibleIds, Find;
  }

  /** `new_session` marks the validator set as authoring and hands it out. */
  lemma SeatingExactly(s: State)
    ensures var t := NewSession(s);
      && t == s.(proposed := t.proposed)
      && |t.proposed| == |s.proposed|
      && forall i {:trigger t.proposed[i]} :: 0 <= i < |s.proposed| ==>
           var c := s.proposed[i];
           t.proposed[i] == if c.who in s.invulnerables then c.(status := Authoring) else c
  {
  }

  /** The prepare pass keeps the order of the candidates that it keeps. */
  lemma {:induction false} PrepareInOrder(cs: seq<Candidate>, i: nat, j: nat)
    requires Unique(cs) && i < j < |PreparePass(cs)|
    ensures Find(cs, PreparePass(cs)[i].who) < Find(cs, PreparePass(cs)[j].who) < |cs|
  {
    var init, last := cs[..|cs| - 1], cs[|cs| - 1];
    var r := PreparePass(init);
    InitUnique(cs);
    assert cs == init + [last];
    PrepareSource(init, r[i]);
    FindPrefix(init, last, r[i].who);
    if j < |r| {
      PrepareInOrder(init, i, j);
      FindPrefix(init, last, r[j].who);
    } else {
      LookAt(cs, |init|);
    }
  }

  // ---------- the whole boundary ----------

  /** Leaving, offline or without a bond by the time of the prepare pass. */
  predicate Fails(cfg: Config, s: State, c: Candidate) {
    Hit(cfg, s, c) || c.offline || c.leaving || c.bond == 0
  }

  /** The status of `c` once the waiting list is queued. */
  function QueuedStatus(s: State, c: Candidate): Status {
    if c.status == Waiting && c.who in s.waiting then Queuing else c.status
  }

  lemma OneExactly(cfg: Config, s: State, c: Candidate, chosen: seq<AccountId>, seated: seq<AccountId>)
    ensures RotateOne(cfg, s, c, chosen, seated).None?
       <==> Fails(cfg, s, c) && QueuedStatus(s, c) != Authoring && QueuedStatus(s, c) != Queuing
    ensures match RotateOne(cfg, s, c, chosen, seated)
            case None => true
            case Some(d) =>
              && d == c.(status := d.status,
                         offline := c.offline || Hit(cfg, s, c),
                         lastUpdated := if Hit(cfg, s, c) then s.now else c.lastUpdated)
              && d.status == (if c.who in seated then Authoring
                              else if Fails(cfg, s, c) then
                                if QueuedStatus(s, c) == Authoring then Queuing else Waiting
                              else if c.status == Online && c.who in chosen then Waiting
                              else QueuedStatus(s, c))
  {
  }

  /** Who is elected: on the new waiting list beside the genesis accounts. */
  lemma PickedAre(cfg: Config, s: State, keys: set<AccountId>, who: AccountId)
    requires Unique(s.proposed) && |s.desired| <= cfg.maxCandidates
    ensures who in Picked(cfg, s) <==> who in Rotate(cfg, s, keys).waiting && who !in s.desired
  {
    hide Rotate, Picked, Handed;
    RotateSeats(cfg, s, keys);
    PickedFacts(cfg, s);
  }

  /** All that a boundary does to the record of one account. */
  lemma RotateExactly(cfg: Config, s: State, keys: set<AccountId>, who: AccountId)
    requires Unique(s.proposed) && |s.desired| <= cfg.maxCandidates
    ensures !Has(s.proposed, who) ==> !Has(Rotate(cfg, s, keys).proposed, who)
    ensures Has(s.proposed, who) ==>
              var c, t := Look(s.proposed, who).value, Rotate(cfg, s, keys);
              && (!Has(t.proposed, who)
                  <==> Fails(cfg, s, c) && QueuedStatus(s, c) != Authoring && QueuedStatus(s, c) != Queuing)
              && (Has(t.proposed, who) ==>
                    var d := Look(t.proposed, who).value;
                    && d == c.(status := d.status,
                               offline := c.offline || Hit(cfg, s, c),
                               lastUpdated := if Hit(cfg, s, c) then s.now else c.lastUpdated)
                    && d.status == (if who in t.invulnerables then Authoring
                                    else if Fails(cfg, s, c) then
                                      if QueuedStatus(s, c) == Authoring then Queuing else Waiting
                                    else if c.status == Online && who in t.waiting && who !in s.desired then Waiting
                                    else QueuedStatus(s, c)))
  {
    hide Rotate, RotateOne, Picked, Handed, Hit, Fails, QueuedStatus;
    RotateLook(cfg, s, keys, who);
    RotateSeats(cfg, s, keys);
    PickedAre(cfg, s, keys, who);
    if Has(s.proposed, who) {
      OneExactly(cfg, s, Look(s.proposed, who).value, Picked(cfg, s), Handed(cfg, s));
    }
  }

  /** The seats after a boundary: the waiting list if there is one, else the seats as they were. */
  lemma SeatsExactly(cfg: Config, s: State, keys: set<AccountId>, who: AccountId)
    ensures var t := Rotate(cfg, s, keys);
      && t.invulnerables == (if s.waiting == [] then s.invulnerables else s.waiting)
      && t.validators == s.queued
      && t.queued == Keyed(t.invulnerables, keys)
      && (who in t.queued <==> who in t.invulnerables && who in keys)
      && t.desired == s.desired && t.actualAuthors == [] && t.startedAt == t.now == s.now
      && t.delegations == s.delegations && t.free == s.free && t.reserved == s.reserved
  {
    hide Rotate, Picked;
    RotateSeats(cfg, s, keys);
    KeyedMembers(Rotate(cfg, s, keys).invulnerables, keys, who);
  }

  // ---------- in reachable states ----------

  /** A boundary leaves a candidate that passes it online, staying and bonded as it was: its status
      changes to `Authoring` if it is handed out, from `Online` to `Waiting` if it is elected, and
      otherwise not at all. */
  lemma QualifiedUntouched(cfg: Config, s: State, keys: set<AccountId>, who: AccountId)
    requires Reachable(cfg, s) && Has(s.proposed, who)
    requires !Fails(cfg, s, Look(s.proposed, who).value)
    ensures Has(Rotate(cfg, s, keys).proposed, who)
    ensures var t, c := Rotate(cfg, s, keys), Look(s.proposed, who).value;
            Look(t.proposed, who).value
            == if who in t.invulnerables then c.(status := Authoring)
               else if c.status == Online && who in t.waiting && who !in s.desired then c.(status := Waiting)
               else c
  {
    ReachableHolds(cfg, s);
    assert AccountOk(cfg, s, who);
    hide Rotate, Find, Reachable;
    RotateExactly(cfg, s, keys, who);
    SeatsExactly(cfg, s, keys, who);
  }

  lemma FailsDisqualified(cfg: Config, s: State, c: Candidate)
    ensures Disqualified(SlashOne(cfg, s, PromoteOne(c, s.waiting))) <==> Fails(cfg, s, c)
  {
  }

  lemma FailingUnelected(cfg: Config, s: State, keys: set<AccountId>, who: AccountId)
    requires Unique(s.proposed) && |s.desired| <= cfg.maxCandidates && who !in s.desired
    requires Has(s.proposed, who) && Fails(cfg, s, Look(s.proposed, who).value)
    ensures who !in Rotate(cfg, s, keys).waiting
  {
    PickedAre(cfg, s, keys, who);
    hide *;
    if who in Picked(cfg, s) {
      PickedQualified(cfg, s, who);
      FailsDisqualified(cfg, s, Look(s.proposed, who).value);
    }
  }

  /** A boundary takes a candidate that fails it one status down, or drops it, unless it is handed
      out. */
  lemma FailingExactly(cfg: Config, s: State, keys: set<AccountId>, who: AccountId)
    requires Reachable(cfg, s) && Has(s.proposed, who) && who !in s.desired
    requires Fails(cfg, s, Look(s.proposed, who).value)
    ensures var t, c := Rotate(cfg, s, keys), Look(s.proposed, who).value;
      && who !in t.waiting
      && (who in t.invulnerables ==> Has(t.proposed, who) && Look(t.proposed, who).value.status == Authoring)
      && (who !in t.invulnerables ==>
            && (Has(t.proposed, who) <==> c.status == Authoring || c.status == Queuing)
            && (c.status == Authoring ==> Look(t.proposed, who).value.status == Queuing)
            && (c.status == Queuing ==> Look(t.proposed, who).value.status == Waiting))
  {
    ReachableHolds(cfg, s);
    assert AccountOk(cfg, s, who);
    RotateAccount(cfg, s, keys, who);
    hide Rotate, Find, Reachable;
    RotateExactly(cfg, s, keys, who);
    SeatsExactly(cfg, s, keys, who);
    FailingUnelected(cfg, s, keys, who);
  }

  /** Who is `Authoring` after a boundary: whoever is handed out, and whoever was before and passed. */
  lemma AuthoringExactly(cfg: Config, s: State, keys: set<AccountId>, who: AccountId)
    requires Reachable(cfg, s) && Has(s.proposed, who)
    requires Has(Rotate(cfg, s, keys).proposed, who)
    ensures var t, c := Rotate(cfg, s, keys), Look(s.proposed, who).value;
            Look(t.proposed, who).value.status == Authoring
            <==> who in t.invulnerables || (c.status == Authoring && !Fails(cfg, s, c))
  {
    ReachableHolds(cfg, s);
    hide Rotate, Find, Reachable;
    RotateExactly(cfg, s, keys, who);
  }

  /** An elected online candidate that is not handed out yet waits; nobody that is not elected starts
      to wait from `Online`. */
  lemma ElectedWaits(cfg: Config, s: State, keys: set<AccountId>, who: AccountId)
    requires Reachable(cfg, s) && who !in s.desired && who !in s.waiting && who !in s.invulnerables
    requires Has(s.proposed, who) && Look(s.proposed, who).value.status == Online
    ensures var t := Rotate(cfg, s, keys);
      && (who in t.waiting ==> Has(t.proposed, who) && Look(t.proposed, who).value.status == Waiting)
      && (who !in t.waiting && Has(t.proposed, who) ==> Look(t.proposed, who).value.status == Online)
  {
    ReachableHolds(cfg, s);
    RotateAccount(cfg, s, keys, who);
    hide Rotate, Find, Reachable;
    RotateExactly(cfg, s, keys, who);
    SeatsExactly(cfg, s, keys, who);
  }

  // ---------- over runs ----------

  predicate IsAuthoring(s: State, who: AccountId) {
    Has(s.proposed, who) && Look(s.proposed, who).value.status == Authoring
  }

  /** Only a boundary makes a candidate authoring, by handing it out. */
  lemma AuthoringBegins(cfg: Config, s: State, step: Step, who: AccountId)
    requires Inv(cfg, s) && !IsAuthoring(s, who) && IsAuthoring(Apply(cfg, s, step), who)
    ensures step.RotateStep? && who in Handed(cfg, s)
  {
    hide Find, Handed, NewBlock;
    if IsCall(step) {
      CallLook(cfg, s, step, who);
    } else if step.BlockStep? {
      BlockLook(cfg, s, step.author, who);
    } else if step.RotateStep? {
      RotateSeats(cfg, s, step.keys);
      RotateExactly(cfg, s, step.keys, who);
      hide Rotate;
    }
  }

  /** The set handed out at step `k` of the run had `who`, and `who` has been authoring ever since. */
  predicate AuthoringSince(cfg: Config, s: State, steps: seq<Step>, who: AccountId, k: nat) {
    && k < |steps| && steps[k].RotateStep? && who in Handed(cfg, Run(cfg, s, steps[..k]))
    && forall j :: k < j <= |steps| ==> IsAuthoring(Run(cfg, s, steps[..j]), who)
  }

  /** Whoever is authoring at the end of a run was so from the start or was handed out at some
      boundary of the run and has been authoring since. */
  lemma {:induction false} AuthoringWasHandedOut(cfg: Config, s: State, steps: seq<Step>, who: AccountId)
    requires Reachable(cfg, s) && Feasible(cfg, s, steps)
    requires !IsAuthoring(s, who) && IsAuthoring(Run(cfg, s, steps), who)
    ensures exists k: nat :: AuthoringSince(cfg, s, steps, who, k)
  {
    hide Apply, Handed, IsAuthoring, Reachable, Inv;
    ReachableHolds(cfg, s);
    if steps == [] {
    } else {
      var init, last := steps[..|steps| - 1], steps[|steps| - 1];
      var k: nat := |init|;
      RunKeeps(cfg, s, init);
      if IsAuthoring(Run(cfg, s, init), who) {
        AuthoringWasHandedOut(cfg, s, init, who);
        k :| AuthoringSince(cfg, s, init, who, k);
        assert steps[..k] == init[..k];
      } else {
        AuthoringBegins(cfg, Run(cfg, s, init), last, who);
      }
      forall j | k < j <= |steps|
        ensures IsAuthoring(Run(cfg, s, steps[..j]), who)
      {
        assert j == |steps| ==> steps[..j] == steps;
        assert j < |steps| ==> steps[..j] == init[..j];
      }
      assert AuthoringSince(cfg, s, steps, who, k);
    }
  }
}
