/** pallet-xode-account-freezer: the marker map, the currency's freezes for its reason, and the
    events an observer sees. */
module Freezer {
  import opened Types

  datatype FreezeError = AlreadyFrozen | NotFrozen | AmountExceedsFrozen | CurrencyRefused

  datatype Event =
    | AccountFrozen(who: AccountId)
    | AmountFrozen(who: AccountId, amount: nat)
    | AccountThawed(who: AccountId)
    | AmountThawed(who: AccountId, amount: nat)

  datatype Freezes = Freezes(marked: set<AccountId>, frozen: map<AccountId, nat>, events: seq<Event>)

  datatype Answer = Done(state: Freezes) | Refused(error: FreezeError)

  // ---------- the currency ----------

  /** The currency drops a freeze that is set to nothing. */
  function SetFreeze(frozen: map<AccountId, nat>, who: AccountId, amount: nat): map<AccountId, nat> {
    if amount == 0 then frozen - {who} else frozen[who := amount]
  }

  // ---------- dispatchables; `ok` is the currency's answer ----------

  function FreezeWith(s: Freezes, who: AccountId, amount: nat, event: Event, ok: bool): Answer {
    if who in s.marked then Refused(AlreadyFrozen)
    else if !ok then Refused(CurrencyRefused)
    else Done(Freezes(s.marked + {who}, SetFreeze(s.frozen, who, amount), s.events + [event]))
  }

  function FreezeAccount(s: Freezes, who: AccountId, ok: bool): Answer {
    FreezeWith(s, who, MAX_BALANCE, AccountFrozen(who), ok)
  }

  function FreezeAmount(s: Freezes, who: AccountId, amount: nat, ok: bool): Answer {
    FreezeWith(s, who, amount, AmountFrozen(who, amount), ok)
  }

  function ThawAccount(s: Freezes, who: AccountId, ok: bool): Answer {
    if who !in s.marked then Refused(NotFrozen)
    else if !ok then Refused(CurrencyRefused)
    else Done(Freezes(s.marked - {who}, s.frozen - {who}, s.events + [AccountThawed(who)]))
  }

  function ThawAmount(s: Freezes, who: AccountId, amount: nat, ok: bool): Answer {
    if who !in s.marked then Refused(NotFrozen)
    else if amount > Balance(s.frozen, who) then Refused(AmountExceedsFrozen)
    else if !ok then Refused(CurrencyRefused)
    else
      var remaining := Balance(s.frozen, who) - amount;
      Done(Freezes(
             if remaining == 0 then s.marked - {who} else s.marked,
             SetFreeze(s.frozen, who, remaining),
             s.events + [AmountThawed(who, amount)]))
  }

  // ---------- when each call succeeds, and what it leaves ----------

  lemma FreezeAccountExactly(s: Freezes, who: AccountId, ok: bool, other: AccountId)
    ensures var r := FreezeAccount(s, who, ok);
      && (r == Refused(AlreadyFrozen) <==> who in s.marked)
      && (r == Refused(CurrencyRefused) <==> who !in s.marked && !ok)
      && (r.Done? <==> who !in s.marked && ok)
      && (r.Done? ==>
            && (other in r.state.marked <==> other in s.marked || other == who)
            && Balance(r.state.frozen, other) == (if other == who then MAX_BALANCE else Balance(s.frozen, other))
            && r.state.events == s.events + [AccountFrozen(who)])
  {
  }

  /** An amount of zero is frozen as any other. */
  lemma FreezeAmountExactly(s: Freezes, who: AccountId, amount: nat, ok: bool, other: AccountId)
    ensures var r := FreezeAmount(s, who, amount, ok);
      && (r == Refused(AlreadyFrozen) <==> who in s.marked)
      && (r == Refused(CurrencyRefused) <==> who !in s.marked && !ok)
      && (r.Done? <==> who !in s.marked && ok)
      && (r.Done? ==>
            && (other in r.state.marked <==> other in s.marked || other == who)
            && Balance(r.state.frozen, other) == (if other == who then amount else Balance(s.frozen, other))
            && r.state.events == s.events + [AmountFrozen(who, amount)])
  {
  }

  lemma ThawAccountExactly(s: Freezes, who: AccountId, ok: bool, other: AccountId)
    ensures var r := ThawAccount(s, who, ok);
      && (r == Refused(NotFrozen) <==> who !in s.marked)
      && (r == Refused(CurrencyRefused) <==> who in s.marked && !ok)
      && (r.Done? <==> who in s.marked && ok)
      && (r.Done? ==>
            && (other in r.state.marked <==> other in s.marked && other != who)
            && Balance(r.state.frozen, other) == (if other == who then 0 else Balance(s.frozen, other))
            && r.state.events == s.events + [AccountThawed(who)])
  {
  }

  /** Thawing by amount succeeds up to all that is frozen, and unmarks exactly when that is asked. */
  lemma ThawAmountExactly(s: Freezes, who: AccountId, amount: nat, ok: bool, other: AccountId)
    ensures var r := ThawAmount(s, who, amount, ok);
      && (r == Refused(NotFrozen) <==> who !in s.marked)
      && (r == Refused(AmountExceedsFrozen) <==> who in s.marked && amount > Balance(s.frozen, who))
      && (r == Refused(CurrencyRefused) <==> who in s.marked && amount <= Balance(s.frozen, who) && !ok)
      && (r.Done? <==> who in s.marked && amount <= Balance(s.frozen, who) && ok)
      && (r.Done? ==>
            && (other in r.state.marked
                <==> other in s.marked && (other == who ==> amount < Balance(s.frozen, who)))
            && Balance(r.state.frozen, other) == Balance(s.frozen, other) - (if other == who then amount else 0)
            && r.state.events == s.events + [AmountThawed(who, amount)])
  {
  }

  /** Thawing all of a frozen amount lifts the freeze as `thaw_account` does, and thawing it in two
      parts as thawing it at once. */
  lemma ThawInParts(s: Freezes, who: AccountId, first: nat, second: nat)
    requires who in s.marked && first + second == Balance(s.frozen, who) && second > 0
    ensures ThawAmount(s, who, first + second, true).Done?
    ensures ThawAmount(s, who, first, true).Done?
    ensures ThawAmount(ThawAmount(s, who, first, true).state, who, second, true).Done?
    ensures ThawAccount(s, who, true).Done?
    ensures var once, t := ThawAmount(s, who, first + second, true).state, ThawAmount(s, who, first, true).state;
            var twice, whole := ThawAmount(t, who, second, true).state, ThawAccount(s, who, true).state;
      && once.marked == twice.marked == whole.marked == s.marked - {who}
      && once.frozen == twice.frozen == whole.frozen == s.frozen - {who}
  {
    var t := ThawAmount(s, who, first, true).state;
    assert t.frozen - {who} == s.frozen - {who};
  }

  // ---------- runs ----------

  datatype Step =
    | FreezeAccountStep(who: AccountId, ok: bool)
    | FreezeAmountStep(who: AccountId, amount: nat, ok: bool)
    | ThawAccountStep(who: AccountId, ok: bool)
    | ThawAmountStep(who: AccountId, amount: nat, ok: bool)

  function Apply(s: Freezes, step: Step): Freezes {
    var answer :=
      match step
      case FreezeAccountStep(who, ok) => FreezeAccount(s, who, ok)
      case FreezeAmountStep(who, amount, ok) => FreezeAmount(s, who, amount, ok)
      case ThawAccountStep(who, ok) => ThawAccount(s, who, ok)
      case ThawAmountStep(who, amount, ok) => ThawAmount(s, who, amount, ok);
    if answer.Done? then answer.state else s
  }

  function Run(steps: seq<Step>): Freezes {
    if steps == [] then Freezes({}, map[], [])
    else Apply(Run(steps[..|steps| - 1]), steps[|steps| - 1])
  }

  // ---------- the event log as an account ----------

  /** A freeze that has not been lifted: what was frozen at first and what was released since. */
  datatype Open = Open(initial: nat, released: nat)

  /** What the event log alone says about `who`: freezes open, releases add up, and a freeze is
      over when it is lifted or all of it is released. */
  function Replay(events: seq<Event>, who: AccountId): Option<Open> {
    if events == [] then None
    else
      var past, event := Replay(events[..|events| - 1], who), events[|events| - 1];
      if event.who != who then past
      else match event
        case AccountFrozen(_) => Some(Open(MAX_BALANCE, 0))
        case AmountFrozen(_, amount) => Some(Open(amount, 0))
        case AccountThawed(_) => None
        case AmountThawed(_, amount) =>
          if past.None? || past.value.released + amount >= past.value.initial then None
          else Some(past.value.(released := past.value.released + amount))
  }

  /** The pallet's and the currency's view of `who` agree with the log. */
  predicate Agrees(s: Freezes, who: AccountId) {
    match Replay(s.events, who)
    case None => who !in s.marked && who !in s.frozen
    case Some(o) =>
      && who in s.marked
      && Balance(s.frozen, who) == o.initial - o.released
      && (o.released < o.initial || o == Open(0, 0))
      && (who in s.frozen <==> o.initial > 0)
  }

  lemma StepAgrees(s: Freezes, step: Step, who: AccountId)
    requires Agrees(s, who)
    ensures Agrees(Apply(s, step), who)
  {
    var t := Apply(s, step);
    if t != s {
      assert t.events[..|t.events| - 1] == s.events;
    }
  }

  lemma KeepsAgreement(s: Freezes, t: Freezes, step: Step)
    requires t == Apply(s, step) && forall who :: Agrees(s, who)
    ensures forall who :: Agrees(t, who)
  {
    forall who
      ensures Agrees(t, who)
    {
      StepAgrees(s, step, who);
    }
  }

  /** On every run, the frozen amount is the amount first frozen less every partial thaw since, the
      marker says exactly whether a freeze is open, and only a zero-amount freeze is marked with
      nothing frozen. */
  lemma {:induction false} FreezeAccounting(steps: seq<Step>, who: AccountId)
    ensures var s := Run(steps);
      && Agrees(s, who)
      && (who in s.marked <==> Replay(s.events, who).Some?)
      && (who in s.marked ==>
            var o := Replay(s.events, who).value; Balance(s.frozen, who) == o.initial - o.released)
      && (Balance(s.frozen, who) > 0 ==> who in s.marked)
      && (who in s.marked && Balance(s.frozen, who) == 0 ==> Replay(s.events, who) == Some(Open(0, 0)))
  {
    if steps == [] {
    } else {
      FreezeAccounting(steps[..|steps| - 1], who);
      StepAgrees(Run(steps[..|steps| - 1]), steps[|steps| - 1], who);
    }
  }

  lemma {:induction false} OpenedByEvent(events: seq<Event>, who: AccountId)
    requires Replay(events, who).Some? && Replay(events, who).value.initial == 0
    ensures AmountFrozen(who, 0) in events
  {
    var init, last := events[..|events| - 1], events[|events| - 1];
    if Replay(init, who).Some? && Replay(init, who).value.initial == 0 {
      OpenedByEvent(init, who);
    }
    assert last in events && forall e :: e in init ==> e in events;
  }

  lemma {:induction false} EventsFromSteps(steps: seq<Step>, who: AccountId)
    requires AmountFrozen(who, 0) in Run(steps).events
    ensures FreezeAmountStep(who, 0, true) in steps
  {
    var init, last := steps[..|steps| - 1], steps[|steps| - 1];
    if AmountFrozen(who, 0) in Run(init).events {
      EventsFromSteps(init, who);
    }
    assert last in steps && forall e :: e in init ==> e in steps;
  }

  /** Without zero-amount freezes of `who`, the marker means that something is frozen. */
  lemma {:induction false} MarkerMeansFrozen(steps: seq<Step>, who: AccountId)
    requires FreezeAmountStep(who, 0, true) !in steps
    ensures who in Run(steps).marked <==> Balance(Run(steps).frozen, who) > 0
  {
    var s := Run(steps);
    FreezeAccounting(steps, who);
    if who in s.marked && Balance(s.frozen, who) == 0 {
      OpenedByEvent(s.events, who);
      EventsFromSteps(steps, who);
    }
  }

  /** A zero-amount freeze leaves a marker that blocks further freezes with nothing frozen. */
  lemma EmptyFreezeMarks(who: AccountId)
    ensures var s := Run([FreezeAmountStep(who, 0, true)]);
      && who in s.marked && Balance(s.frozen, who) == 0
      && FreezeAccount(s, who, true) == Refused(AlreadyFrozen)
  {
    assert [FreezeAmountStep(who, 0, true)][..0] == [];
  }

  // ---------- the pallet ----------

  datatype CallResult = Success | Failure(error: FreezeError)

  predicate Answers(answer: Answer, before: Freezes, after: Freezes, r: CallResult) {
    match answer
    case Done(t) => r == Success && after == t
    case Refused(e) => r == Failure(e) && after == before
  }

  class AccountFreezer {
    var marked: set<AccountId>
    var frozen: map<AccountId, nat>
    var events: seq<Event>

    function Snapshot(): Freezes
      reads this
    {
      Freezes(marked, frozen, events)
    }

    /** Marker, freeze and event log agree on every account. */
    ghost predicate Valid()
      reads this
    {
      forall who :: Agrees(Snapshot(), who)
    }

    constructor ()
      ensures Valid() && Snapshot() == Freezes({}, map[], [])
    {
      marked, frozen, events := {}, map[], [];
    }

    method FreezeAccountCall(who: AccountId, ok: bool) returns (r: CallResult)
      requires Valid()
      modifies this
      ensures Valid()
      ensures Answers(FreezeAccount(old(Snapshot()), who, ok), old(Snapshot()), Snapshot(), r)
    {
      ghost var s := Snapshot();
      if who in marked { return Failure(AlreadyFrozen); }
      if !ok { return Failure(CurrencyRefused); }
      frozen := SetFreeze(frozen, who, MAX_BALANCE);
      marked := marked + {who};
      events := events + [AccountFrozen(who)];
      KeepsAgreement(s, Snapshot(), FreezeAccountStep(who, ok));
      r := Success;
    }

    method FreezeAmountCall(who: AccountId, amount: nat, ok: bool) returns (r: CallResult)
      requires Valid()
      modifies this
      ensures Valid()
      ensures Answers(FreezeAmount(old(Snapshot()), who, amount, ok), old(Snapshot()), Snapshot(), r)
    {
      ghost var s := Snapshot();
      if who in marked { return Failure(AlreadyFrozen); }
      if !ok { return Failure(CurrencyRefused); }
      frozen := SetFreeze(frozen, who, amount);
      marked := marked + {who};
      events := events + [AmountFrozen(who, amount)];
      KeepsAgreement(s, Snapshot(), FreezeAmountStep(who, amount, ok));
      r := Success;
    }

    method ThawAccountCall(who: AccountId, ok: bool) returns (r: CallResult)
      requires Valid()
      modifies this
      ensures Valid()
      ensures Answers(ThawAccount(old(Snapshot()), who, ok), old(Snapshot()), Snapshot(), r)
    {
      ghost var s := Snapshot();
      if who !in marked { return Failure(NotFrozen); }
      if !ok { return Failure(CurrencyRefused); }
      frozen := frozen - {who};
      marked := marked - {who};
      events := events + [AccountThawed(who)];
      KeepsAgreement(s, Snapshot(), ThawAccountStep(who, ok));
      r := Success;
    }

    method ThawAmountCall(who: AccountId, amount: nat, ok: bool) returns (r: CallResult)
      requires Valid()
      modifies this
      ensures Valid()
      ensures Answers(ThawAmount(old(Snapshot()), who, amount, ok), old(Snapshot()), Snapshot(), r)
    {
      ghost var s := Snapshot();
      if who !in marked { return Failure(NotFrozen); }
      var held := Balance(frozen, who);
      if amount > held { return Failure(AmountExceedsFrozen); }
      if !ok { return Failure(CurrencyRefused); }
      var remaining := held - amount;
      if remaining == 0 {
        frozen := frozen - {who};
        marked := marked - {who};
      } else {
        frozen := SetFreeze(frozen, who, remaining);
      }
      events := events + [AmountThawed(who, amount)];
      KeepsAgreement(s, Snapshot(), ThawAmountStep(who, amount, ok));
      r := Success;
    }
  }
}
