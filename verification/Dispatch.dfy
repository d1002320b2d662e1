/** The nine dispatchables and the block hook, as functions on the state. */
module Dispatch {
  import opened Types
  import opened Registry
  import opened Stakes

  // ---------- the currency ----------

  function Reserve(s: State, who: AccountId, amount: nat): State
    requires amount <= Balance(s.free, who)
  {
    s.(free := s.free[who := Balance(s.free, who) - amount],
       reserved := s.reserved[who := Balance(s.reserved, who) + amount])
  }

  /** `unreserve` releases the lesser of the request and what is reserved. */
  function Released(s: State, who: AccountId, amount: nat): nat {
    Min(amount, Balance(s.reserved, who))
  }

  function Unreserve(s: State, who: AccountId, amount: nat): State {
    var actual := Released(s, who, amount);
    s.(free := s.free[who := Balance(s.free, who) + actual],
       reserved := s.reserved[who := Balance(s.reserved, who) - actual])
  }

  // ---------- shared pieces ----------

  /** The error of the first seat that `who` holds, if any. */
  function SeatError(s: State, who: AccountId): Option<Error> {
    if who in s.waiting then Some(StillWaiting)
    else if who in s.invulnerables then Some(StillQueuing)
    else if who in s.validators then Some(StillAuthoring)
    else None
  }

  function Put(s: State, c: Candidate): State
    requires Has(s.proposed, c.who)
  {
    s.(proposed := s.proposed[Find(s.proposed, c.who) := c])
  }

  function PutAndSort(s: State, c: Candidate): State
    requires Has(s.proposed, c.who)
  {
    s.(proposed := Sort(s.proposed[Find(s.proposed, c.who) := c]))
  }

  /** `Vec::retain` on a list of accounts. */
  function Without(ws: seq<AccountId>, gone: set<AccountId>): (r: seq<AccountId>)
    ensures forall a :: a in r <==> a in ws && a !in gone
    ensures |r| <= |ws|
  {
    if ws == [] then []
    else
      var last := ws[|ws| - 1];
      assert ws == ws[..|ws| - 1] + [last];
      Without(ws[..|ws| - 1], gone) + (if last in gone then [] else [last])
  }

  lemma {:induction false} WithoutNothing(ws: seq<AccountId>, gone: set<AccountId>)
    requires forall a :: a in ws ==> a !in gone
    ensures Without(ws, gone) == ws
  {
    if ws == [] {
    } else {
      WithoutNothing(ws[..|ws| - 1], gone);
      assert ws == ws[..|ws| - 1] + [ws[|ws| - 1]];
    }
  }

  // ---------- dispatchables ----------

  function NewCandidate(who: AccountId, now: nat): Candidate {
    Candidate(who, 0, 0, now, now, false, false, 0, Online)
  }

  function Register(cfg: Config, s: State, who: AccountId): Outcome {
    if Has(s.proposed, who) then Err(CandidateAlreadyExists)
    else if |s.proposed| >= cfg.maxCandidates then Err(CandidateMaxExceeded)
    else Ok(s.(proposed := s.proposed + [NewCandidate(who, s.now)]))
  }

  /** The difference between two bonds, reserved or released. */
  function Rebonded(s: State, who: AccountId, bond: nat, newBond: nat): (t: State)
    requires newBond > bond ==> newBond - bond <= Balance(s.free, who)
    ensures t == s.(free := t.free, reserved := t.reserved)
  {
    if newBond > bond then Reserve(s, who, newBond - bond)
    else if newBond < bond then Unreserve(s, who, bond - newBond)
    else s
  }

  /** `reserveOk` is the currency's answer, should it be asked to reserve. */
  function Bond(cfg: Config, s: State, who: AccountId, newBond: nat, reserveOk: bool): Outcome {
    if newBond == 0 && SeatError(s, who).Some? then Err(SeatError(s, who).value)
    else if 0 < newBond < cfg.minBond then Err(InsufficientBond)
    else if !Has(s.proposed, who) then Err(CandidateNotFound)
    else
      var c := Look(s.proposed, who).value;
      var bonded := c.(bond := newBond, lastUpdated := s.now);
      if newBond > c.bond && Balance(s.free, who) < newBond - c.bond then Err(InsufficientBalance)
      else if newBond > c.bond && !reserveOk then Err(ReserveRefused)
      else Ok(PutAndSort(Rebonded(s, who, c.bond, newBond), bonded))
  }

  function SetCommission(s: State, who: AccountId, commission: nat): Outcome {
    if !(1 <= commission <= 100) then Err(InvalidCommission)
    else if !Has(s.proposed, who) then Err(CandidateNotFound)
    else Ok(Put(s, Look(s.proposed, who).value.(commission := commission, lastUpdated := s.now)))
  }

  /** `recompute_total_stake` on a registered candidate. */
  function Recompute(s: State, candidate: AccountId): State
    requires Has(s.proposed, candidate)
  {
    var c := Look(s.proposed, candidate).value;
    PutAndSort(s, c.(totalStake := Fold(DelegationsOf(s, candidate)), lastUpdated := s.now))
  }

  function Stake(cfg: Config, s: State, who: AccountId, candidate: AccountId, amount: nat, reserveOk: bool): Outcome {
    var ds := DelegationsOf(s, candidate);
    if who == candidate then Err(DelegationToSelfNotAllowed)
    else if !Has(s.proposed, candidate) then Err(CandidateDoesNotExist)
    else if Balance(s.free, who) < amount then Err(DelegationInsufficientBalance)
    else if !reserveOk then Err(ReserveRefused)
    else if FindDelegator(ds, who) == |ds| && |ds| >= cfg.maxDelegations then Err(DelegationsMaxExceeded)
    else
      var t := Reserve(s, who, amount);
      Ok(Recompute(t.(delegations := t.delegations[candidate := Added(ds, who, amount)]), candidate))
  }

  /** A call that finds no registered candidate is undone as a whole, so it frees nothing. */
  function Unstake(s: State, who: AccountId, candidate: AccountId): Outcome {
    var ds := DelegationsOf(s, candidate);
    var i := FindDelegator(ds, who);
    if candidate !in s.delegations then Err(NoDelegationsForCandidate)
    else if i == |ds| then Err(DelegationNotFound)
    else if !Has(s.proposed, candidate) then Err(CandidateNotFound)
    else
      var t := Unreserve(s, who, ds[i].stake);
      var rest := Removed(ds, who);
      Ok(Recompute(
           t.(delegations := if rest == [] then t.delegations - {candidate} else t.delegations[candidate := rest]),
           candidate))
  }

  function SetOffline(s: State, who: AccountId, offline: bool): Outcome {
    if !Has(s.proposed, who) then Err(CandidateNotFound)
    else Ok(PutAndSort(s, Look(s.proposed, who).value.(offline := offline, lastUpdated := s.now)))
  }

  function Leave(s: State, who: AccountId): Outcome {
    if !Has(s.proposed, who) then Err(CandidateNotFound)
    else
      var c := Look(s.proposed, who).value;
      if !c.offline then Err(StillOnline)
      else if SeatError(s, who).Some? then Err(SeatError(s, who).value)
      else
        var t := Put(s, c.(leaving := true, lastUpdated := s.now));
        Ok(t.(waiting := Without(t.waiting, {who})))
  }

  function Correct(s: State, who: AccountId, amount: nat): Outcome {
    if !Has(s.proposed, who) then Err(CandidateNotFound)
    else
      var c := Look(s.proposed, who).value;
      if !c.offline then Err(StillOnline)
      else if SeatError(s, who).Some? then Err(SeatError(s, who).value)
      else Ok(Put(Unreserve(s, who, amount), c.(bond := 0, lastUpdated := s.now)))
  }

  // ---------- the block hook ----------

  function RecordAuthored(s: State, who: AccountId): State {
    if !Has(s.proposed, who) then s
    else Put(s, Look(s.proposed, who).value.(lastAuthored := s.now))
  }

  /** The push is dropped when the bounded list is full. */
  function AddActualAuthor(cfg: Config, s: State, who: AccountId): State {
    if who in s.actualAuthors || |s.actualAuthors| >= cfg.maxCandidates then s
    else s.(actualAuthors := s.actualAuthors + [who])
  }

  /** A new block and `on_initialize` on it. */
  function NewBlock(cfg: Config, s: State, author: Option<AccountId>): State {
    var t := s.(now := s.now + 1);
    match author
    case None => t
    case Some(a) => AddActualAuthor(cfg, RecordAuthored(t, a), a)
  }
}
