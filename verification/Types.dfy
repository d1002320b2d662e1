/** The storage items of the staking pallet, the session pallet's two validator lists and the
    reserve ledger, as one value. */
module Types {

  type AccountId = nat

  /** `u128::MAX`; balances are unbounded here and saturate only where the pallet says so. */
  const MAX_BALANCE: nat := 0xFFFF_FFFF_FFFF_FFFF_FFFF_FFFF_FFFF_FFFF

  datatype Option<+T> = None | Some(value: T)

  /** How far a candidate has come: registered, in line, next to act, acting. */
  datatype Status = Offline | Online | Waiting | Queuing | Authoring

  datatype Candidate = Candidate(
    who: AccountId,
    bond: nat,
    totalStake: nat,
    lastUpdated: nat,
    lastAuthored: nat,
    leaving: bool,
    offline: bool,
    commission: nat,
    status: Status)

  datatype Delegation = Delegation(delegator: AccountId, stake: nat)

  /** The pallet's `Config` constants. */
  datatype Config = Config(maxCandidates: nat, maxDelegations: nat, minBond: nat, maxStaling: nat)

  datatype State = State(
    // pallet-xode-staking
    proposed: seq<Candidate>,
    waiting: seq<AccountId>,
    invulnerables: seq<AccountId>,
    desired: seq<AccountId>,
    delegations: map<AccountId, seq<Delegation>>,
    actualAuthors: seq<AccountId>,
    // pallet-session: the acting set, the set that acts next, the block of the last rotation
    validators: seq<AccountId>,
    queued: seq<AccountId>,
    startedAt: nat,
    // the currency
    free: map<AccountId, nat>,
    reserved: map<AccountId, nat>,
    // frame-system
    now: nat)

  datatype Error =
    | CandidateAlreadyExists
    | CandidateMaxExceeded
    | CandidateNotFound
    | InvalidCommission
    | InsufficientBalance
    | InsufficientBond
    | StillOnline
    | StillWaiting
    | StillQueuing
    | StillAuthoring
    | DelegationToSelfNotAllowed
    | DelegationInsufficientBalance
    | CandidateDoesNotExist
    | DelegationNotFound
    | NoDelegationsForCandidate
    | DelegationsMaxExceeded
    | ReserveRefused // raised by the currency, not by the pallet

  /** What a dispatchable does to the state: FRAME discards every write of a failing call. */
  datatype Outcome = Ok(state: State) | Err(error: Error)

  function Min(a: int, b: int): int {
    if a <= b then a else b
  }

  function SaturatingAdd(a: nat, b: nat): nat {
    Min(a + b, MAX_BALANCE)
  }

  function SaturatingSub(a: nat, b: nat): nat {
    if a <= b then 0 else a - b
  }

  /** A ledger entry; absent accounts hold nothing. */
  function Balance(ledger: map<AccountId, nat>, who: AccountId): nat {
    if who in ledger then ledger[who] else 0
  }

  function DelegationsOf(s: State, who: AccountId): seq<Delegation> {
    if who in s.delegations then s.delegations[who] else []
  }

  /** The storage and session items no dispatchable writes. */
  predicate SameSeats(s: State, t: State) {
    && t.waiting == s.waiting
    && t.invulnerables == s.invulnerables
    && t.desired == s.desired
    && t.actualAuthors == s.actualAuthors
    && t.validators == s.validators
    && t.queued == s.queued
    && t.startedAt == s.startedAt
    && t.now == s.now
  }
}
