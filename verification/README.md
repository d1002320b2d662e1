# Verification of the Xode staking and account-freezer pallets

This project models two pallets of the Xode solochain and proves properties of them that hold on
every run.

**pallet-xode-staking** selects validators. Accounts register, bond, stake behind each other, step
down, come back and leave. At every session boundary four passes queue the waiting list as the next
validator set, mark stale validators offline, drop or downgrade disqualified candidates, and build a
new waiting list; then the set is handed to the session pallet. The model has four layers.

* `Types`, `Registry`, `Stakes`, `Dispatch`, `Sessions`: the storage items, the reserve ledger and the
  session pallet's lists as one value, and each operation as a function on it.
* `Pallet`: the class `XodeStaking`, whose fields are the storage items and whose methods rewrite them
  step by step as the pallet does, loops over snapshots and rollbacks included. Each method is proved
  to compute its function; each dispatchable, the block hook and the boundary also keep the invariant
  of all runs (`Valid`). A few bodies are cut into
  helper methods (`SetBond`, `MoveBond`, `Delegate`, `AddDelegation`, `Withdraw`, `TakeDelegation`,
  `RollbackSeats`, `PrepareCandidate`, `RefreshCandidate`, `PushDesired`). `Rewrites` holds the loop steps.
* `Calls`, `Passes`: what the calls and the passes of a boundary demand and write, in terms of the storage
  items alone: every refusal with its error, the exact condition of success, and every field written. They tie the functions of the first layer to the pallet's rules from outside.
* `Runs`, `Invariants`, `Boundary`, `Effects`, `Safety`, `Order`, `Selection`, `Lifecycle`, `Comeback`,
  `Staleness`, `Agreement`, `Ledger`, `Witnesses`: runs as arbitrary sequences of calls, blocks, rotations and
  moves of the rest of the chain from any genesis, the invariant, and the theorems. Everything is seen one account at a
  time, through `Look`.

**pallet-xode-account-freezer** (`Freezer`) keeps a marker per frozen account next to the freeze held
by the currency; the theorems tie both to the events that the pallet emits.

## Assumptions about the surroundings

* A failing call changes nothing: FRAME discards its writes.
* The currency may refuse to reserve (`reserveOk`) or to freeze (`ok`); `unreserve` releases the lesser
  of the request and what is reserved.
* At a boundary the session pallet calls `end_session`, seats its queued validators, calls
  `new_session` and queues those of the returned accounts that have session keys (`keys`). At genesis
  both of its lists are drawn from the genesis validators. Boundaries may come at any time.
* Block authors are members of the acting validator set.
* `LedgerStep` lets the rest of the chain change balances in any way. The theorems of `Ledger` alone
  assume that it neither touches reserves held for bonds and stakes nor mints beyond a `u128`.

## Where the code departs from its comments

* Candidates are documented as kept sorted (line 115). `register_candidate`, `leave_candidate`,
  `bond_correction` and `set_commission_of_candidate` write without sorting, and
  `Witnesses.ListUnsorted` is a run that ends unsorted. `Order.StepOrder` says for each step exactly
  when a sorted list stays sorted, and `Order.SortedExactly` for whole runs. What holds always is that
  the online candidates stand in ranking order (`Safety.OnlineAlwaysRanked`).
* The prepare pass is said to downgrade everyone else (lines 579-580); it downgrades disqualified
  candidates only, and leaves every other one as it was (`Passes.PrepareExactly`, `Passes.QualifiedUntouched`).
* Setting the bond to zero is said to signal leaving (lines 239-240); of the candidate it changes the
  bond and the time of update, not `leaving` (`Effects.CallLook`).
* `bond_correction` is meant for a stuck reserve (lines 404-405), but it also releases reserves that back
  the caller's own stakes, which go on counting. `Ledger.CorrectionCanUnbackStakes` is such a run and
  `Ledger.CorrectionExact` the exact condition under which it does not happen; `Ledger.CoveredExactly`
  extends it to whole runs.
* A candidate that was dropped and registers again starts with a recorded total of zero although stakes
  may be outstanding (`Agreement.RegisteringSyncs`); while it is absent, those stakes cannot be withdrawn
  (`Agreement.StakesLocked`, `Agreement.WithdrawnExactly`). `Witnesses.StakeStranded` is a run on which
  both happen.
* The boundary is said to drop leaving, offline and unbonded candidates (lines 579-580). It brings a
  disqualified candidate nearer to removal exactly when somebody waits or the candidate has no seat
  (`Lifecycle.DowngradesExactly`, and `Lifecycle.RemovedExactly` for runs). `Witnesses.CandidateStuck` is
  a run after which an offline candidate is seated for good. With a genesis account somebody always waits.

## Model

| member | source | states |
|---|---|---|
| `Safety.ReachableHolds` | pallets/xode-staking/src/lib.rs:153-653 | every state that any run from any genesis reaches meets the invariant: unique ranked candidates, bounded and duplicate-free seats, well-formed delegations, and for each account the status ladder and bond conditions |
| `Safety.RunsAreReachable` | pallets/xode-staking/src/lib.rs:153-162 | every feasible run from a genesis build ends in a reachable state, so what holds of reachable states holds after every run |
| `Runs.FeasibleExactly` | pallets/xode-staking/src/lib.rs:202-208 | a run is feasible if and only if every block author in it is a member of the validator set at its block |
| `Safety.GenesisExactly` | pallets/xode-staking/src/lib.rs:153-162 | the genesis build stores the given accounts as desired, waiting and seated, draws the first validators from those with session keys, and leaves everything else empty |
| `Safety.GenesisAccountsStay` | pallets/xode-staking/src/lib.rs:109-162 | on every run from a genesis build the accounts given to it stay the desired ones and lead the waiting list, the validator set and the set handed out next |
| `Safety.KeyedExactly` | runtime/src/configs/mod.rs:142-153 | of the accounts handed out, the session pallet keeps those with session keys, in order |
| `Safety.SeatHoldersAreBonded` | pallets/xode-staking/src/lib.rs:243-653 | in every reachable state a non-genesis account that waits, is seated, is queued or validates is registered, not leaving, bonded with at least the non-zero minimum, and as high on the status ladder as its seat demands |
| `Safety.HandedAreBonded` | pallets/xode-staking/src/lib.rs:638-653 | every non-genesis account that `new_session` hands out is bonded and not leaving, survives the boundary and comes out of it with status `Authoring` |
| `Safety.DesiredStaySeated` | pallets/xode-staking/src/lib.rs:153-162 | on every run the genesis accounts stay a prefix of the waiting list, of the validator set and of every set handed out |
| `Safety.SeatsNeverEmpty` | pallets/xode-staking/src/lib.rs:528-542 | once non-empty, the validator set and every set handed out stay non-empty on every run, also without genesis accounts |
| `Safety.PipelineDelay` | pallets/xode-staking/src/lib.rs:604-653 | the set handed out at a boundary is the waiting list built at the previous one, or the previous set if that list was empty, whatever happens in between |
| `Safety.WaitingWillValidate` | pallets/xode-staking/src/lib.rs:527-653 | an account with session keys that waits at one boundary is handed out there and validates from the next boundary on, whatever is called in between |
| `Safety.ElectedWillValidate` | pallets/xode-staking/src/lib.rs:527-653 | whoever is put on the waiting list at one boundary and has session keys at the next validates from the one after that on, whatever is called in between |
| `Safety.QuietRun` | pallets/xode-staking/src/lib.rs:211-425 | no sequence of calls, blocks and transfers changes the waiting list, the validator set or the session pallet's lists |
| `Invariants.LeaveSeats` | pallets/xode-staking/src/lib.rs:386-402 | the removal from the waiting list in a successful `leave_candidate` finds nothing to remove |
| `Safety.OnlineAlwaysRanked` | pallets/xode-staking/src/lib.rs:115-121 | in every reachable state online candidates stand in non-increasing order of `bond + total_stake`, and no account is listed twice |
| `Order.StepOrder` | pallets/xode-staking/src/lib.rs:115-121 | from a sorted list, every step leaves it sorted if and only if it is no registration behind an offline candidate and no commission change, leave or bond correction after which the next candidate in the list outranks the one written |
| `Order.SortedExactly` | pallets/xode-staking/src/lib.rs:115-121 | the list is sorted all through a run if and only if it is sorted at the start and every step of the run meets that condition |
| `Order.SortingCalls` | pallets/xode-staking/src/lib.rs:269-380 | bonding, staking, unstaking and going offline or online sort the list, whatever it was |
| `Order.RotateKeepsSorted` | pallets/xode-staking/src/lib.rs:528-653 | a boundary keeps a sorted list sorted |
| `Order.SortedPut` | pallets/xode-staking/src/lib.rs:280-286 | writing a record that does not move ahead leaves a list sorted if and only if the next record does not outrank it |
| `Witnesses.ListUnsorted` | pallets/xode-staking/src/lib.rs:216-233 | a concrete run from genesis, registering behind an offline candidate, ends with an unsorted list |
| `Safety.BoundsHold` | pallets/xode-staking/src/lib.rs:106-142 | in every reachable state all bounded lists respect their bounds; seats are duplicate-free if the genesis list is; delegation lists are non-empty, with one entry per delegator and none by the candidate itself; bonds are zero or at least the minimum; status `Offline` never occurs |
| `Safety.EveryAuthorRecorded` | pallets/xode-staking/src/lib.rs:517-525 | the best-effort push of a block author never finds the list full: after every block its author is on record |
| `Staleness.AuthorsStayRecorded` | pallets/xode-staking/src/lib.rs:517-577 | whoever is on record as an author stays so until the boundary, whatever is called |
| `Staleness.SessionAuthorsSpared` | pallets/xode-staking/src/lib.rs:546-577 | whoever authored a block of the session is on record at its boundary and is not slashed there, however short the staling period |
| `Invariants.RoomForAuthor` | pallets/xode-staking/src/lib.rs:517-525 | a validator not yet on the list of authors always has room on it, by counting authors against validators |
| `Registry.SortSorts` | pallets/xode-staking/src/lib.rs:474-487 | sorting orders the list by the comparator and permutes it |
| `Registry.SortRanking` | pallets/xode-staking/src/lib.rs:474-487 | read off the fields, the sorted list has online candidates first, then the larger sum of bond and stake capped at the largest balance, then the one updated longest ago |
| `Registry.SortStable` | pallets/xode-staking/src/lib.rs:474-487 | sorting keeps the relative order of tied candidates |
| `Registry.StableSortUnique` | pallets/xode-staking/src/lib.rs:474-487 | any list in order whose tied candidates stand in the original order is the sorted list, so every stable sort gives the same result |
| `Registry.SortLook` | pallets/xode-staking/src/lib.rs:474-487 | sorting leaves every account's record as it was |
| `Effects.CallLook` | pallets/xode-staking/src/lib.rs:216-436 | a successful call writes the record of exactly one account, with exactly the fields of that call changed |
| `Effects.CallDelegations` | pallets/xode-staking/src/lib.rs:294-358 | a successful call changes the delegations behind at most its target |
| `Calls.RegisterExactly` | pallets/xode-staking/src/lib.rs:216-233 | registration is refused exactly to registered accounts or on a full list, each with its error, and appends exactly a fresh online candidate with nothing bonded |
| `Calls.BondExactly` | pallets/xode-staking/src/lib.rs:243-266 | the exact condition of each error of `bond_candidate` and of success: a withdrawal needs no seat, any other bond the minimum, an increase the free balance and the currency |
| `Calls.SetCommissionExactly` | pallets/xode-staking/src/lib.rs:277-286 | a commission is set exactly for registered candidates and values from 1 to 100 |
| `Calls.StakeExactly` | pallets/xode-staking/src/lib.rs:294-322 | staking succeeds if and only if the candidate is another, registered account, the free balance suffices, the currency agrees and the caller has an entry already or the list has room; each error has its exact condition |
| `Calls.UnstakeExactly` | pallets/xode-staking/src/lib.rs:332-355 | unstaking succeeds if and only if the caller has an entry and the candidate is registered; each error has its exact condition |
| `Calls.SetOfflineExactly` | pallets/xode-staking/src/lib.rs:428-436 | going offline and coming back succeed if and only if the caller is registered |
| `Calls.DepartExactly` | pallets/xode-staking/src/lib.rs:386-424 | leaving and bond correction succeed if and only if the caller is registered, offline and without any seat, and refuse with the error of the first failing guard |
| `Calls.RecordsExactly` | pallets/xode-staking/src/lib.rs:243-507 | every field of every record after every successful call on a registered candidate, the total being the true sum of the new stakes up to the largest balance |
| `Calls.StakesExactly` | pallets/xode-staking/src/lib.rs:312-350 | the stake of every account behind every candidate after every successful call: raised by the amount, removed, or unchanged |
| `Calls.WritesInPlace` | pallets/xode-staking/src/lib.rs:277-424 | commission, leave and correction rewrite one record in its place and move nobody on the list |
| `Calls.BlockExactly` | pallets/xode-staking/src/lib.rs:202-525 | a block writes the last authored block of its author in place and appends it to the record of authors if it is new and there is room |
| `Stakes.AddedStakes` | pallets/xode-staking/src/lib.rs:312-322 | staking keeps one entry per delegator, raises the caller's stake and changes nobody else's |
| `Stakes.RemovedStakes` | pallets/xode-staking/src/lib.rs:340-350 | unstaking removes the caller's stake and changes nobody else's |
| `Stakes.FoldIsCappedTotal` | pallets/xode-staking/src/lib.rs:490-494 | the saturating fold over delegations is the true sum capped at the largest balance |
| `Stakes.AddedFolds` | pallets/xode-staking/src/lib.rs:312-324 | adding a stake raises the saturating fold by the amount up to the largest balance, although the entry saturates by itself |
| `Stakes.RemovedFolds` | pallets/xode-staking/src/lib.rs:340-355 | removing a stake lowers a fold that does not saturate by exactly that stake |
| `Boundary.RotateLook` | pallets/xode-staking/src/lib.rs:528-653 | a whole boundary, with its sort, its snapshot loops and its rewrites by account, acts on each candidate by itself, given the accounts picked and seated |
| `Passes.RotateExactly` | pallets/xode-staking/src/lib.rs:528-653 | all four passes and the seating together, for every account: exactly when a boundary drops it, and otherwise its whole new record, with flag and time of update written exactly when it is stale, and its status by whether it is handed out, failing or elected |
| `Passes.SeatsExactly` | pallets/xode-staking/src/lib.rs:528-653 | the seats after a boundary: the waiting list or the old seats, the queued validators, and those of the set handed out that have keys |
| `Passes.QueueExactly` | pallets/xode-staking/src/lib.rs:528-542 | the first pass position by position: waiting candidates on a non-empty waiting list become `Queuing`, the list becomes the validator set |
| `Passes.SlashExactly` | pallets/xode-staking/src/lib.rs:546-577 | the second pass: exactly the stale are flagged and stamped with the present block, and the list is sorted if and only if somebody was |
| `Passes.PrepareExactly` | pallets/xode-staking/src/lib.rs:581-600 | the third pass: qualified candidates stay as they are, disqualified ones go from `Authoring` to `Queuing`, from `Queuing` to `Waiting`, and otherwise from the list, a waiting one from the waiting list too |
| `Passes.RefreshExactly` | pallets/xode-staking/src/lib.rs:604-634 | the fourth pass position by position: elected `Online` candidates become `Waiting`, nobody else is written |
| `Passes.SeatingExactly` | pallets/xode-staking/src/lib.rs:638-644 | `new_session` position by position: members of the validator set become `Authoring`, nobody else is written |
| `Passes.QualifiedUntouched` | pallets/xode-staking/src/lib.rs:528-653 | a boundary leaves a candidate that it finds online, staying and bonded as it was, but for `Authoring` if handed out and `Waiting` if elected from `Online` |
| `Passes.FailingExactly` | pallets/xode-staking/src/lib.rs:528-653 | in reachable states a failing non-genesis candidate does not wait afterwards and goes one status down or is dropped, unless it is handed out |
| `Passes.AuthoringExactly` | pallets/xode-staking/src/lib.rs:528-653 | after a boundary a candidate is `Authoring` if and only if it was handed out, or was before and does not fail |
| `Passes.ElectedWaits` | pallets/xode-staking/src/lib.rs:604-634 | an unseated `Online` candidate comes out of a boundary as `Waiting` if and only if it was elected, and else `Online` or dropped |
| `Passes.AuthoringWasHandedOut` | pallets/xode-staking/src/lib.rs:528-653 | over whole runs, whoever becomes `Authoring` was handed out at some boundary and has been `Authoring` at every step since |
| `Passes.PrepareInOrder` | pallets/xode-staking/src/lib.rs:581-600 | the prepare pass keeps the order of the candidates that it keeps |
| `Boundary.RotateKeeps` | pallets/xode-staking/src/lib.rs:528-653 | a boundary keeps the whole invariant of runs |
| `Boundary.CandidateRotates` | pallets/xode-staking/src/lib.rs:528-653 | what a boundary makes of a candidate meets the candidate's part of the invariant in its new seats, status ladder included, and a candidate that it drops holds no seat, unless it is a genesis account |
| `Boundary.PrepareLook` | pallets/xode-staking/src/lib.rs:581-600 | the prepare pass keeps qualified candidates unchanged, moves each disqualified one exactly one step down or drops it, and does nothing else |
| `Boundary.PrepareKeepsOrder` | pallets/xode-staking/src/lib.rs:581-600 | the prepare pass keeps candidates unique and the online ones in ranking order |
| `Boundary.PickedQualified` | pallets/xode-staking/src/lib.rs:604-634 | only registered, non-genesis candidates that the prepare pass found qualified join the new waiting list |
| `Selection.TopContendersElected` | pallets/xode-staking/src/lib.rs:602-634 | after every boundary the waiting list is the genesis accounts followed by distinct eligible candidates; an eligible candidate is left out only when the list is full, and then ranks no higher than any elected one |
| `Selection.ElectedInOrder` | pallets/xode-staking/src/lib.rs:604-634 | the elected stand on the waiting list in the order of the candidate list, before every eligible candidate elected later or left out |
| `Lifecycle.DisqualifiedAreRemoved` | pallets/xode-staking/src/lib.rs:579-653 | a non-genesis candidate found disqualified at each boundary of a run, of which at least four find somebody waiting or the candidate without a seat, is no longer registered after the last one, whatever is called in between, registering again included |
| `Lifecycle.RemovedExactly` | pallets/xode-staking/src/lib.rs:579-653 | if it does not register again, it is gone if and only if the number of such boundaries has reached the number it had left at the start |
| `Lifecycle.DowngradesExactly` | pallets/xode-staking/src/lib.rs:528-600 | a boundary that finds a candidate disqualified brings it nearer to removal if and only if somebody waits or it has no seat |
| `Lifecycle.SeatedForGood` | pallets/xode-staking/src/lib.rs:528-542 | when nobody waits and every candidate is disqualified, no sequence of blocks and boundaries removes a seated candidate |
| `Witnesses.CandidateStuck` | pallets/xode-staking/src/lib.rs:528-600 | a concrete run from genesis after which an offline candidate keeps its seat and registration over any number of further boundaries |
| `Lifecycle.RemovedBesideDesired` | pallets/xode-staking/src/lib.rs:579-653 | with a genesis account, being found disqualified at four boundaries is enough for removal |
| `Lifecycle.RotateDowngrades` | pallets/xode-staking/src/lib.rs:581-653 | a boundary that finds a candidate disqualified, with somebody waiting or the candidate without a seat, takes exactly one from the number of boundaries it has left, although `new_session` may raise its status |
| `Lifecycle.EmptyWaitingKeepsSeats` | pallets/xode-staking/src/lib.rs:528-542 | when nobody waits, every seated candidate keeps its seat and registration across the boundary |
| `Lifecycle.LeavingIsIrrevocable` | pallets/xode-staking/src/lib.rs:384-402 | while a leaving candidate is registered, no call brings it back: it never waits, sits, validates or is handed out, and it stays for fewer than three boundaries |
| `Lifecycle.LeaversAreDropped` | pallets/xode-staking/src/lib.rs:384-402 | on every run with three boundaries after a successful `leave_candidate`, the candidate is dropped at some point |
| `Lifecycle.LeavingDeparts` | pallets/xode-staking/src/lib.rs:386-402 | in every reachable state a leaving candidate is no genesis account, holds no seat and is not about to be handed out |
| `Comeback.OfflineOnlineRoundTrip` | pallets/xode-staking/src/lib.rs:363-380 | going offline and coming back always succeeds and changes nothing but the time of update |
| `Comeback.ComesBack` | pallets/xode-staking/src/lib.rs:363-436 | a bonded candidate that comes back online contends at the next boundary if and only if it is not stale there, whatever is called in between short of its stepping down again |
| `Staleness.SlashedExactly` | pallets/xode-staking/src/lib.rs:546-577 | the slash takes offline exactly the online, non-genesis validators that did not author in the session and were last active more than `MaxStalingPeriod` blocks ago |
| `Staleness.DesiredSpared` | pallets/xode-staking/src/lib.rs:109-113 | genesis accounts are never slashed |
| `Staleness.RecentlyActiveSpared` | pallets/xode-staking/src/lib.rs:202-208 | whatever happens since, an account that authored or registered within the last `MaxStalingPeriod` blocks is not slashed |
| `Staleness.AuthorsFilterIdle` | pallets/xode-staking/src/lib.rs:546-577 | in a session no longer than `MaxStalingPeriod`, slash and whole boundary give the same result without the record of authors |
| `Agreement.TotalNeverAhead` | pallets/xode-staking/src/lib.rs:489-507 | in every reachable state a candidate's recorded total is at most the fold of its delegations |
| `Agreement.StakingSyncs` | pallets/xode-staking/src/lib.rs:324-355 | every successful stake or unstake behind a candidate makes its recorded total equal to the fold |
| `Agreement.StakeRaisesTotal` | pallets/xode-staking/src/lib.rs:294-324 | a stake raises a correct total by exactly its amount, up to the largest balance |
| `Agreement.RegisteringSyncs` | pallets/xode-staking/src/lib.rs:216-233 | registering gives a correct total if and only if the outstanding delegations add up to nothing |
| `Agreement.StepSynced` | pallets/xode-staking/src/lib.rs:216-507 | a correct total stays correct over a step if and only if the step is no registration over outstanding stakes |
| `Agreement.SyncedExactly` | pallets/xode-staking/src/lib.rs:216-507 | a total is correct all through a run if and only if it is correct at the start and the run does not register the candidate over outstanding stakes |
| `Agreement.RunStaysSynced` | pallets/xode-staking/src/lib.rs:489-507 | in particular it is correct at the end of such a run |
| `Agreement.StakesLocked` | pallets/xode-staking/src/lib.rs:332-358 | as long as a candidate is not registered, the delegations behind it do not change and every attempt to withdraw one fails |
| `Agreement.WithdrawnExactly` | pallets/xode-staking/src/lib.rs:332-358 | a delegator with an entry can withdraw if and only if the candidate is registered, and then has nothing staked behind it any more |
| `Witnesses.StakeStranded` | pallets/xode-staking/src/lib.rs:216-233 | a concrete run from genesis after which a stake is locked behind an account that is no candidate, and which one more registration turns into a candidate with a total of zero over a stake of 50 |
| `Ledger.ReserveConservation` | pallets/xode-staking/src/lib.rs:254-420 | on every backed run each account's reserves equal its bond plus its stakes over all candidates plus a residue computed from the history (orphaned bonds, corrections, outside reserves), which is never negative |
| `Ledger.StepConserves` | pallets/xode-staking/src/lib.rs:254-420 | the same conservation for one step, and conservation of the issuance |
| `Ledger.GenesisCovered` | pallets/xode-staking/src/lib.rs:153-162 | backed runs may start from any genesis whose issuance fits a balance, and from no other |
| `Ledger.UnstakeFreesExactly` | pallets/xode-staking/src/lib.rs:332-355 | after every backed run a successful unstake gives the caller exactly the stake on record, and nobody else anything |
| `Ledger.UnstakeLowersTotal` | pallets/xode-staking/src/lib.rs:332-355 | an unstake lowers a correct total by exactly the stake withdrawn |
| `Ledger.CallMoves` | pallets/xode-staking/src/lib.rs:243-424 | every successful call moves exactly the stated amount between the free and reserved balance of its caller and nothing else |
| `Ledger.StepCoversExactly` | pallets/xode-staking/src/lib.rs:254-420 | from a state in which every bond and stake is backed by reserves, a step leaves it so if and only if it is no correction that dips into the caller's stakes and no outside change that takes from them or mints too much |
| `Ledger.CoveredExactly` | pallets/xode-staking/src/lib.rs:254-420 | every bond and stake is backed all through a run if and only if it is at the start and every step of the run meets that condition |
| `Ledger.OrphansRecovered` | pallets/xode-staking/src/lib.rs:404-424 | an account that is no candidate and no genesis account gets back what it asks for, up to all it has reserved, by registering, going offline and correcting its bond, if the list has room |
| `Ledger.NothingSaturatesOnRuns` | pallets/xode-staking/src/lib.rs:480-494 | on every backed run stake totals and ranking keys are true sums |
| `Ledger.UnstakeConserves` | pallets/xode-staking/src/lib.rs:353-355 | a backed unstake frees exactly the recorded stake, to the caller only |
| `Ledger.CorrectionExact` | pallets/xode-staking/src/lib.rs:408-424 | after a successful `bond_correction` everything is still backed if and only if what it releases leaves the caller's stakes reserved |
| `Ledger.CorrectionSafeAmounts` | pallets/xode-staking/src/lib.rs:408-424 | a caller without stakes, or one asking for at most its reserves less its stakes, needs no further care |
| `Ledger.CorrectionCanUnbackStakes` | pallets/xode-staking/src/lib.rs:408-424 | a concrete run from genesis after which a stake counts for a candidate while its owner has the money back |
| `Ledger.StakeUnstakeRoundTrip` | pallets/xode-staking/src/lib.rs:294-358 | staking for the first time behind a candidate with a correct total and unstaking at once restores every balance, the delegations and every candidate record up to the time of last update |
| `Ledger.StakeTwice` | pallets/xode-staking/src/lib.rs:294-327 | staking twice succeeds if and only if staking the sum at once does, for any sum that fits a balance, and leaves the same balances, delegations and records |
| `Rewrites.PrepareTurn` | pallets/xode-staking/src/lib.rs:583-599 | one turn of the loop over the snapshot: the live list stays the functional pass over what was visited followed by the unvisited rest |
| `Rewrites.RefreshTurn` | pallets/xode-staking/src/lib.rs:615-631 | one turn of the refresh loop: list and live statuses stay those of the final selection restricted to what was visited |
| `Rewrites.RefreshExit` | pallets/xode-staking/src/lib.rs:616-633 | where the refresh loop stops, the list is the genesis accounts followed by the selection, and exactly the selected candidates are marked, also when it stops early |
| `Rewrites.CrownTurn` | pallets/xode-staking/src/lib.rs:640-642 | one `set_status` by account extends the marking of a whole list by one account |
| `Pallet.XodeStaking.constructor` | pallets/xode-staking/src/lib.rs:153-162 | the genesis build stores the given accounts in all three lists, the keyed ones as validators, nothing else, and starts in a valid state |
| `Pallet.XodeStaking.RegisterCandidate` | pallets/xode-staking/src/lib.rs:216-237 | answers and writes as the state function, changes nothing on error, keeps the invariant |
| `Pallet.XodeStaking.BondCandidate` | pallets/xode-staking/src/lib.rs:243-272 | the same, through the currency step and the sort |
| `Pallet.XodeStaking.SetCommissionOfCandidate` | pallets/xode-staking/src/lib.rs:277-289 | the same, without a sort |
| `Pallet.XodeStaking.StakeCandidate` | pallets/xode-staking/src/lib.rs:294-327 | the same, with the exact condition of success; the reserve is undone when the delegation list is full |
| `Pallet.XodeStaking.UnstakeCandidate` | pallets/xode-staking/src/lib.rs:332-358 | the same; removal and release are undone when the candidate is not registered |
| `Pallet.XodeStaking.OfflineCandidate` | pallets/xode-staking/src/lib.rs:363-369 | the same, for stepping down, which succeeds exactly for registered callers |
| `Pallet.XodeStaking.OnlineCandidate` | pallets/xode-staking/src/lib.rs:374-380 | the same, for coming back, which succeeds exactly for registered callers |
| `Pallet.XodeStaking.LeaveCandidate` | pallets/xode-staking/src/lib.rs:386-402 | the same, and the waiting list is left as it was |
| `Pallet.XodeStaking.BondCorrection` | pallets/xode-staking/src/lib.rs:408-424 | the same, without a sort |
| `Pallet.XodeStaking.OnInitialize` | pallets/xode-staking/src/lib.rs:202-208 | a block by an acting validator keeps the invariant and records the author |
| `Pallet.XodeStaking.RecomputeTotalStake` | pallets/xode-staking/src/lib.rs:489-507 | the loop computes the fold of the delegations and stores it, or fails without a write |
| `Pallet.XodeStaking.RunQueueAuthors` | pallets/xode-staking/src/lib.rs:528-542 | the in-place loop promotes exactly the waiting candidates, and nothing happens when nobody waits |
| `Pallet.XodeStaking.SlashStaleAuthors` | pallets/xode-staking/src/lib.rs:546-577 | filter, in-place loop and conditional sort take offline exactly the stale candidates |
| `Pallet.XodeStaking.PrepareNextWaitingList` | pallets/xode-staking/src/lib.rs:581-600 | iterating a snapshot while rewriting the live lists equals one functional pass |
| `Pallet.XodeStaking.RefreshWaitingList` | pallets/xode-staking/src/lib.rs:604-634 | the two loops with early exit produce the selection and mark exactly the selected online candidates |
| `Pallet.XodeStaking.RunNewSession` | pallets/xode-staking/src/lib.rs:638-644 | hands out the validator set and marks exactly its members as authoring |
| `Pallet.XodeStaking.RunEndSession` | pallets/xode-staking/src/lib.rs:648-653 | the four passes in order compute the end of the session |
| `Pallet.XodeStaking.RotateSession` | runtime/src/configs/mod.rs:142-153 | a boundary as the session pallet drives it keeps the invariant |
| `Freezer.FreezeAccounting` | pallets/account-freezer/src/lib.rs:109-168 | on every run the frozen amount is the first frozen amount less all partial thaws since, as read off the event log alone; the marker says exactly whether a freeze is open; marked with nothing frozen means a zero-amount freeze |
| `Freezer.MarkerMeansFrozen` | pallets/account-freezer/src/lib.rs:75-77 | on runs without zero-amount freezes of an account, it is marked if and only if something is frozen |
| `Freezer.EmptyFreezeMarks` | pallets/account-freezer/src/lib.rs:123-132 | a zero-amount freeze leaves a marker that blocks a later freeze with nothing frozen |
| `Freezer.FreezeAccountExactly` | pallets/account-freezer/src/lib.rs:109-118 | the exact condition of each error and of success, and what is marked and frozen afterwards for every account |
| `Freezer.FreezeAmountExactly` | pallets/account-freezer/src/lib.rs:123-132 | the same for an amount |
| `Freezer.ThawAccountExactly` | pallets/account-freezer/src/lib.rs:137-144 | the same for lifting a freeze |
| `Freezer.ThawAmountExactly` | pallets/account-freezer/src/lib.rs:150-168 | the same for a release, which succeeds up to and including all that is frozen and unmarks the account if and only if all of it is released |
| `Freezer.ThawInParts` | pallets/account-freezer/src/lib.rs:148-168 | releasing all that is frozen, at once or in two parts, leaves the same marks and freezes as `thaw_account` |
| `Freezer.AccountFreezer.FreezeAccountCall` | pallets/account-freezer/src/lib.rs:109-118 | writes marker, freeze and event together or nothing, and keeps marker, frozen amount and event log in agreement on every account |
| `Freezer.AccountFreezer.FreezeAmountCall` | pallets/account-freezer/src/lib.rs:123-132 | the same for an amount, zero included |
| `Freezer.AccountFreezer.ThawAccountCall` | pallets/account-freezer/src/lib.rs:137-144 | lifts marker and freeze together or changes nothing, in agreement with the event log |
| `Freezer.AccountFreezer.ThawAmountCall` | pallets/account-freezer/src/lib.rs:150-168 | releases part of a freeze, or lifts it with the marker when nothing remains, in agreement with the event log |

## Left out

- The node, the runtime APIs, the chain specification and the genesis presets: wiring over libraries that are not part of this repository.
- The internals of the session, authorship and balances pallets: stated as assumptions above. Disabled validators, existential deposits and locks are not modelled; a refused reserve stands for them.
- Integer widths: balances and block numbers are unbounded; saturation at the largest `u128` is explicit where the staking pallet asks for it. `unreserve` adds to the free balance without saturation.
- Weights, origin checks and the staking pallet's events: they neither read nor write the state that the properties are about; a call that its origin check rejects does nothing.
- `validator_to_account`: validator and account identifiers are one type.
- A genesis list longer than `MaxCandidates`: the build panics there, so runs start from shorter lists.
- The algorithm behind `sort_by`: an insertion sort stands for it, and `Registry.StableSortUnique` shows that any stable sort gives the same list.
- `note_author`: it does nothing yet.
