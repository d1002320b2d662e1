/** The session boundary: the four passes of `end_session`, `new_session` and the rotation that
    `pallet-session` wraps around them. */
module Sessions {
  import opened Types
  import opened Registry
  import opened Dispatch

  // ---------- queue_authors ----------

  function PromoteOne(c: Candidate, waiting: seq<AccountId>): Candidate {
    if c.status == Waiting && c.who in waiting then c.(status := Queuing) else c
  }

  function Promote(cs: seq<Candidate>, waiting: seq<AccountId>): (r: seq<Candidate>)
    ensures |r| == |cs| && forall i :: 0 <= i < |cs| ==> r[i] == PromoteOne(cs[i], waiting)
  {
    seq(|cs|, i requires 0 <= i < |cs| => PromoteOne(cs[i], waiting))
  }

  /** An empty waiting list leaves the validator set as it is. */
  function QueueAuthors(s: State): State {
    if s.waiting == [] then s
    else s.(proposed := Promote(s.proposed, s.waiting), invulnerables := s.waiting)
  }

  // ---------- slash_stale_authors ----------

  predicate Stale(cfg: Config, s: State, c: Candidate) {
    && c.who in s.validators
    && c.who !in s.actualAuthors
    && c.who !in s.desired
    && SaturatingSub(s.now, c.lastAuthored) > cfg.maxStaling
  }

  function SlashOne(cfg: Config, s: State, c: Candidate): Candidate {
    if Stale(cfg, s, c) then c.(offline := true, lastUpdated := s.now) else c
  }

  function Slashed(cfg: Config, s: State, cs: seq<Candidate>): (r: seq<Candidate>)
    ensures |r| == |cs| && forall i :: 0 <= i < |cs| ==> r[i] == SlashOne(cfg, s, cs[i])
  {
    seq(|cs|, i requires 0 <= i < |cs| => SlashOne(cfg, s, cs[i]))
  }

  function SlashStale(cfg: Config, s: State): State {
    var cs := if exists c :: c in s.proposed && Stale(cfg, s, c)
              then Sort(Slashed(cfg, s, s.proposed))
              else s.proposed;
    s.(proposed := cs, actualAuthors := [])
  }

  // ---------- prepare_next_waiting_list ----------

  predicate Disqualified(c: Candidate) {
    c.offline || c.leaving || c.bond == 0
  }

  /** A disqualified candidate moves one step down the ladder or is dropped. */
  function Downgrade(c: Candidate): Option<Candidate> {
    if !Disqualified(c) then Some(c)
    else match c.status
      case Authoring => Some(c.(status := Queuing))
      case Queuing => Some(c.(status := Waiting))
      case _ => None
  }

  function PreparePass(cs: seq<Candidate>): seq<Candidate> {
    if cs == [] then []
    else
      var last := Downgrade(cs[|cs| - 1]);
      PreparePass(cs[..|cs| - 1]) + (if last.Some? then [last.value] else [])
  }

  /** The accounts that the pass takes off the waiting list. */
  function Unwaited(cs: seq<Candidate>): set<AccountId> {
    set c | c in cs && Disqualified(c) && c.status == Waiting :: c.who
  }

  function Prepare(s: State): State {
    s.(proposed := PreparePass(s.proposed), waiting := Without(s.waiting, Unwaited(s.proposed)))
  }

  // ---------- refresh_waiting_list ----------

  predicate Eligible(c: Candidate) {
    c.bond != 0 && !c.leaving && !c.offline
  }

  /** The eligible candidates outside `desired`, in list order. */
  function EligibleIds(cs: seq<Candidate>, desired: seq<AccountId>): seq<AccountId> {
    if cs == [] then []
    else
      var last := cs[|cs| - 1];
      EligibleIds(cs[..|cs| - 1], desired)
      + (if Eligible(last) && last.who !in desired then [last.who] else [])
  }

  function Take(ids: seq<AccountId>, room: nat): seq<AccountId> {
    if |ids| <= room then ids else ids[..room]
  }

  /** The accounts that `refresh_waiting_list` adds after the desired ones. */
  function Chosen(cfg: Config, s: State): seq<AccountId> {
    Take(EligibleIds(s.proposed, s.desired), SaturatingSub(cfg.maxCandidates, |s.desired|))
  }

  function WaitOne(c: Candidate, chosen: seq<AccountId>): Candidate {
    if c.status == Online && c.who in chosen then c.(status := Waiting) else c
  }

  function MarkWaiting(cs: seq<Candidate>, chosen: seq<AccountId>): (r: seq<Candidate>)
    ensures |r| == |cs| && forall i :: 0 <= i < |cs| ==> r[i] == WaitOne(cs[i], chosen)
  {
    seq(|cs|, i requires 0 <= i < |cs| => WaitOne(cs[i], chosen))
  }

  function Refresh(cfg: Config, s: State): State {
    var chosen := Chosen(cfg, s);
    s.(proposed := MarkWaiting(s.proposed, chosen), waiting := s.desired + chosen)
  }

  // ---------- end_session, new_session, rotation ----------

  /** The state that `prepare_next_waiting_list` reads. */
  function BeforePrepare(cfg: Config, s: State): State {
    SlashStale(cfg, QueueAuthors(s))
  }

  function EndSession(cfg: Config, s: State): State {
    Refresh(cfg, Prepare(BeforePrepare(cfg, s)))
  }

  function CrownOne(c: Candidate, seated: seq<AccountId>): Candidate {
    if c.who in seated then c.(status := Authoring) else c
  }

  function Crown(cs: seq<Candidate>, seated: seq<AccountId>): (r: seq<Candidate>)
    ensures |r| == |cs| && forall i :: 0 <= i < |cs| ==> r[i] == CrownOne(cs[i], seated)
  {
    seq(|cs|, i requires 0 <= i < |cs| => CrownOne(cs[i], seated))
  }

  /** `new_session` hands out `invulnerables` and marks them as authoring. */
  function NewSession(s: State): State {
    s.(proposed := Crown(s.proposed, s.invulnerables))
  }

  /** What `new_session` returns at a boundary reached in state `s`. */
  function Handed(cfg: Config, s: State): seq<AccountId> {
    EndSession(cfg, s).invulnerables
  }

  /** The accounts of `ids` that have session keys, in order. */
  function Keyed(ids: seq<AccountId>, keys: set<AccountId>): (r: seq<AccountId>)
    ensures forall a :: a in r ==> a in ids
    ensures |r| <= |ids|
  {
    Without(ids, (set a | a in ids) - keys)
  }

  /** `pallet-session` ends the session, seats the queued validators and queues, of the new list,
      the accounts that have session keys. */
  function Rotate(cfg: Config, s: State, keys: set<AccountId>): State {
    var t := NewSession(EndSession(cfg, s));
    t.(validators := s.queued, queued := Keyed(t.invulnerables, keys), startedAt := s.now)
  }
}
