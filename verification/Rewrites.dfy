/** What single rewrites of the live candidate list amount to, for the loops of the pallet. */
module Rewrites {
  import opened Types
  import opened Registry
  import opened Dispatch
  import opened Sessions
  import opened Boundary

  /** `retain` on the candidate list: everyone but `who` stays. */
  function Retain(cs: seq<Candidate>, who: AccountId): seq<Candidate> {
    if cs == [] then []
    else Retain(cs[..|cs| - 1], who) + (if cs[|cs| - 1].who == who then [] else [cs[|cs| - 1]])
  }

  /** `set_status`: the first candidate of `who`, if any, gets the status. */
  function WithStatus(cs: seq<Candidate>, who: AccountId, status: Status): seq<Candidate> {
    var i := Find(cs, who);
    if i < |cs| then cs[i := cs[i].(status := status)] else cs
  }

  lemma {:induction false} RetainAll(cs: seq<Candidate>, who: AccountId)
    requires forall c :: c in cs ==> c.who != who
    ensures Retain(cs, who) == cs
  {
    if cs == [] {
    } else {
      var init, last := cs[..|cs| - 1], cs[|cs| - 1];
      assert cs == init + [last];
      assert last in cs;
      RetainAll(init, who);
    }
  }

  lemma MiddleFind(before: seq<Candidate>, c: Candidate, after: seq<Candidate>)
    requires forall d :: d in before ==> d.who != c.who
    ensures Find(before + [c] + after, c.who) == |before|
  {
    var cs := before + [c] + after;
    assert cs[|before|] == c;
    assert forall k :: 0 <= k < |before| ==> cs[k] == before[k] && before[k] in before;
  }

  lemma {:induction false} RetainMiddle(before: seq<Candidate>, c: Candidate, after: seq<Candidate>)
    requires forall d :: d in before ==> d.who != c.who
    requires forall d :: d in after ==> d.who != c.who
    ensures Retain(before + [c] + after, c.who) == before + after
  {
    var cs := before + [c] + after;
    if after == [] {
      assert cs[..|cs| - 1] == before;
      RetainAll(before, c.who);
    } else {
      var init, last := after[..|after| - 1], after[|after| - 1];
      assert last in after;
      RetainMiddle(before, c, init);
      assert cs[..|cs| - 1] == before + [c] + init;
      assert before + after == before + init + [last];
    }
  }

  lemma StatusMiddle(before: seq<Candidate>, c: Candidate, after: seq<Candidate>, status: Status)
    requires forall d :: d in before ==> d.who != c.who
    ensures WithStatus(before + [c] + after, c.who, status) == before + [c.(status := status)] + after
  {
    MiddleFind(before, c, after);
    assert (before + [c] + after)[|before| := c.(status := status)] == before + [c.(status := status)] + after;
  }

  /** One turn of the prepare loop: the live list is the pass over what was visited, followed by
      the unvisited rest of the snapshot. */
  lemma PrepareTurn(cs: seq<Candidate>, live: seq<Candidate>, k: nat)
    requires Unique(cs) && k < |cs|
    requires live == PreparePass(cs[..k]) + cs[k..]
    ensures match Downgrade(cs[k])
            case None => Retain(live, cs[k].who) == PreparePass(cs[..k + 1]) + cs[k + 1..]
            case Some(d) =>
              && WithStatus(live, cs[k].who, d.status) == PreparePass(cs[..k + 1]) + cs[k + 1..]
              && (d == cs[k] ==> live == PreparePass(cs[..k + 1]) + cs[k + 1..])
  {
    var done, c, rest := PreparePass(cs[..k]), cs[k], cs[k + 1..];
    assert cs[..k + 1][..k] == cs[..k];
    forall d | d in done
      ensures d.who != c.who
    {
      PrepareSource(cs[..k], d);
    }
    assert live == done + [c] + rest;
    match Downgrade(c)
    case None => RetainMiddle(done, c, rest);
    case Some(d) => StatusMiddle(done, c, rest, d.status);
  }

  lemma {:induction false} WithoutTwice(ws: seq<AccountId>, gone: set<AccountId>, who: AccountId)
    ensures Without(Without(ws, gone), {who}) == Without(ws, gone + {who})
  {
    if ws == [] {
    } else {
      var init, last := ws[..|ws| - 1], ws[|ws| - 1];
      WithoutTwice(init, gone, who);
      if last in gone {
        assert Without(ws, gone) == Without(init, gone);
      } else {
        assert Without(ws, gone)[..|Without(ws, gone)| - 1] == Without(init, gone);
      }
    }
  }

  lemma UnwaitedGrows(cs: seq<Candidate>, k: nat)
    requires k < |cs|
    ensures Unwaited(cs[..k + 1])
         == if Disqualified(cs[k]) && cs[k].status == Waiting then Unwaited(cs[..k]) + {cs[k].who}
            else Unwaited(cs[..k])
  {
    assert cs[..k + 1] == cs[..k] + [cs[k]];
  }

  lemma UnwaitedTurn(cs: seq<Candidate>, ws: seq<AccountId>, k: nat)
    requires k < |cs|
    ensures Without(ws, Unwaited(cs[..k + 1]))
         == if Disqualified(cs[k]) && cs[k].status == Waiting
            then Without(Without(ws, Unwaited(cs[..k])), {cs[k].who})
            else Without(ws, Unwaited(cs[..k]))
  {
    hide Without, Unwaited;
    WithoutTwice(ws, Unwaited(cs[..k]), cs[k].who);
    UnwaitedGrows(cs, k);
  }

  // ---------- refresh ----------

  lemma {:induction false} EligiblePrefix(cs: seq<Candidate>, desired: seq<AccountId>, k: nat)
    requires k <= |cs|
    ensures EligibleIds(cs[..k], desired) <= EligibleIds(cs, desired)
  {
    if k == |cs| {
      assert cs[..k] == cs;
    } else {
      EligiblePrefix(cs[..|cs| - 1], desired, k);
      assert cs[..|cs| - 1][..k] == cs[..k];
    }
  }

  lemma EligibleTurn(cs: seq<Candidate>, desired: seq<AccountId>, k: nat)
    requires k < |cs|
    ensures EligibleIds(cs[..k + 1], desired)
         == EligibleIds(cs[..k], desired)
            + (if Eligible(cs[k]) && cs[k].who !in desired then [cs[k].who] else [])
    ensures |EligibleIds(cs[..k], desired)| <= |EligibleIds(cs[..k + 1], desired)|
  {
    assert cs[..k + 1][..k] == cs[..k];
  }

  /** A visited candidate is chosen in the end if it is chosen when visited. */
  lemma ChosenTurn(cs: seq<Candidate>, desired: seq<AccountId>, room: nat, k: nat)
    requires Unique(cs) && k < |cs|
    ensures cs[k].who in Take(EligibleIds(cs, desired), room)
       <==> Eligible(cs[k]) && cs[k].who !in desired && |EligibleIds(cs[..k], desired)| < room
    ensures cs[k].who !in EligibleIds(cs[..k], desired)
  {
    var ids, c := EligibleIds(cs, desired), cs[k];
    var at := |EligibleIds(cs[..k], desired)|;
    EligibleMembers(cs, desired, c.who);
    EligibleMembers(cs[..k], desired, c.who);
    LookAt(cs, k);
    EligibleDistinct(cs, desired);
    EligibleTurn(cs, desired, k);
    EligiblePrefix(cs, desired, k + 1);
    assert Eligible(c) && c.who !in desired ==> ids[at] == EligibleIds(cs[..k + 1], desired)[at] == c.who;
    if Eligible(c) && c.who !in desired && at < room {
      assert Take(ids, room)[at] == c.who;
    }
  }

  lemma EligibleGrows(cs: seq<Candidate>, desired: seq<AccountId>, j: nat, k: nat)
    requires j <= k <= |cs|
    ensures |EligibleIds(cs[..j], desired)| <= |EligibleIds(cs[..k], desired)|
  {
    EligiblePrefix(cs[..k], desired, j);
    assert cs[..k][..j] == cs[..j];
  }

  /** The refresh loop before it visits candidate `k`: `next` is the list so far, `live` the
      rewritten candidates. */
  ghost predicate RefreshState(cs: seq<Candidate>, live: seq<Candidate>, desired: seq<AccountId>, room: nat,
                               next: seq<AccountId>, k: nat)
    requires k <= |cs|
  {
    && |live| == |cs|
    && next == desired + Take(EligibleIds(cs[..k], desired), room)
    && (forall j :: 0 <= j < k ==> live[j] == WaitOne(cs[j], Take(EligibleIds(cs, desired), room)))
    && (forall j :: k <= j < |cs| ==> live[j] == cs[j])
  }

  /** Does the refresh loop push candidate `c` onto `next`? */
  predicate Joins(c: Candidate, next: seq<AccountId>) {
    c.who !in next && Eligible(c)
  }

  function Joined(c: Candidate, next: seq<AccountId>): seq<AccountId> {
    if Joins(c, next) then next + [c.who] else next
  }

  function Marked(live: seq<Candidate>, c: Candidate, next: seq<AccountId>): seq<Candidate> {
    if Joins(c, next) && c.status == Online then WithStatus(live, c.who, Waiting) else live
  }

  lemma RefreshStart(cs: seq<Candidate>, desired: seq<AccountId>, room: nat)
    ensures RefreshState(cs, cs, desired, room, desired, 0)
  {
    assert EligibleIds(cs[..0], desired) == [];
  }

  lemma JoinsOnto(desired: seq<AccountId>, before: seq<AccountId>, who: AccountId, eligible: bool)
    requires who !in before
    ensures who in desired + before <==> who in desired
    ensures desired + (before + (if eligible && who !in desired then [who] else []))
         == if who !in desired + before && eligible then desired + before + [who] else desired + before
  {
  }

  lemma TakeShort(desired: seq<AccountId>, ids: seq<AccountId>, room: nat)
    ensures |desired + Take(ids, room)| < |desired| + room <==> |ids| < room
    ensures |ids| <= room ==> Take(ids, room) == ids
  {
  }

  /** A visited candidate joins when it is eligible and not desired; nobody else has its account. */
  lemma VisitedJoins(cs: seq<Candidate>, desired: seq<AccountId>, room: nat, next: seq<AccountId>, k: nat)
    requires Unique(cs) && k < |cs|
    requires next == desired + Take(EligibleIds(cs[..k], desired), room) && |next| < |desired| + room
    ensures Joins(cs[k], next) <==> cs[k].who in Take(EligibleIds(cs, desired), room)
    ensures Joined(cs[k], next) == desired + Take(EligibleIds(cs[..k + 1], desired), room)
  {
    hide EligibleIds, Unique, Eligible, Take;
    EligibleTurn(cs, desired, k);
    ChosenTurn(cs, desired, room, k);
    TakeShort(desired, EligibleIds(cs[..k], desired), room);
    TakeShort(desired, EligibleIds(cs[..k + 1], desired), room);
    JoinsOnto(desired, EligibleIds(cs[..k], desired), cs[k].who, Eligible(cs[k]));
  }

  lemma VisitedFind(cs: seq<Candidate>, live: seq<Candidate>, k: nat, status: Status)
    requires Unique(cs) && k < |cs| == |live| && live[k] == cs[k]
    requires forall j :: 0 <= j < |cs| ==> live[j].who == cs[j].who
    ensures WithStatus(live, cs[k].who, status) == live[k := cs[k].(status := status)]
  {
    FindSame(cs, live, cs[k].who);
    LookAt(cs, k);
  }

  lemma RefreshTurn(cs: seq<Candidate>, live: seq<Candidate>, desired: seq<AccountId>, room: nat,
                    next: seq<AccountId>, k: nat)
    requires Unique(cs) && k < |cs| && RefreshState(cs, live, desired, room, next, k)
    requires |next| < |desired| + room
    ensures RefreshState(cs, Marked(live, cs[k], next), desired, room, Joined(cs[k], next), k + 1)
  {
    VisitedJoins(cs, desired, room, next, k);
    VisitedFind(cs, live, k, Waiting);
    hide Unique, EligibleIds, Take, WithStatus, Joins, Joined;
  }

  /** Where the refresh loop stops, nobody it has not visited is chosen. */
  lemma RefreshExit(cs: seq<Candidate>, live: seq<Candidate>, desired: seq<AccountId>, room: nat,
                    next: seq<AccountId>, k: nat)
    requires Unique(cs) && k <= |cs| && RefreshState(cs, live, desired, room, next, k)
    requires k == |cs| || |next| >= |desired| + room
    ensures next == desired + Take(EligibleIds(cs, desired), room)
    ensures live == MarkWaiting(cs, Take(EligibleIds(cs, desired), room))
  {
    var chosen := Take(EligibleIds(cs, desired), room);
    forall j | k <= j < |cs|
      ensures cs[j].who !in chosen
    {
      ChosenTurn(cs, desired, room, j);
      EligibleGrows(cs, desired, k, j);
    }
    EligiblePrefix(cs, desired, k);
    assert cs[..|cs|] == cs;
    hide Unique, EligibleIds;
  }

  // ---------- new_session ----------

  lemma CrownTurn(cs: seq<Candidate>, seated: seq<AccountId>, who: AccountId)
    requires Unique(cs)
    ensures WithStatus(Crown(cs, seated), who, Authoring) == Crown(cs, seated + [who])
  {
    var ds, es := Crown(cs, seated), Crown(cs, seated + [who]);
    FindSame(cs, ds, who);
    var i := Find(cs, who);
    var rs := WithStatus(ds, who, Authoring);
    forall j | 0 <= j < |cs|
      ensures rs[j] == es[j]
    {
      assert cs[j].who == who ==> i == j by {
        LookAt(cs, j);
      }
    }
  }
}
