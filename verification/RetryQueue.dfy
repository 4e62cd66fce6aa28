/**
 What a walk of the retry queue promises (src/redis.rs, `failed_ids`), and why that determines it.
 */
module RetryQueue {
  import opened Wrappers
  import opened Accounts
  import opened Redis

  predicate Ascending(ids: seq<AccountId>) {
    forall i, j :: 0 <= i < j < |ids| ==> ids[i] < ids[j]
  }

  function Queued(r: State): set<AccountId> {
    r.failed + r.pending
  }

  /** Decided by a moderator, or already completed. */
  predicate Resolved(r: State, now: nat, id: AccountId) {
    HasTerminalFeedback(r, id) || IsCompletedJob(GetJob(r, now, id))
  }

  /** Resolved: cleared or confirmed by a moderator, or with a record, still kept, of a status that owes nothing. */
  lemma ResolvedMeans(r: State, now: nat, id: AccountId)
    ensures Resolved(r, now, id) <==>
            || (id in r.feedback && r.feedback[id] in {FalsePositive, ConfirmedSpam})
            || (id in r.jobs && (r.jobs[id].expiry == None || now < r.jobs[id].expiry.value)
                && r.jobs[id].job.status in {NotSpam, Spam, Undetermined, ConfirmedSpam, FalsePositive, Suspended, Deleted, Unavailable})
  {
  }

  /** Queued and not resolved; an account whose record has expired counts too. */
  predicate LiveQueued(r: State, now: nat, id: AccountId) {
    id in Queued(r) && !Resolved(r, now, id)
  }

  /** The walk stops when the list has exactly `limit` entries, so a limit of zero never stops it. */
  predicate Stopped(ids: seq<AccountId>, limit: nat) {
    0 < limit == |ids|
  }

  /** The walk got as far as `id`. */
  predicate Reached(ids: seq<AccountId>, limit: nat, id: AccountId) {
    Stopped(ids, limit) ==> id <= ids[|ids| - 1]
  }

  /** Exactly the `limit` lowest live entries of the queue, or all of them, ascending. */
  ghost predicate IsLowestLive(r: State, now: nat, ids: seq<AccountId>, limit: nat) {
    && Ascending(ids)
    && (limit > 0 ==> |ids| <= limit)
    && (forall id :: id in ids <==> LiveQueued(r, now, id) && Reached(ids, limit, id))
  }

  /** The queues after the walk: without the resolved entries it reached. */
  predicate Swept(r: State, now: nat, ids: seq<AccountId>, limit: nat, r': State) {
    && r' == r.(failed := r'.failed, pending := r'.pending)
    && r'.failed == (set id | id in r.failed && !(Resolved(r, now, id) && Reached(ids, limit, id)))
    && r'.pending == (set id | id in r.pending && !(Resolved(r, now, id) && Reached(ids, limit, id)))
  }

  /** The two conditions leave no choice of the list. */
  lemma LowestLiveIsUnique(r: State, now: nat, a: seq<AccountId>, b: seq<AccountId>, limit: nat)
    requires IsLowestLive(r, now, a, limit) && IsLowestLive(r, now, b, limit)
    ensures a == b
  {
    forall id ensures id in a <==> id in b {
      if id in a {
        OneHoldsTheOther(r, now, a, b, limit, id);
      }
      if id in b {
        OneHoldsTheOther(r, now, b, a, limit, id);
      }
    }
    SameMembersSameSequence(a, b);
  }

  /** A list that lacked an entry of the other would be full of lower ones, which the other has as well. */
  lemma OneHoldsTheOther(r: State, now: nat, a: seq<AccountId>, b: seq<AccountId>, limit: nat, id: AccountId)
    requires IsLowestLive(r, now, a, limit) && IsLowestLive(r, now, b, limit)
    requires id in a
    ensures id in b
  {
    if id !in b {
      var inA, inB := Members(a), Members(b);
      forall x | x in inB ensures x in inA {
        assert x <= b[|b| - 1] < id;
        assert LiveQueued(r, now, x);
        assert Reached(a, limit, id);
        assert Reached(a, limit, x);
      }
      MemberCount(a);
      MemberCount(b);
      SubsetSize(inB + {id}, inA);
      assert false;
    }
  }

  function Members(ids: seq<AccountId>): set<AccountId> {
    set id | id in ids
  }

  lemma {:induction false} MemberCount(ids: seq<AccountId>)
    requires Ascending(ids)
    ensures |Members(ids)| == |ids|
  {
    if ids != [] {
      var front, last := ids[..|ids| - 1], ids[|ids| - 1];
      MemberCount(front);
      assert ids == front + [last];
      assert Members(ids) == Members(front) + {last};
    }
  }

  lemma {:induction false} SameMembersSameSequence(a: seq<AccountId>, b: seq<AccountId>)
    requires Ascending(a) && Ascending(b) && forall id :: id in a <==> id in b
    ensures a == b
    decreases |a|
  {
    assert a != [] ==> a[0] in b;
    assert b != [] ==> b[0] in a;
    if a != [] && b != [] {
      var i :| 0 <= i < |b| && b[i] == a[0];
      var j :| 0 <= j < |a| && a[j] == b[0];
      assert a[0] == b[0];
      forall id ensures id in a[1..] <==> id in b[1..] {
        if id in a[1..] {
          assert id in b && id != b[0];
          assert b == [b[0]] + b[1..];
        }
        if id in b[1..] {
          assert id in a && id != a[0];
          assert a == [a[0]] + a[1..];
        }
      }
      SameMembersSameSequence(a[1..], b[1..]);
    }
  }

  /** A walk loses no live entry, and a second walk at the same instant finds the same list. */
  lemma WalkLosesNothing(r: State, now: nat, ids: seq<AccountId>, limit: nat, r': State, again: seq<AccountId>)
    requires IsLowestLive(r, now, ids, limit) && Swept(r, now, ids, limit, r')
    requires IsLowestLive(r', now, again, limit)
    ensures forall id :: LiveQueued(r', now, id) <==> LiveQueued(r, now, id)
    ensures again == ids
  {
    forall id ensures LiveQueued(r', now, id) <==> LiveQueued(r, now, id) {
      assert GetJob(r', now, id) == GetJob(r, now, id);
    }
    assert IsLowestLive(r, now, again, limit);
    LowestLiveIsUnique(r, now, ids, again, limit);
  }

  // ---------------------------------------------------------------------------------------------
  // Sorting

  function InsertId(id: AccountId, sorted: seq<AccountId>): seq<AccountId> {
    if sorted == [] || id < sorted[0] then [id] + sorted
    else if id == sorted[0] then sorted
    else [sorted[0]] + InsertId(id, sorted[1..])
  }

  /** The sort by numeric order followed by `dedup`. */
  function SortIds(ids: seq<AccountId>): seq<AccountId> {
    if ids == [] then [] else InsertId(ids[0], SortIds(ids[1..]))
  }

  lemma {:induction false} InsertIdKeeps(id: AccountId, sorted: seq<AccountId>)
    requires Ascending(sorted)
    ensures Ascending(InsertId(id, sorted))
    ensures forall x :: x in InsertId(id, sorted) <==> x == id || x in sorted
  {
    if sorted != [] && sorted[0] < id {
      var tail := InsertId(id, sorted[1..]);
      InsertIdKeeps(id, sorted[1..]);
      assert sorted == [sorted[0]] + sorted[1..];
      forall j | 0 <= j < |tail| ensures sorted[0] < tail[j] {
        assert tail[j] in tail;
      }
    }
  }

  lemma {:induction false} SortIdsKeeps(ids: seq<AccountId>)
    ensures Ascending(SortIds(ids))
    ensures forall x :: x in SortIds(ids) <==> x in ids
  {
    if ids != [] {
      SortIdsKeeps(ids[1..]);
      InsertIdKeeps(ids[0], SortIds(ids[1..]));
      assert ids == [ids[0]] + ids[1..];
    }
  }

  // ---------------------------------------------------------------------------------------------
  // The walk, which takes its time

  /** The state and the moment in which one entry was read. */
  datatype Reading = Reading(state: State, now: nat)

  predicate ResolvedAt(reading: Reading, id: AccountId) {
    Resolved(reading.state, reading.now, id)
  }

  /** Only feedback and removals from the queues lie between the two states. */
  predicate OnlyMovedOn(r: State, r': State) {
    && r'.jobs == r.jobs && r'.claims == r.claims && r'.cursor == r.cursor
    && r.feedback.Keys <= r'.feedback.Keys
    && r'.failed <= r.failed && r'.pending <= r.pending
  }

  /** What moderators do: the accounts they decide get feedback and leave the queues. */
  predicate Moderation(r: State, r': State, decided: set<AccountId>) {
    && OnlyMovedOn(r, r') && decided <= r'.feedback.Keys
    && r'.failed == r.failed - decided && r'.pending == r.pending - decided
  }

  /** The entry was read, and resolved when it was. */
  ghost predicate FoundResolved(seen: seq<AccountId>, readings: seq<Reading>, id: AccountId)
    requires |readings| == |seen|
  {
    exists k :: 0 <= k < |seen| && seen[k] == id && ResolvedAt(readings[k], id)
  }

  /**
   The walk has read the entries `seen`, each in its own state, while `decided` were decided: those
   not resolved when read are listed, and exactly those resolved then or decided left the queues.
   */
  ghost predicate Walked(r: State, seen: seq<AccountId>, readings: seq<Reading>, decided: set<AccountId>, live: seq<AccountId>, r': State) {
    && |readings| == |seen|
    && Ascending(live) && (forall id :: id in live ==> id in seen)
    && (forall k :: 0 <= k < |seen| ==> (seen[k] in live <==> !ResolvedAt(readings[k], seen[k])))
    && OnlyMovedOn(r, r')
    && (forall k :: 0 <= k < |seen| ==> OnlyMovedOn(r, readings[k].state) && OnlyMovedOn(readings[k].state, r'))
    && decided <= r'.feedback.Keys
    && (forall id :: id in r'.failed <==> id in r.failed && id !in decided && !FoundResolved(seen, readings, id))
    && (forall id :: id in r'.pending <==> id in r.pending && id !in decided && !FoundResolved(seen, readings, id))
  }

  lemma WalkInterrupted(r: State, seen: seq<AccountId>, readings: seq<Reading>, decided: set<AccountId>, live: seq<AccountId>,
                        r': State, r'': State, more: set<AccountId>)
    requires Walked(r, seen, readings, decided, live, r') && Moderation(r', r'', more)
    ensures Walked(r, seen, readings, decided + more, live, r'')
  {
  }

  /** One more entry, read in the state at hand. */
  lemma WalkOn(r: State, seen: seq<AccountId>, readings: seq<Reading>, decided: set<AccountId>, live: seq<AccountId>, r': State, id: AccountId, now: nat)
    requires Walked(r, seen, readings, decided, live, r') && forall x :: x in seen ==> x < id
    ensures var more := readings + [Reading(r', now)];
            if Resolved(r', now, id) then Walked(r, seen + [id], more, decided, live, RemoveFailed(r', id))
            else Walked(r, seen + [id], more, decided, live + [id], r')
  {
    var more, seen' := readings + [Reading(r', now)], seen + [id];
    forall i | 0 <= i < |live| ensures live[i] < id {
      assert live[i] in live;
    }
    assert forall k :: 0 <= k < |seen| ==> seen[k] in seen && seen'[k] == seen[k] && more[k] == readings[k];
    assert seen'[|seen|] == id && more[|seen|] == Reading(r', now);
    forall x ensures FoundResolved(seen', more, x) <==> FoundResolved(seen, readings, x) || (x == id && Resolved(r', now, id)) {
      if FoundResolved(seen, readings, x) {
        var k :| 0 <= k < |seen| && seen[k] == x && ResolvedAt(readings[k], x);
        assert seen'[k] == x && ResolvedAt(more[k], x);
      }
      if x == id && Resolved(r', now, id) {
        assert seen'[|seen|] == x && ResolvedAt(more[|seen|], x);
      }
    }
  }

  /** One more entry, read after some accounts were decided. */
  lemma WalkGoesOn(r: State, seen: seq<AccountId>, readings: seq<Reading>, decided: set<AccountId>, live: seq<AccountId>,
                   r': State, r'': State, more: set<AccountId>, id: AccountId, now: nat)
    requires Walked(r, seen, readings, decided, live, r') && Moderation(r', r'', more) && forall x :: x in seen ==> x < id
    ensures var resolved := Resolved(r'', now, id);
            Walked(r, seen + [id], readings + [Reading(r'', now)], decided + more,
                   if resolved then live else live + [id], if resolved then RemoveFailed(r'', id) else r'')
  {
    WalkInterrupted(r, seen, readings, decided, live, r', r'', more);
    WalkOn(r, seen, readings, decided + more, live, r'', id, now);
  }

  lemma PrefixIsBelow(ids: seq<AccountId>, i: nat)
    requires Ascending(ids) && i < |ids|
    ensures forall x :: x in ids[..i] ==> x < ids[i]
    ensures forall x :: x in ids[..i] + [ids[i]] <==> x in ids && x <= ids[i]
  {
  }

  /** The entries seen when the walk ends: those of the queue up to the last one listed, or all. */
  lemma WalkEnds(r: State, ids: seq<AccountId>, i: nat, live: seq<AccountId>, limit: nat)
    requires Ascending(ids) && i <= |ids| && forall id :: id in ids <==> id in Queued(r)
    requires if Stopped(live, limit) then i > 0 && live[limit - 1] == ids[i - 1] else i == |ids|
    ensures SeenAre(r, ids[..i], live, limit)
  {
    if Stopped(live, limit) {
      PrefixIsBelow(ids, i - 1);
      assert ids[..i] == ids[..i - 1] + [ids[i - 1]];
    } else {
      assert ids[..i] == ids;
    }
  }

  ghost predicate SeenAre(r: State, seen: seq<AccountId>, live: seq<AccountId>, limit: nat) {
    Ascending(seen) && forall id :: id in seen <==> id in Queued(r) && Reached(live, limit, id)
  }

  // ---------------------------------------------------------------------------------------------
  // A walk as its visits

  /** One entry visited: what was decided since the visit before, and the state it was read in. */
  datatype Visit = Visit(id: AccountId, now: nat, before: State, decided: set<AccountId>, state: State) {
    predicate FindsResolved() {
      Resolved(state, now, id)
    }

    function Leaves(): State {
      if FindsResolved() then RemoveFailed(state, id) else state
    }
  }

  /** Each visit goes on where the one before left the queues. */
  ghost predicate IsWalk(r: State, visits: seq<Visit>, r': State) {
    if visits == [] then r' == r
    else
      var last := visits[|visits| - 1];
      IsWalk(r, visits[..|visits| - 1], last.before) && Moderation(last.before, last.state, last.decided) && r' == last.Leaves()
  }

  function SeenBy(visits: seq<Visit>): seq<AccountId> {
    if visits == [] then [] else SeenBy(visits[..|visits| - 1]) + [visits[|visits| - 1].id]
  }

  /** What the walk lists: the entries not resolved when they were read. */
  function LiveOf(visits: seq<Visit>): seq<AccountId> {
    if visits == [] then []
    else
      var last := visits[|visits| - 1];
      LiveOf(visits[..|visits| - 1]) + (if last.FindsResolved() then [] else [last.id])
  }

  function ReadingsOf(visits: seq<Visit>): (readings: seq<Reading>)
    ensures |readings| == |visits|
    ensures forall k :: 0 <= k < |visits| ==> readings[k] == Reading(visits[k].state, visits[k].now)
  {
    seq(|visits|, k requires 0 <= k < |visits| => Reading(visits[k].state, visits[k].now))
  }

  function DecidedIn(visits: seq<Visit>): set<AccountId> {
    if visits == [] then {} else DecidedIn(visits[..|visits| - 1]) + visits[|visits| - 1].decided
  }

  /** A walk so far: its visits, the entries seen and listed, and where it leaves the queues. */
  ghost predicate WalkSoFar(r: State, visits: seq<Visit>, seen: seq<AccountId>, live: seq<AccountId>, r': State) {
    IsWalk(r, visits, r') && SeenBy(visits) == seen && LiveOf(visits) == live
  }

  /** The entries of both queues, in numeric order and without repeats. */
  ghost predicate ListsQueue(r: State, ids: seq<AccountId>) {
    Ascending(ids) && forall id :: id in ids <==> id in Queued(r)
  }

  /** The walk over the listed queue is over: its visits are the entries up to the last one listed. */
  lemma WalkIsOver(r: State, visits: seq<Visit>, ids: seq<AccountId>, live: seq<AccountId>, limit: nat)
    requires ListsQueue(r, ids) && |visits| <= |ids| && SeenBy(visits) == ids[..|visits|]
    requires if Stopped(live, limit) then visits != [] && live[limit - 1] == ids[|visits| - 1] else |visits| == |ids|
    ensures SeenAre(r, SeenBy(visits), live, limit)
  {
    WalkEnds(r, ids, |visits|, live, limit);
  }

  lemma OneMoreVisit(r: State, visits: seq<Visit>, seen: seq<AccountId>, live: seq<AccountId>, visit: Visit, resolved: bool, after: State)
    requires WalkSoFar(r, visits, seen, live, visit.before) && Moderation(visit.before, visit.state, visit.decided)
    requires resolved == visit.FindsResolved() && after == visit.Leaves()
    ensures WalkSoFar(r, visits + [visit], seen + [visit.id], if resolved then live else live + [visit.id], after)
  {
    assert (visits + [visit])[..|visits|] == visits;
  }

  /**
   What a walk does, whatever was decided and whatever expired while it went on: exactly the entries
   unresolved when read are listed, and exactly the ones resolved when read, or decided, leave.
   */
  lemma {:induction false} WalkIsExact(r: State, visits: seq<Visit>, r': State)
    requires IsWalk(r, visits, r') && Ascending(SeenBy(visits))
    ensures Walked(r, SeenBy(visits), ReadingsOf(visits), DecidedIn(visits), LiveOf(visits), r')
    decreases |visits|
  {
    if visits != [] {
      var before, last := visits[..|visits| - 1], visits[|visits| - 1];
      LastVisit(visits);
      LastIsHighest(SeenBy(before), last.id);
      WalkIsExact(r, before, last.before);
      WalkGoesOn(r, SeenBy(before), ReadingsOf(before), DecidedIn(before), LiveOf(before), last.before, last.state, last.decided, last.id, last.now);
    }
  }

  lemma LastVisit(visits: seq<Visit>)
    requires visits != []
    ensures var before, last := visits[..|visits| - 1], visits[|visits| - 1];
            && SeenBy(visits) == SeenBy(before) + [last.id]
            && ReadingsOf(visits) == ReadingsOf(before) + [Reading(last.state, last.now)]
            && DecidedIn(visits) == DecidedIn(before) + last.decided
            && LiveOf(visits) == (if last.FindsResolved() then LiveOf(before) else LiveOf(before) + [last.id])
  {
  }

  lemma LastIsHighest(ids: seq<AccountId>, last: AccountId)
    requires Ascending(ids + [last])
    ensures Ascending(ids) && forall x :: x in ids ==> x < last
  {
    var all := ids + [last];
    assert forall i :: 0 <= i < |ids| ==> all[i] == ids[i] && all[i] < all[|ids|];
  }

  /** Nobody decides anything during the walk, and it takes no time. */
  ghost predicate Calm(visits: seq<Visit>, now: nat) {
    forall k :: 0 <= k < |visits| ==> visits[k].now == now && visits[k].decided == {} && visits[k].state == visits[k].before
  }

  lemma {:induction false} CalmWalkKeepsFeedback(r: State, visits: seq<Visit>, r': State, now: nat)
    requires IsWalk(r, visits, r') && Calm(visits, now)
    ensures r'.feedback == r.feedback && DecidedIn(visits) == {}
    ensures forall k :: 0 <= k < |visits| ==> visits[k].state.feedback == r.feedback && visits[k].state.jobs == r.jobs
    decreases |visits|
  {
    if visits != [] {
      CalmWalkKeepsFeedback(r, visits[..|visits| - 1], visits[|visits| - 1].before, now);
      assert visits[|visits| - 1].before.jobs == r.jobs by {
        CalmWalkKeepsJobs(r, visits[..|visits| - 1], visits[|visits| - 1].before);
      }
    }
  }

  lemma {:induction false} CalmWalkKeepsJobs(r: State, visits: seq<Visit>, r': State)
    requires IsWalk(r, visits, r')
    ensures r'.jobs == r.jobs
    decreases |visits|
  {
    if visits != [] {
      CalmWalkKeepsJobs(r, visits[..|visits| - 1], visits[|visits| - 1].before);
    }
  }

  lemma {:induction false} SeenAt(visits: seq<Visit>, k: nat)
    requires k < |visits|
    ensures |SeenBy(visits)| == |visits| && SeenBy(visits)[k] == visits[k].id
    decreases |visits|
  {
    if |visits| > 1 {
      SeenAt(visits[..|visits| - 1], if k < |visits| - 1 then k else 0);
    }
  }

  /** A calm walk finds exactly the lowest live entries of the state it began in, and removes the dead ones it reached. */
  lemma {:induction false} CalmWalkIsLowestLive(r: State, visits: seq<Visit>, limit: nat, r': State, now: nat)
    requires IsWalk(r, visits, r') && Calm(visits, now)
    requires SeenAre(r, SeenBy(visits), LiveOf(visits), limit) && (limit > 0 ==> |LiveOf(visits)| <= limit)
    ensures IsLowestLive(r, now, LiveOf(visits), limit) && Swept(r, now, LiveOf(visits), limit, r')
  {
    var seen, readings := SeenBy(visits), ReadingsOf(visits);
    WalkIsExact(r, visits, r');
    CalmWalkKeepsFeedback(r, visits, r', now);
    forall k | 0 <= k < |seen| ensures ResolvedAt(readings[k], seen[k]) <==> Resolved(r, now, seen[k]) {
      SeenAt(visits, k);
    }
    CalmWalkIsExact(r, seen, readings, LiveOf(visits), limit, r', now);
  }

  /** A walk during which nobody decides and no record expires is exact for the one state it began in. */
  lemma CalmWalkIsExact(r: State, seen: seq<AccountId>, readings: seq<Reading>, live: seq<AccountId>, limit: nat, r': State, now: nat)
    requires Walked(r, seen, readings, {}, live, r') && SeenAre(r, seen, live, limit) && (limit > 0 ==> |live| <= limit)
    requires r'.feedback == r.feedback
    requires forall k :: 0 <= k < |seen| ==> (ResolvedAt(readings[k], seen[k]) <==> Resolved(r, now, seen[k]))
    ensures IsLowestLive(r, now, live, limit) && Swept(r, now, live, limit, r')
  {
    forall id ensures FoundResolved(seen, readings, id) <==> id in seen && Resolved(r, now, id) {
      if id in seen && Resolved(r, now, id) {
        var k :| 0 <= k < |seen| && seen[k] == id;
        assert ResolvedAt(readings[k], id);
      }
    }
  }
}
