/**
 The batch that `retry-failed` gathers from the queue (src/cli.rs, `retry_failed_command`).
 */
module RetryCommand {
  import opened Accounts
  import opened Redis
  import opened RetryQueue
  import opened StateStores

  /** What Mastodon answers for one queued account. */
  datatype Fetch = Found(account: Account) | Gone | FetchFailed

  function FoundIn(fetches: seq<Fetch>): seq<Account> {
    if fetches == [] then []
    else
      var n := |fetches| - 1;
      FoundIn(fetches[..n]) + (if fetches[n].Found? then [fetches[n].account] else [])
  }

  function CountIn(fetches: seq<Fetch>, p: Fetch -> bool): nat {
    if fetches == [] then 0
    else
      var n := |fetches| - 1;
      CountIn(fetches[..n], p) + (if p(fetches[n]) then 1 else 0)
  }

  /** The account was reported gone among the first `visited`. */
  predicate ReportedGone(ids: seq<AccountId>, fetches: seq<Fetch>, visited: nat, id: AccountId)
    requires |ids| == |fetches| && visited <= |ids|
  {
    exists k :: 0 <= k < visited && ids[k] == id && fetches[k].Gone?
  }

  lemma OneMoreVisited(ids: seq<AccountId>, fetches: seq<Fetch>, visited: nat)
    requires |ids| == |fetches| && visited < |ids|
    ensures forall id :: ReportedGone(ids, fetches, visited + 1, id) <==>
              ReportedGone(ids, fetches, visited, id) || (fetches[visited].Gone? && ids[visited] == id)
  {
    forall id
      ensures ReportedGone(ids, fetches, visited + 1, id) <==>
                ReportedGone(ids, fetches, visited, id) || (fetches[visited].Gone? && ids[visited] == id)
    {
      if fetches[visited].Gone? && ids[visited] == id {
        assert 0 <= visited < visited + 1 && ids[visited] == id && fetches[visited].Gone?;
      }
      if ReportedGone(ids, fetches, visited, id) {
        var k :| 0 <= k < visited && ids[k] == id && fetches[k].Gone?;
        assert 0 <= k < visited + 1 && ids[k] == id && fetches[k].Gone?;
      }
    }
  }

  /** A gone account is closed: out of both queues, and its record, if any, terminal. */
  predicate Closed(r: State, now: nat, id: AccountId) {
    id !in Queued(r) && (GetJob(r, now, id).Some? ==> GetJob(r, now, id).value.status.Unavailable?)
  }

  /** Two states of Redis hold the same of an account. */
  predicate Untouched(r: State, r': State, id: AccountId) {
    && (id in r.jobs <==> id in r'.jobs) && (id in r.jobs ==> r.jobs[id] == r'.jobs[id])
    && (id in r.failed <==> id in r'.failed) && (id in r.pending <==> id in r'.pending)
  }

  /**
   The loop over the walked queue: the first `max` accounts Mastodon still has, in queue order, and
   not one entry looked at beyond the last of them. Accounts that are gone are closed; those that
   could not be fetched stay exactly as they were.
   */
  method GatherBatch(store: StateStore, ids: seq<AccountId>, fetches: seq<Fetch>, times: seq<nat>, max: nat)
    returns (accounts: seq<Account>, unavailable: nat, fetchFailures: nat, visited: nat)
    requires |ids| == |fetches| == |times| && Ascending(ids) && max > 0
    modifies store`jobs, store`failed, store`pending
    ensures visited <= |ids|
    ensures accounts == FoundIn(fetches[..visited]) && |accounts| <= max
    ensures visited < |ids| ==> |accounts| == max
    ensures forall v :: 0 <= v < visited ==> |FoundIn(fetches[..v])| < max
    ensures unavailable == CountIn(fetches[..visited], (f: Fetch) => f.Gone?)
    ensures fetchFailures == CountIn(fetches[..visited], (f: Fetch) => f.FetchFailed?)
    ensures unavailable + fetchFailures + |accounts| == visited
    ensures forall k :: 0 <= k < visited && fetches[k].Gone? ==> Closed(store.Contents(), times[k], ids[k])
    ensures forall id :: !ReportedGone(ids, fetches, visited, id) ==> Untouched(old(store.Contents()), store.Contents(), id)
  {
    accounts, unavailable, fetchFailures, visited := [], 0, 0, 0;
    ghost var r := store.Contents();
    while visited < |ids|
      invariant visited <= |ids|
      invariant accounts == FoundIn(fetches[..visited]) && |accounts| < max
      invariant forall v :: 0 <= v <= visited ==> |FoundIn(fetches[..v])| < max
      invariant unavailable == CountIn(fetches[..visited], (f: Fetch) => f.Gone?)
      invariant fetchFailures == CountIn(fetches[..visited], (f: Fetch) => f.FetchFailed?)
      invariant unavailable + fetchFailures + |accounts| == visited
      invariant forall k :: 0 <= k < visited && fetches[k].Gone? ==> Closed(store.Contents(), times[k], ids[k])
      invariant forall id :: !ReportedGone(ids, fetches, visited, id) ==> Untouched(r, store.Contents(), id)
    {
      var k := visited;
      OneMoreVisited(ids, fetches, k);
      assert fetches[..k + 1][..k] == fetches[..k];
      visited := visited + 1;
      match fetches[k] {
        case Found(account) => accounts := accounts + [account];
        case Gone =>
          ghost var before := store.Contents();
          MarkingCloses(before, times[k], ids[k]);
          store.MarkUnavailable(times[k], ids[k]);
          assert store.Contents() == Marked(before, times[k], ids[k]);
          forall id | !ReportedGone(ids, fetches, visited, id) ensures Untouched(r, store.Contents(), id) {
            assert Untouched(r, before, id) && Untouched(before, store.Contents(), id);
          }
          unavailable := unavailable + 1;
        case FetchFailed => fetchFailures := fetchFailures + 1;
      }
      if |accounts| == max {
        break;
      }
    }
  }

  /** `mark_unavailable` as a function of the state it finds. */
  function Marked(r: State, now: nat, id: AccountId): State {
    var job := GetJob(r, now, id);
    if job.Some? then WriteJob(r, now, id, UnavailableRecord(job.value, now), Clear) else RemoveFailed(r, id)
  }

  lemma MarkingCloses(r: State, now: nat, id: AccountId)
    ensures var r' := Marked(r, now, id);
            Closed(r', now, id) && forall other :: other != id ==> Untouched(r, r', other)
  {
  }
}
