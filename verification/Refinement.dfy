/**
 The steps of a run in `System` are shown to be what the loops compute: the list and the cursor those of
 `Pagination` and `Processing`, a retention command one scan of `Retention`, and the steps on a queued
 account those of the store.
 */
module Refinement {
  import opened Wrappers
  import opened Accounts
  import opened Redis
  import System
  import SystemSteps
  import Retention
  import Pagination
  import Processing
  import W = Worker

  lemma {:induction false} LaterGrowsUpward(listed: nat -> set<AccountId>, from: nat, upTo: nat)
    requires forall k: nat :: Pagination.GrowsUpward(listed(k), listed(k + 1))
    requires from <= upTo
    ensures Pagination.GrowsUpward(listed(from), listed(upTo))
    decreases upTo
  {
    if from < upTo {
      LaterGrowsUpward(listed, from, upTo - 1);
      assert Pagination.GrowsUpward(listed(upTo - 1), listed(upTo - 1 + 1));
    }
  }

  /** An account is nowhere but between the ends of the ascending list that holds it. */
  lemma EndsAreExtremes(accounts: seq<Account>)
    requires StrictlyAscending(accounts) && accounts != []
    ensures accounts[0].id in IdsOf(accounts) && accounts[|accounts| - 1].id in IdsOf(accounts)
    ensures forall x :: x in IdsOf(accounts) ==> accounts[0].id <= x <= accounts[|accounts| - 1].id
  {
  }

  /**
   A fetch that is exact leaves no gap: at any later moment, whatever has federated since, every
   listed account from where the fetch continues up to its last account is in the fetched list.
   */
  lemma FetchIsContiguous(listed: nat -> set<AccountId>, requests: nat, moment: nat, cursor: Option<AccountId>,
                          accounts: seq<Account>, n: nat)
    requires StrictlyAscending(accounts)
    requires Pagination.Exact(IdsOf(accounts), listed, requests, cursor, None, n)
    requires forall k: nat :: Pagination.GrowsUpward(listed(k), listed(k + 1))
    requires requests <= moment
    ensures System.Contiguous(listed(moment), cursor, accounts)
    ensures cursor.Some? && accounts != [] ==> cursor.value < accounts[0].id
    ensures IdsOf(accounts) <= listed(moment)
  {
    var asked := if cursor.None? || requests == 0 then 0 else requests - 1;
    LaterGrowsUpward(listed, asked, moment);
    if accounts != [] {
      EndsAreExtremes(accounts);
      assert accounts[|accounts| - 1].id in listed(asked);
    }
  }

  /**
   The chunk that ends a run gives the cursor of the one-by-one scan: its leading successes extend
   those of the chunks before it to the longest successful prefix, and the account saved is the
   last one of that prefix.
   */
  lemma ChunkEndsAtTheScan(accounts: seq<Account>, results: seq<Processing.TaskResult>, workers: map<AccountId, W.Phase>, next: nat, end: nat)
    requires |accounts| == |results| && next <= end <= |accounts|
    requires forall i :: 0 <= i < next ==> results[i].Checked?
    requires forall i :: next <= i < end ==>
               (results[i].Checked? <==> accounts[i].id in workers && workers[accounts[i].id] == W.Done(true))
    ensures var upto := next + System.Successes(accounts, workers, next, end);
            var scan := Processing.Scan(accounts[..end], results[..end], Processing.EMPTY);
            && upto == Processing.SuccessfulPrefix(results[..end])
            && scan.lastContiguousId == (if upto == 0 then None else Some(accounts[upto - 1].id))
            && (scan.firstFailure.None? <==> upto == end)
  {
    var upto := next + System.Successes(accounts, workers, next, end);
    SuccessesStop(accounts, workers, next, end);
    Processing.PrefixIs(results[..end], upto);
    Processing.ScanReportsThePrefix(accounts[..end], results[..end], Processing.EMPTY);
  }

  lemma {:induction false} SuccessesStop(accounts: seq<Account>, workers: map<AccountId, W.Phase>, next: nat, end: nat)
    requires next <= end <= |accounts|
    ensures var upto := next + System.Successes(accounts, workers, next, end);
            upto < end ==> accounts[upto].id !in workers || workers[accounts[upto].id] != W.Done(true)
    decreases end - next
  {
    if next < end && accounts[next].id in workers && workers[accounts[next].id] == W.Done(true) {
      SuccessesStop(accounts, workers, next + 1, end);
    }
  }

  // ---------------------------------------------------------------------------------------------
  // Commands of a run

  /**
   Over every history, the command a pass sends for a job it has read does to the job what one scan at
   that moment does, although the job was read earlier; one that has expired meanwhile stays unseen.
   */
  lemma {:induction false} MigrationAppliesOneScan(events: seq<System.Event>, id: AccountId)
    requires System.After(events).Some? && System.Step(System.After(events).value, System.MigrateApply(id)).Some?
    ensures var s, s' := System.After(events).value, System.Step(System.After(events).value, System.MigrateApply(id)).value;
            var scan := Retention.Application(s.run.value.stage.startSecs, s.now);
            && scan.Valid()
            && (GetJob(s.redis, s.now, id).Some? ==>
                  Retention.Entry(s'.redis, id) == Retention.AppliedOnce(Retention.Entry(s.redis, id), scan))
            && (GetJob(s.redis, s.now, id).None? ==> GetJob(s'.redis, s.now, id).None?)
            && (forall other :: other != id ==> Retention.Entry(s'.redis, other) == Retention.Entry(s.redis, other))
  {
    SystemSteps.HistoryKeepsInv(events);
  }

  /** The entry of the retry queue that was found resolved leaves both queues, and the walk goes on. */
  lemma ResolvedEntryIsDropped(s: System.State)
    requires System.Step(s, System.WalkRemove).Some?
    ensures var stage, s' := s.run.value.stage, System.Step(s, System.WalkRemove).value;
            && s'.redis == s.redis.(failed := s.redis.failed - {stage.dead}, pending := s.redis.pending - {stage.dead})
            && s'.run.Some? && s'.run.value.stage == System.Walking(stage.queue, stage.live)
  {
  }

  /** An account that is gone leaves both queues, and its record, where one was read, becomes Unavailable for 90 days. */
  lemma GoneAccountIsClosed(s: System.State)
    requires System.Step(s, System.MarkWrite).Some?
    ensures var stage, s' := s.run.value.stage, System.Step(s, System.MarkWrite).value;
            && s'.redis == s.redis.(jobs := s'.redis.jobs, failed := s.redis.failed - {stage.gone}, pending := s.redis.pending - {stage.gone})
            && (stage.job.None? ==> s'.redis.jobs == s.redis.jobs)
            && (stage.job.Some? ==>
                  var was := stage.job.value;
                  s'.redis.jobs == s.redis.jobs[stage.gone := StoredJob(
                    Job(Unavailable, was.attempts, s.now / 1_000, was.verdict, was.notified, true, was.campaign), Some(s.now + 7_776_000_000))])
  {
  }
}
