/**
 `StateStore` (src/redis.rs): its methods as the commands they send, one field per Redis key family.
 Each is proved to do what the function of `Redis` says that the state machine uses for it; `now` is
 the clock at the call.
 */
module StateStores {
  import opened Wrappers
  import opened Accounts
  import opened Redis
  import opened Retention
  import opened RetryQueue

  /** When an entry of the queue is read, and what moderators have decided since the one before. */
  datatype Moment = Moment(now: nat, verdicts: seq<(AccountId, JobStatus)>)

  predicate TookPlaceAt(visit: Visit, moment: Moment) {
    visit.now == moment.now && (moment.verdicts == [] ==> visit.decided == {} && visit.state == visit.before)
  }

  class StateStore {
    var jobs: map<AccountId, StoredJob>
    var failed: set<AccountId>
    var pending: set<AccountId>
    var feedback: map<AccountId, JobStatus>
    var claims: map<AccountId, Claim>
    var cursor: Option<AccountId>

    constructor ()
      ensures Contents() == EMPTY
    {
      jobs, failed, pending, feedback, claims, cursor := map[], {}, {}, map[], map[], None;
    }

    function Contents(): State
      reads this
    {
      State.State(jobs, failed, pending, feedback, claims, cursor)
    }

    // -------------------------------------------------------------------------------------------
    // Cursor

    /** The script: replace the cursor only by a greater one. */
    method SaveCursor(id: AccountId)
      modifies this`cursor
      ensures Contents() == SetCursor(old(Contents()), id)
      ensures cursor.Some? && id <= cursor.value
      ensures old(cursor).Some? ==> old(cursor).value <= cursor.value
      ensures cursor == old(cursor) || cursor == Some(id)
    {
      if cursor.None? || id > cursor.value {
        cursor := Some(id);
      }
    }

    // -------------------------------------------------------------------------------------------
    // Jobs

    method ReadJob(now: nat, id: AccountId) returns (job: Option<Job>)
      ensures job == GetJob(Contents(), now, id)
      ensures job.Some? <==> id in jobs && (jobs[id].expiry == None || now < jobs[id].expiry.value)
      ensures job.Some? ==> job.value == jobs[id].job
    {
      job := None;
      if id in jobs {
        var stored := jobs[id];
        if stored.expiry.None? || now < stored.expiry.value {
          job := Some(stored.job);
        }
      }
    }

    /** `set_job`: SETEX when nothing is owed, a plain SET otherwise. */
    method PutJob(now: nat, id: AccountId, job: Job)
      modifies this`jobs
      ensures Contents() == SetJob(old(Contents()), now, id, job)
      ensures jobs == old(jobs)[id := StoredJob(job, if job.status in {Failed, NotificationPending} then None else Some(now + 7_776_000_000))]
    {
      if job.status.IsCompleted() || job.status == Processing {
        jobs := jobs[id := StoredJob(job, Some(now + ACCOUNT_STATE_RETENTION_SECS * 1_000))];
      } else {
        jobs := jobs[id := StoredJob(job, None)];
      }
    }

    /** `write_job`: one transaction for the record and both queues. */
    method PutJobAndQueue(now: nat, id: AccountId, job: Job, retry: Retry)
      modifies this`jobs, this`failed, this`pending
      ensures Contents() == WriteJob(old(Contents()), now, id, job, retry)
      ensures jobs == old(jobs)[id := StoredJob(job, if job.status in {Failed, NotificationPending} then None else Some(now + 7_776_000_000))]
      ensures failed == (if retry == Queue then old(failed) + {id} else old(failed) - {id}) && pending == old(pending) - {id}
    {
      PutJob(now, id, job);
      match retry {
        case Queue => failed := failed + {id};
        case Clear => failed := failed - {id};
      }
      pending := pending - {id};
    }

    /** `begin_job`. */
    method BeginJob(now: nat, id: AccountId) returns (job: Job)
      modifies this`jobs
      ensures job == BeginRecord(GetJob(old(Contents()), now, id), now)
      ensures Contents() == SetJob(old(Contents()), now, id, job)
      ensures job == Job(Processing, job.attempts, now / 1_000, None, false, false, [])
      ensures jobs == old(jobs)[id := StoredJob(job, Some(now + 7_776_000_000))]
      ensures id in old(jobs) && (old(jobs)[id].expiry == None || now < old(jobs)[id].expiry.value) && old(jobs)[id].job.attempts < 0xffff_ffff ==>
                job.attempts == old(jobs)[id].job.attempts + 1
      ensures id in old(jobs) && (old(jobs)[id].expiry == None || now < old(jobs)[id].expiry.value) && old(jobs)[id].job.attempts >= 0xffff_ffff ==>
                job.attempts == 0xffff_ffff
      ensures id !in old(jobs) || (old(jobs)[id].expiry.Some? && old(jobs)[id].expiry.value <= now) ==> job.attempts == 1
    {
      var previous := ReadJob(now, id);
      var attempts := 1;
      if previous.Some? {
        attempts := if previous.value.attempts < U32_MAX then previous.value.attempts + 1 else U32_MAX;
      }
      job := Job(Processing, attempts, Seconds(now), None, false, false, []);
      PutJob(now, id, job);
    }

    /** `complete_job`. */
    method CompleteJob(now: nat, id: AccountId, job: Job, status: JobStatus, verdict: Option<Verdict>, notified: bool, campaign: seq<AccountId>)
      modifies this`jobs, this`failed, this`pending
      ensures Contents() == WriteJob(old(Contents()), now, id, CompletedRecord(job, status, verdict, notified, campaign, now), Clear)
      ensures jobs == old(jobs)[id := StoredJob(Job(status, job.attempts, now / 1_000, verdict, notified, false, campaign),
                                                if status in {Failed, NotificationPending} then None else Some(now + 7_776_000_000))]
      ensures failed == old(failed) - {id} && pending == old(pending) - {id}
    {
      var updated := job.(status := status, updatedAt := Seconds(now), verdict := verdict, notified := notified,
                          hasError := false, campaign := campaign);
      PutJobAndQueue(now, id, updated, Clear);
    }

    /** `record_classification`; it fails when no record is there to classify. */
    method RecordClassification(now: nat, id: AccountId, status: JobStatus, verdict: Verdict, campaign: seq<AccountId>)
      returns (ok: bool)
      modifies this`jobs, this`pending
      ensures ok == GetJob(old(Contents()), now, id).Some?
      ensures !ok ==> Contents() == old(Contents())
      ensures ok ==> Contents() == WriteClassification(old(Contents()), now, id,
                       ClassifiedRecord(GetJob(old(Contents()), now, id).value, status, verdict, campaign, now))
      ensures ok <==> id in old(jobs) && (old(jobs)[id].expiry == None || now < old(jobs)[id].expiry.value)
      ensures ok ==> var was := old(jobs)[id].job;
                     jobs == old(jobs)[id := StoredJob(Job(status, was.attempts, now / 1_000, Some(verdict), was.notified, false, campaign),
                                                       if status in {Failed, NotificationPending} then None else Some(now + 7_776_000_000))]
      ensures pending == if ok && status == NotificationPending then old(pending) + {id} else old(pending)
    {
      var current := ReadJob(now, id);
      if current.None? {
        return false;
      }
      var job := current.value.(status := status, updatedAt := Seconds(now), verdict := Some(verdict),
                                hasError := false, campaign := campaign);
      PutJob(now, id, job);
      if status == NotificationPending {
        pending := pending + {id};
      }
      ok := true;
    }

    /** `fail_job`. */
    method FailJob(now: nat, id: AccountId, job: Job)
      modifies this`jobs, this`failed, this`pending
      ensures Contents() == WriteJob(old(Contents()), now, id, FailedRecord(job, GetJob(old(Contents()), now, id), now), Queue)
      ensures var stored := if id in old(jobs) && (old(jobs)[id].expiry == None || now < old(jobs)[id].expiry.value) then old(jobs)[id].job else job;
              jobs == old(jobs)[id := StoredJob(Job(Failed, job.attempts, now / 1_000, stored.verdict, job.notified, true, stored.campaign), None)]
      ensures failed == old(failed) + {id} && pending == old(pending) - {id}
    {
      var updated := job;
      var current := ReadJob(now, id);
      if current.Some? {
        updated := updated.(verdict := current.value.verdict, campaign := current.value.campaign);
      }
      updated := updated.(status := Failed, updatedAt := Seconds(now), hasError := true);
      PutJobAndQueue(now, id, updated, Queue);
    }

    /** `mark_unavailable`. */
    method MarkUnavailable(now: nat, id: AccountId)
      modifies this`jobs, this`failed, this`pending
      ensures var r := old(Contents());
              var job := GetJob(r, now, id);
              Contents() == if job.Some? then WriteJob(r, now, id, UnavailableRecord(job.value, now), Clear) else Redis.RemoveFailed(r, id)
      ensures failed == old(failed) - {id} && pending == old(pending) - {id}
      ensures jobs == if id in old(jobs) && (old(jobs)[id].expiry == None || now < old(jobs)[id].expiry.value) then
                        var was := old(jobs)[id].job;
                        old(jobs)[id := StoredJob(Job(Unavailable, was.attempts, now / 1_000, was.verdict, was.notified, true, was.campaign),
                                                  Some(now + 7_776_000_000))]
                      else old(jobs)
    {
      var job := ReadJob(now, id);
      if job.None? {
        RemoveFailed(id);
        return;
      }
      PutJobAndQueue(now, id, job.value.(status := Unavailable, updatedAt := Seconds(now), hasError := true), Clear);
    }

    /** `remove_failed`. */
    method RemoveFailed(id: AccountId)
      modifies this`failed, this`pending
      ensures Contents() == Redis.RemoveFailed(old(Contents()), id)
      ensures failed == old(failed) - {id} && pending == old(pending) - {id}
    {
      failed := failed - {id};
      pending := pending - {id};
    }

    // -------------------------------------------------------------------------------------------
    // Feedback and claims

    /** The `record_feedback` script. */
    method RecordFeedback(now: nat, id: AccountId, status: JobStatus) returns (reply: FeedbackReply)
      modifies this`feedback, this`failed, this`pending
      ensures Redis.RecordFeedback(old(Contents()), now, id, status) == (Contents(), reply)
      ensures reply == NoStoredJob <==>
                id !in old(feedback) && (id !in jobs || (jobs[id].expiry.Some? && jobs[id].expiry.value <= now))
      ensures reply == DeliveryInProgress <==> reply != NoStoredJob && id in claims && now < claims[id].expiry
      ensures reply.Recorded? ==>
                && feedback == old(feedback)[id := status] && failed == old(failed) - {id} && pending == old(pending) - {id}
                && reply.previous == if id in old(feedback) then Some(old(feedback)[id]) else None
      ensures !reply.Recorded? ==> feedback == old(feedback) && failed == old(failed) && pending == old(pending)
    {
      var job := ReadJob(now, id);
      if job.None? && id !in feedback {
        return NoStoredJob;
      }
      if id in claims && now < claims[id].expiry {
        return DeliveryInProgress;
      }
      var existing := if id in feedback then Some(feedback[id]) else None;
      feedback := feedback[id := status];
      RemoveFailed(id);
      reply := Recorded(existing);
    }

    /** The `claim_notification` script. */
    method ClaimNotification(now: nat, id: AccountId, process: nat) returns (token: Option<ClaimToken>)
      modifies this`claims
      ensures var made := ClaimToken(process, Seconds(now));
              Redis.ClaimNotification(old(Contents()), now, id, made) == (Contents(), token.Some?) && (token.Some? ==> token == Some(made))
      ensures token.Some? <==> id !in feedback && (id !in old(claims) || old(claims)[id].expiry <= now)
      ensures claims == if token.Some? then old(claims)[id := Claim(ClaimToken(process, now / 1_000), now + 600_000)] else old(claims)
    {
      var made := ClaimToken(process, Seconds(now));
      if id in feedback || (id in claims && now < claims[id].expiry) {
        return None;
      }
      claims := claims[id := Claim(made, now + NOTIFICATION_CLAIM_SECS * 1_000)];
      token := Some(made);
    }

    /** The `release_notification_claim` script. */
    method ReleaseNotificationClaim(now: nat, id: AccountId, token: ClaimToken)
      modifies this`claims
      ensures Contents() == ReleaseClaim(old(Contents()), now, id, token)
      ensures !(id in claims && now < claims[id].expiry && claims[id].token == token)
      ensures id in old(claims) && old(claims)[id].token == token ==> !(id in claims && now < claims[id].expiry)
      ensures id in old(claims) && old(claims)[id].token != token ==> id in claims && claims[id] == old(claims)[id]
      ensures forall other :: other != id ==>
                (other in claims <==> other in old(claims)) && (other in claims ==> claims[other] == old(claims)[other])
    {
      if id in claims && now < claims[id].expiry && claims[id].token == token {
        claims := claims - {id};
      }
    }

    // -------------------------------------------------------------------------------------------
    // The retry queue

    /** The members of a set, in whatever order Redis lists them. */
    method ListMembers(members: set<AccountId>) returns (ids: seq<AccountId>)
      ensures forall id :: id in ids <==> id in members
    {
      ids := [];
      var rest := members;
      while rest != {}
        invariant rest <= members
        invariant forall id :: id in ids <==> id in members && id !in rest
        decreases |rest|
      {
        var id :| id in rest;
        rest := rest - {id};
        ids := ids + [id];
      }
    }

    /** Moderators decide some accounts, by as many runs of the `record_feedback` script. */
    method Moderate(now: nat, verdicts: seq<(AccountId, JobStatus)>) returns (ghost decided: set<AccountId>)
      modifies this`feedback, this`failed, this`pending
      ensures Moderation(old(Contents()), Contents(), decided)
      ensures verdicts == [] ==> decided == {} && Contents() == old(Contents())
    {
      decided := {};
      for i := 0 to |verdicts|
        invariant Moderation(old(Contents()), Contents(), decided)
        invariant i == 0 ==> decided == {} && Contents() == old(Contents())
      {
        var reply := RecordFeedback(now, verdicts[i].0, verdicts[i].1);
        if reply.Recorded? {
          decided := decided + {verdicts[i].0};
        }
      }
    }

    /** The entries of both queues, in numeric order and without repeats. */
    method ListQueue() returns (ids: seq<AccountId>)
      ensures ListsQueue(Contents(), ids)
    {
      var first := ListMembers(failed);
      var second := ListMembers(pending);
      SortIdsKeeps(first + second);
      ids := SortIds(first + second);
    }

    /** One entry: moderators decide, it is read, and dropped from the queues when it needs no retry. */
    method VisitEntry(moment: Moment, id: AccountId) returns (resolved: bool, ghost visit: Visit)
      modifies this`feedback, this`failed, this`pending
      ensures visit.id == id && visit.now == moment.now && visit.before == old(Contents())
      ensures Moderation(visit.before, visit.state, visit.decided)
      ensures resolved == visit.FindsResolved() && Contents() == visit.Leaves()
      ensures moment.verdicts == [] ==> visit.decided == {} && visit.state == visit.before
    {
      ghost var before := Contents();
      ghost var decided := Moderate(moment.now, moment.verdicts);
      visit := Visit(id, moment.now, before, decided, Contents());
      var job := ReadJob(moment.now, id);
      resolved := (id in feedback && (feedback[id] == FalsePositive || feedback[id] == ConfirmedSpam))
                  || (job.Some? && job.value.status.IsCompleted());
      if resolved {
        RemoveFailed(id);
      }
    }

    /** The same, as the next visit of a walk. */
    method VisitNext(moment: Moment, id: AccountId, ghost r: State, ghost visits: seq<Visit>, ghost seen: seq<AccountId>, live: seq<AccountId>)
      returns (resolved: bool, ghost visit: Visit)
      requires WalkSoFar(r, visits, seen, live, Contents())
      modifies this`feedback, this`failed, this`pending
      ensures WalkSoFar(r, visits + [visit], seen + [id], if resolved then live else live + [id], Contents())
      ensures TookPlaceAt(visit, moment)
    {
      resolved, visit := VisitEntry(moment, id);
      OneMoreVisit(r, visits, seen, live, visit, resolved, Contents());
    }

    /**
     `failed_ids`. The queue is listed once; each entry is then read at its own moment, after whatever
     moderators decided meanwhile. `RetryQueue.WalkIsExact` says what such a walk does.
     */
    method FailedIds(moments: nat -> Moment, limit: nat) returns (live: seq<AccountId>, ghost visits: seq<Visit>)
      modifies this`feedback, this`failed, this`pending
      ensures IsWalk(old(Contents()), visits, Contents()) && live == LiveOf(visits)
      ensures SeenAre(old(Contents()), SeenBy(visits), live, limit)
      ensures limit > 0 ==> |live| <= limit
      ensures forall k :: 0 <= k < |visits| ==> TookPlaceAt(visits[k], moments(k))
    {
      ghost var r := Contents();
      var ids := ListQueue();
      assert ListsQueue(r, ids);
      live, visits := [], [];
      var i := 0;
      while i < |ids|
        invariant i == |visits| <= |ids|
        invariant limit > 0 ==> |live| < limit
        invariant WalkSoFar(r, visits, ids[..i], live, Contents())
        invariant forall k :: 0 <= k < i ==> TookPlaceAt(visits[k], moments(k))
      {
        var id := ids[i];
        var resolved;
        ghost var visit;
        resolved, visit := VisitNext(moments(i), id, r, visits, ids[..i], live);
        visits := visits + [visit];
        i := i + 1;
        assert ids[..i] == ids[..i - 1] + [id];
        if resolved {
          continue;
        }
        live := live + [id];
        if |live| == limit {
          break;
        }
      }
      WalkIsOver(r, visits, ids, live, limit);
      assert r == old(Contents());
    }

    // -------------------------------------------------------------------------------------------
    // Retention

    /** The reads of one scanned batch: the expiry each key is to get, where it gets one. */
    method ReadBatch(keys: seq<AccountId>, a: Application) returns (updates: seq<(AccountId, nat)>)
      ensures forall u :: u in updates ==> u.0 in keys && Decision(Entry(Contents(), u.0), a) == Some(u.1)
      ensures forall id :: id in keys && Decision(Entry(Contents(), id), a).Some? ==>
                (id, Decision(Entry(Contents(), id), a).value) in updates
    {
      updates := [];
      for i := 0 to |keys|
        invariant forall u :: u in updates ==> u.0 in keys && Decision(Entry(Contents(), u.0), a) == Some(u.1)
        invariant forall id :: id in keys[..i] && Decision(Entry(Contents(), id), a).Some? ==>
                    (id, Decision(Entry(Contents(), id), a).value) in updates
      {
        var job := ReadJob(a.time, keys[i]);
        if job.Some? {
          var ttl := RemainingJobTtl(job.value, a.startSecs);
          if ttl.Some? {
            updates := updates + [(keys[i], ttl.value)];
          }
        }
        assert keys[..i + 1] == keys[..i] + [keys[i]];
      }
      assert keys[..|keys|] == keys;
    }

    /** DEL for a key whose retention has ended, EXPIRE for another. */
    method SendUpdate(id: AccountId, ttl: nat, now: nat)
      modifies this`jobs
      ensures Contents() == ApplyTtl(old(Contents()), now, id, Some(ttl))
      ensures ttl == 0 ==> jobs == old(jobs) - {id}
      ensures ttl > 0 && id in old(jobs) && (old(jobs)[id].expiry == None || now < old(jobs)[id].expiry.value) ==>
                jobs == old(jobs)[id := StoredJob(old(jobs)[id].job, Some(now + ttl * 1_000))]
      ensures ttl > 0 && !(id in old(jobs) && (old(jobs)[id].expiry == None || now < old(jobs)[id].expiry.value)) ==> jobs == old(jobs)
    {
      if ttl == 0 {
        jobs := jobs - {id};
      } else if id in jobs && (jobs[id].expiry.None? || now < jobs[id].expiry.value) {
        jobs := jobs[id := jobs[id].(expiry := Some(now + ttl * 1_000))];
      }
    }

    /** One batch: a key scanned twice in it ends as if scanned once. */
    method ApplyBatch(keys: seq<AccountId>, a: Application)
      modifies this`jobs
      ensures forall id :: Entry(Contents(), id) == if id in keys then AppliedOnce(old(Entry(Contents(), id)), a) else old(Entry(Contents(), id))
    {
      ghost var r := Contents();
      var updates := ReadBatch(keys, a);
      for j := 0 to |updates|
        invariant forall id :: Entry(Contents(), id) ==
                    if exists k :: 0 <= k < j && updates[k].0 == id then AppliedOnce(Entry(r, id), a) else Entry(r, id)
      {
        var (id, ttl) := updates[j];
        assert updates[j] in updates;
        ghost var before := Contents();
        AppliedTwiceIsOnce(Entry(r, id), a);
        SendUpdate(id, ttl, a.time);
        UpdateIsAppliedOnce(r, before, id, ttl, a);
      }
      forall id | id in keys && Decision(Entry(r, id), a).Some?
        ensures exists k :: 0 <= k < |updates| && updates[k].0 == id
      {
        var u := (id, Decision(Entry(r, id), a).value);
        assert u in updates;
        var k :| 0 <= k < |updates| && updates[k] == u;
        assert updates[k].0 == id;
      }
    }

    /**
     `apply_job_retention`: the batches of one SCAN, each sent at its own time, with the clock
     sampled once before the first. Every job ends with the applications of the batches that
     yielded it, in order.
     */
    method ApplyJobRetention(startSecs: nat, batches: seq<seq<AccountId>>, times: seq<nat>)
      requires |batches| == |times|
      modifies this`jobs
      ensures forall id :: Entry(Contents(), id) == Applied(old(Entry(Contents(), id)), Scans(id, startSecs, batches, times))
    {
      ghost var r := Contents();
      for k := 0 to |batches|
        invariant forall id :: Entry(Contents(), id) == Applied(Entry(r, id), Scans(id, startSecs, batches[..k], times[..k]))
      {
        ghost var before := Contents();
        ApplyBatch(batches[k], Application(startSecs, times[k]));
        forall id
          ensures Entry(Contents(), id) == Applied(Entry(r, id), Scans(id, startSecs, batches[..k + 1], times[..k + 1]))
        {
          OneMoreBatch(Entry(r, id), id, startSecs, batches, times, k);
        }
      }
      assert batches[..|batches|] == batches && times[..|batches|] == times;
    }
  }

  /** The scans of one job in a pass: one for every batch that yields it. */
  function Scans(id: AccountId, startSecs: nat, batches: seq<seq<AccountId>>, times: seq<nat>): seq<Application>
    requires |batches| == |times|
    decreases |batches|
  {
    if batches == [] then []
    else
      var k := |batches| - 1;
      Scans(id, startSecs, batches[..k], times[..k]) + (if id in batches[k] then [Application(startSecs, times[k])] else [])
  }

  lemma OneMoreBatch(entry: Option<StoredJob>, id: AccountId, startSecs: nat, batches: seq<seq<AccountId>>, times: seq<nat>, k: nat)
    requires |batches| == |times| && k < |batches|
    ensures var done := Applied(entry, Scans(id, startSecs, batches[..k], times[..k]));
            Applied(entry, Scans(id, startSecs, batches[..k + 1], times[..k + 1])) ==
              if id in batches[k] then AppliedOnce(done, Application(startSecs, times[k])) else done
  {
    assert batches[..k + 1][..k] == batches[..k] && times[..k + 1][..k] == times[..k];
    var scans := Scans(id, startSecs, batches[..k], times[..k]);
    assert batches[..k + 1][k] == batches[k] && times[..k + 1][k] == times[k];
    assert scans + [] == scans;
    assert (scans + [Application(startSecs, times[k])])[..|scans|] == scans;
  }

  /** One command of a batch, on a store where some of the batch has been applied already. */
  lemma UpdateIsAppliedOnce(r: State, before: State, id: AccountId, ttl: nat, a: Application)
    requires Decision(Entry(r, id), a) == Some(ttl)
    requires Entry(before, id) == Entry(r, id) || Entry(before, id) == AppliedOnce(Entry(r, id), a)
    ensures var after := ApplyTtl(before, a.time, id, Some(ttl));
            && Entry(after, id) == AppliedOnce(Entry(r, id), a)
            && (forall other :: other != id ==> Entry(after, other) == Entry(before, other))
  {
  }
}
