/**
 The retention pass over jobs stored before expiry was introduced (src/redis.rs,
 `apply_job_retention`). A pass samples the clock once, when it starts, and sends relative expiry
 times later; a job may be scanned several times by one pass, and by passes that start over after an
 interruption.
 */
module Retention {
  import opened Wrappers
  import opened Accounts
  import opened Redis

  /** One scan of a job: the second its pass started in, and the moment the command takes effect. */
  datatype Application = Application(startSecs: nat, time: nat) {
    predicate Valid() {
      startSecs * 1_000 <= time
    }

    /** How long after the sampled second the command took effect. */
    function Drift(): nat
      requires Valid()
    {
      time - startSecs * 1_000
    }
  }

  function Entry(r: State, id: AccountId): Option<StoredJob> {
    if id in r.jobs then Some(r.jobs[id]) else None
  }

  /** What the pass decides for a job it reads: nothing, or the seconds the job has left. */
  function Decision(entry: Option<StoredJob>, a: Application): Option<nat> {
    if entry.Some? && Live(entry.value, a.time) then RemainingJobTtl(entry.value.job, a.startSecs) else None
  }

  function AppliedOnce(entry: Option<StoredJob>, a: Application): Option<StoredJob> {
    var ttl := Decision(entry, a);
    if ttl.None? then entry
    else if ttl.value == 0 then None
    else Some(entry.value.(expiry := Some(a.time + ttl.value * 1_000)))
  }

  function Applied(entry: Option<StoredJob>, applications: seq<Application>): Option<StoredJob> {
    if applications == [] then entry
    else AppliedOnce(Applied(entry, applications[..|applications| - 1]), applications[|applications| - 1])
  }

  predicate InOrder(applications: seq<Application>) {
    && (forall i :: 0 <= i < |applications| ==> applications[i].Valid())
    && (forall i, j :: 0 <= i <= j < |applications| ==> applications[i].time <= applications[j].time)
  }

  /** The instant a job's retention ends: its stored update time plus 90 days. */
  function Due(job: Job): nat {
    (job.updatedAt + ACCOUNT_STATE_RETENTION_SECS) * 1_000
  }

  /** An expiry the job may carry already, from a write or an earlier scan, is not before its due time. */
  predicate NotShort(stored: StoredJob) {
    stored.expiry.Some? ==> stored.expiry.value >= Due(stored.job)
  }

  predicate Visible(entry: Option<StoredJob>, time: nat) {
    entry.Some? && Live(entry.value, time)
  }

  lemma AppliedTwiceIsOnce(entry: Option<StoredJob>, a: Application)
    ensures AppliedOnce(AppliedOnce(entry, a), a) == AppliedOnce(entry, a)
  {
  }

  /** A Failed or NotificationPending job is never given an expiry, nor deleted. */
  lemma {:induction false} DurableJobsStay(stored: StoredJob, applications: seq<Application>)
    requires !stored.job.status.Expires()
    ensures Applied(Some(stored), applications) == Some(stored)
    decreases |applications|
  {
    if applications != [] {
      DurableJobsStay(stored, applications[..|applications| - 1]);
    }
  }

  /** One scan of a job with time left: the exact expiry, and when it is exactly the due time. */
  lemma OneScanIsExactIffInstant(stored: StoredJob, a: Application)
    requires stored.job.status.Expires() && Live(stored, a.time) && a.Valid()
    requires stored.job.updatedAt <= a.startSecs
    ensures AppliedOnce(Some(stored), a).None? <==> Due(stored.job) <= a.startSecs * 1_000
    ensures Due(stored.job) > a.startSecs * 1_000 ==>
              && AppliedOnce(Some(stored), a) == Some(stored.(expiry := Some(Due(stored.job) + a.Drift())))
              && (AppliedOnce(Some(stored), a).value.expiry == Some(Due(stored.job)) <==> a.Drift() == 0)
  {
  }

  /**
   Restarts, repeats and duplicates make no difference: whatever scans came before, after the last
   one the job either is gone, and is due, or is unchanged but for an expiry that depends on its
   update time and the last scan alone.
   */
  lemma {:induction false} OnlyTheLastScanMatters(stored: StoredJob, applications: seq<Application>)
    requires applications != [] && InOrder(applications)
    requires stored.job.status.Expires() && NotShort(stored)
    requires forall i :: 0 <= i < |applications| ==> stored.job.updatedAt <= applications[i].startSecs
    ensures var last := applications[|applications| - 1];
            var final := Applied(Some(stored), applications);
            if Visible(final, last.time) then final == Some(stored.(expiry := Some(Due(stored.job) + last.Drift())))
            else Due(stored.job) <= last.time
    decreases |applications|
  {
    var n := |applications|;
    var last := applications[n - 1];
    var before := applications[..n - 1];
    if before != [] {
      OnlyTheLastScanMatters(stored, before);
      var earlier := Applied(Some(stored), before);
      assert before[n - 2].time <= last.time;
      if Visible(earlier, last.time) {
        OneScanIsExactIffInstant(earlier.value, last);
      }
    } else if Live(stored, last.time) {
      OneScanIsExactIffInstant(stored, last);
    }
  }

  /** With scans that take effect in the sampled instant, any scans end as one clean pass does. */
  lemma {:induction false} InstantScansEndAlike(stored: StoredJob, applications: seq<Application>)
    requires applications != [] && InOrder(applications)
    requires stored.job.status.Expires() && NotShort(stored)
    requires forall i :: 0 <= i < |applications| ==> stored.job.updatedAt <= applications[i].startSecs && applications[i].Drift() == 0
    ensures var last := applications[|applications| - 1];
            var final, clean := Applied(Some(stored), applications), AppliedOnce(Some(stored), last);
            && (Visible(final, last.time) <==> last.time < Due(stored.job))
            && (Visible(clean, last.time) <==> last.time < Due(stored.job))
            && (last.time < Due(stored.job) ==> final == clean == Some(stored.(expiry := Some(Due(stored.job)))))
  {
    var last := applications[|applications| - 1];
    OnlyTheLastScanMatters(stored, applications);
    if Live(stored, last.time) {
      OneScanIsExactIffInstant(stored, last);
    }
    if last.time < Due(stored.job) {
      StaysUntilDue(stored, applications);
    }
  }

  lemma {:induction false} StaysUntilDue(stored: StoredJob, applications: seq<Application>)
    requires InOrder(applications)
    requires stored.job.status.Expires() && NotShort(stored)
    requires forall i :: 0 <= i < |applications| ==> stored.job.updatedAt <= applications[i].startSecs
    requires applications != [] ==> applications[|applications| - 1].time < Due(stored.job)
    ensures var final := Applied(Some(stored), applications);
            final.Some? && final.value.job == stored.job && (final.value.expiry.Some? ==> final.value.expiry.value >= Due(stored.job))
    decreases |applications|
  {
    if applications != [] {
      var n := |applications|;
      var before := applications[..n - 1];
      assert before != [] ==> before[n - 2].time <= applications[n - 1].time;
      StaysUntilDue(stored, before);
      OneScanIsExactIffInstant(Applied(Some(stored), before).value, applications[n - 1]);
    }
  }

  /** A pass that is five seconds into its work keeps a job five seconds longer than its due time. */
  lemma SlowScanKeepsLonger()
    ensures var stored := StoredJob(Job(NotSpam, 1, 1_000, None, false, false, []), None);
            && AppliedOnce(Some(stored), Application(2_000, 2_000_000)).value.expiry == Some(Due(stored.job))
            && AppliedOnce(Some(stored), Application(2_000, 2_005_000)).value.expiry == Some(Due(stored.job) + 5_000)
  {
  }

  /** A fresh write of the record would have given it the due time, up to the fraction of its second. */
  lemma FreshWriteIsDue(job: Job, now: nat)
    requires job.status.Expires() && job.updatedAt == Seconds(now)
    ensures Store(job, now).expiry == Some(Due(job) + now % 1_000)
  {
  }
}
