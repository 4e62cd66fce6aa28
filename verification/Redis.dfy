/**
 The shared state in Redis (src/redis.rs) as a value, and every command, script and transaction on
 it as one function. Times are in milliseconds; the timestamps stored in records are in seconds, as
 in the source. A key past its expiry may still be in the map, but no command sees it.
 */
module Redis {
  import opened Wrappers
  import opened Accounts

  const ACCOUNT_STATE_RETENTION_SECS: nat := 90 * 24 * 60 * 60
  const NOTIFICATION_CLAIM_SECS: nat := 10 * 60
  const U32_MAX: nat := 0xffff_ffff

  datatype JobStatus =
    | Processing
    | NotificationPending
    | NotSpam
    | Spam
    | Undetermined
    | Failed
    | ConfirmedSpam
    | FalsePositive
    | Suspended
    | Deleted
    | Unavailable
  {
    predicate IsCompleted() {
      match this
      case Processing => false
      case NotificationPending => false
      case Failed => false
      case other => true
    }

    /** Jobs with no retry or notification owed expire; the others stay until resolved. */
    predicate Expires() {
      IsCompleted() || Processing?
    }
  }

  datatype Verdict = Verdict(spam: bool, reason: string, confidence: real)

  datatype Job = Job(
    status: JobStatus,
    attempts: nat,
    updatedAt: nat,
    verdict: Option<Verdict>,
    notified: bool,
    hasError: bool,
    campaign: seq<AccountId>)

  datatype StoredJob = StoredJob(job: Job, expiry: Option<nat>)

  /** A claim token: the process that made it, and the second it was made in. */
  datatype ClaimToken = ClaimToken(process: nat, second: nat)

  datatype Claim = Claim(token: ClaimToken, expiry: nat)

  datatype State = State(
    jobs: map<AccountId, StoredJob>,
    failed: set<AccountId>,
    pending: set<AccountId>,
    feedback: map<AccountId, JobStatus>,
    claims: map<AccountId, Claim>,
    cursor: Option<AccountId>)

  const EMPTY := State(map[], {}, {}, map[], map[], None)

  function Seconds(now: nat): nat {
    now / 1_000
  }

  // ---------------------------------------------------------------------------------------------
  // Reads

  predicate Live(stored: StoredJob, now: nat) {
    stored.expiry.Some? ==> now < stored.expiry.value
  }

  function GetJob(r: State, now: nat, id: AccountId): Option<Job> {
    if id in r.jobs && Live(r.jobs[id], now) then Some(r.jobs[id].job) else None
  }

  predicate Claimed(r: State, now: nat, id: AccountId) {
    id in r.claims && now < r.claims[id].expiry
  }

  function FeedbackStatus(r: State, id: AccountId): Option<JobStatus> {
    if id in r.feedback then Some(r.feedback[id]) else None
  }

  predicate IsTerminalFeedback(status: Option<JobStatus>) {
    status == Some(FalsePositive) || status == Some(ConfirmedSpam)
  }

  predicate HasTerminalFeedback(r: State, id: AccountId) {
    IsTerminalFeedback(FeedbackStatus(r, id))
  }

  predicate IsCompletedJob(job: Option<Job>) {
    job.Some? && job.value.status.IsCompleted()
  }

  // ---------------------------------------------------------------------------------------------
  // Records

  /** `begin_job`: a fresh Processing record that counts the attempt. */
  function BeginRecord(previous: Option<Job>, now: nat): Job {
    var attempts := if previous.None? then 1
                    else if previous.value.attempts >= U32_MAX then U32_MAX else previous.value.attempts + 1;
    Job(Processing, attempts, Seconds(now), None, false, false, [])
  }

  /** `complete_job`. */
  function CompletedRecord(job: Job, status: JobStatus, verdict: Option<Verdict>, notified: bool, campaign: seq<AccountId>, now: nat): Job {
    Job(status, job.attempts, Seconds(now), verdict, notified, false, campaign)
  }

  /** `record_classification`. */
  function ClassifiedRecord(job: Job, status: JobStatus, verdict: Verdict, campaign: seq<AccountId>, now: nat): Job {
    job.(status := status, updatedAt := Seconds(now), verdict := Some(verdict), hasError := false, campaign := campaign)
  }

  /** `record_classification` as the checks use it. */
  function PendingRecord(job: Job, verdict: Verdict, campaign: seq<AccountId>, now: nat): Job {
    ClassifiedRecord(job, NotificationPending, verdict, campaign, now)
  }

  /** `fail_job`: keeps the verdict and campaign that are stored by now. */
  function FailedRecord(job: Job, current: Option<Job>, now: nat): Job {
    var kept := if current.Some? then job.(verdict := current.value.verdict, campaign := current.value.campaign) else job;
    kept.(status := Failed, updatedAt := Seconds(now), hasError := true)
  }

  /** `mark_unavailable`. */
  function UnavailableRecord(job: Job, now: nat): Job {
    job.(status := Unavailable, updatedAt := Seconds(now), hasError := true)
  }

  // ---------------------------------------------------------------------------------------------
  // Writes

  function Store(job: Job, now: nat): StoredJob {
    StoredJob(job, if job.status.Expires() then Some(now + ACCOUNT_STATE_RETENTION_SECS * 1_000) else None)
  }

  /** `set_job` alone, as `save_job` sends it. */
  function SetJob(r: State, now: nat, id: AccountId, job: Job): State {
    r.(jobs := r.jobs[id := Store(job, now)])
  }

  datatype Retry = Queue | Clear

  /** `write_job`: the record and both queues in one transaction. */
  function WriteJob(r: State, now: nat, id: AccountId, job: Job, retry: Retry): State {
    SetJob(r, now, id, job).(
      failed := if retry.Queue? then r.failed + {id} else r.failed - {id},
      pending := r.pending - {id})
  }

  /** The transaction of `record_classification`. */
  function WriteClassification(r: State, now: nat, id: AccountId, job: Job): State {
    SetJob(r, now, id, job).(pending := if job.status.NotificationPending? then r.pending + {id} else r.pending)
  }

  /** `remove_failed`. */
  function RemoveFailed(r: State, id: AccountId): State {
    r.(failed := r.failed - {id}, pending := r.pending - {id})
  }

  datatype FeedbackReply = NoStoredJob | DeliveryInProgress | Recorded(previous: Option<JobStatus>)

  /** The `record_feedback` script. */
  function RecordFeedback(r: State, now: nat, id: AccountId, status: JobStatus): (State, FeedbackReply) {
    if GetJob(r, now, id).None? && id !in r.feedback then (r, NoStoredJob)
    else if Claimed(r, now, id) then (r, DeliveryInProgress)
    else (RemoveFailed(r.(feedback := r.feedback[id := status]), id), Recorded(FeedbackStatus(r, id)))
  }

  /** The `claim_notification` script. */
  function ClaimNotification(r: State, now: nat, id: AccountId, token: ClaimToken): (State, bool) {
    if id in r.feedback || Claimed(r, now, id) then (r, false)
    else (r.(claims := r.claims[id := Claim(token, now + NOTIFICATION_CLAIM_SECS * 1_000)]), true)
  }

  /** The `release_notification_claim` script. */
  function ReleaseClaim(r: State, now: nat, id: AccountId, token: ClaimToken): State {
    if Claimed(r, now, id) && r.claims[id].token == token then r.(claims := r.claims - {id}) else r
  }

  /** A release frees the account for feedback and for the next claim exactly when the claim is its own or none stands. */
  lemma ReleaseFreesTheAccount(r: State, now: nat, id: AccountId, token: ClaimToken)
    ensures var r' := ReleaseClaim(r, now, id, token);
            && (Claimed(r', now, id) <==> Claimed(r, now, id) && r.claims[id].token != token)
            && r' == r.(claims := r'.claims)
            && (forall other :: other != id || (id in r.claims && r.claims[id].token != token) ==>
                  (other in r'.claims <==> other in r.claims) && (other in r.claims ==> r'.claims[other] == r.claims[other]))
            && (!Claimed(r', now, id) && id !in r.feedback ==> ClaimNotification(r', now, id, token).1)
            && (!Claimed(r', now, id) && GetJob(r, now, id).Some? ==> RecordFeedback(r', now, id, FalsePositive).1.Recorded?)
  {
  }

  /** The `set_cursor` script; `Ids.ScriptGuardIsNumericOrder` relates it to the text it compares. */
  function SetCursor(r: State, id: AccountId): State {
    if r.cursor.None? || id > r.cursor.value then r.(cursor := Some(id)) else r
  }

  // ---------------------------------------------------------------------------------------------
  // Retention migration

  /** `remaining_job_ttl`: seconds left by the stored update time, or `None` when the job stays. */
  function RemainingJobTtl(job: Job, nowSecs: nat): Option<nat> {
    if !job.status.Expires() then None
    else
      var age := if nowSecs < job.updatedAt then 0 else nowSecs - job.updatedAt;
      Some(if age > ACCOUNT_STATE_RETENTION_SECS then 0 else ACCOUNT_STATE_RETENTION_SECS - age)
  }

  /** The command a migration pass sends for a job with that much time left. */
  function ApplyTtl(r: State, now: nat, id: AccountId, ttl: Option<nat>): State {
    match ttl
    case None => r
    case Some(seconds) =>
      if seconds == 0 then r.(jobs := r.jobs - {id})
      else if id in r.jobs && Live(r.jobs[id], now)
      then r.(jobs := r.jobs[id := r.jobs[id].(expiry := Some(now + seconds * 1_000))])
      else r
  }
}
