/**
 One account's check (src/check.rs, `check_one` and the functions it calls), as a sequence of steps.
 Every Redis command is its own step and every read is separate from the write that follows it, so
 that anything else may happen in between. A write may take effect and be answered, take effect
 with the answer lost, or not take effect at all.
 */
module Worker {
  import opened Wrappers
  import opened Accounts
  import opened Redis

  /** What started the run; the kinds differ in whether they notify and resend. */
  datatype RunKind = PeriodicCheck | RetryFailed | Backfill(notify: bool) {
    predicate Notifies() {
      match this
      case PeriodicCheck => true
      case RetryFailed => true
      case Backfill(notify) => notify
    }

    predicate RetriesPending() {
      RetryFailed?
    }
  }

  /** A verdict under way, with what its record needs. */
  datatype Report = Report(job: Job, verdict: Verdict, campaign: seq<AccountId>, resend: bool)

  datatype Phase =
    | Start
    | ReadFeedback
    | ReadRecord
    | BeginRead
    | BeginWrite(job: Job)
    | Judge(job: Job)
    | ClassifyRead(report: Report)
    | ClassifyWrite(report: Report, current: Job)
    | Claiming(report: Report)
    | HoldsClaim(report: Report, token: ClaimToken, claimedAt: nat)
    | Sending(report: Report, token: ClaimToken, claimedAt: nat, since: nat)
    | ReleasingClaim(report: Report, token: ClaimToken, sent: bool)
    | CheckSuppressed(report: Report)
    | Completing(job: Job, status: JobStatus, verdict: Option<Verdict>, notified: bool, campaign: seq<AccountId>)
    | FailRead(job: Job)
    | FailWrite(job: Job, stored: Option<Job>)
    | Done(ok: bool)

  /** How a Redis command went. */
  datatype Reply = Answered | ReplyLost | NotSent

  datatype Input =
    | Begin
    | Command(reply: Reply)
    | Broken
    | Unusable(campaign: seq<AccountId>)
    | Judged(verdict: Verdict, campaign: seq<AccountId>)
    | SendBegins
    | SendEnds(delivered: bool)

  /** A write: the state it leaves, and the phase after an answer or after an error. */
  function Write(r: State, written: State, reply: Reply, done: Phase, failed: Phase): (State, Phase) {
    match reply
    case Answered => (written, done)
    case ReplyLost => (written, failed)
    case NotSent => (r, failed)
  }

  /** The next state of Redis and of the check, or `None` when the input does not fit the phase. */
  function Step(r: State, now: nat, kind: RunKind, process: nat, account: Account, phase: Phase, input: Input): Option<(State, Phase)> {
    var id := account.id;
    match phase
    case Start =>
      if input != Begin then None
      else Some((r, if IsSystemAccount(account) then Done(true) else ReadFeedback))
    case ReadFeedback =>
      if !input.Command? then None
      else if !input.reply.Answered? then Some((r, Done(false)))
      else Some((r, if HasTerminalFeedback(r, id) then Done(true) else ReadRecord))
    case ReadRecord =>
      if !input.Command? then None
      else if !input.reply.Answered? then Some((r, Done(false)))
      else Some((r, AfterRecord(GetJob(r, now, id), kind)))
    case BeginRead =>
      if !input.Command? then None
      else if !input.reply.Answered? then Some((r, Done(false)))
      else Some((r, BeginWrite(BeginRecord(GetJob(r, now, id), now))))
    case BeginWrite(job) =>
      if !input.Command? then None
      else Some(Write(r, SetJob(r, now, id, job), input.reply, Judge(job), Done(false)))
    case Judge(job) =>
      AfterJudgement(r, kind, job, input)
    case ClassifyRead(report) =>
      if !input.Command? then None
      else
        var current := GetJob(r, now, id);
        if input.reply.Answered? && current.Some? then Some((r, ClassifyWrite(report, current.value)))
        else Some((r, FailRead(report.job)))
    case ClassifyWrite(report, current) =>
      if !input.Command? then None
      else
        var record := PendingRecord(current, report.verdict, report.campaign, now);
        Some(Write(r, WriteClassification(r, now, id, record), input.reply, Claiming(report), FailRead(report.job)))
    case Claiming(report) =>
      if !input.Command? then None
      else
        var token := ClaimToken(process, Seconds(now));
        var (claimed, granted) := ClaimNotification(r, now, id, token);
        Some(Write(r, claimed, input.reply,
                   if granted then HoldsClaim(report, token, now) else CheckSuppressed(report),
                   FailRead(report.job)))
    case HoldsClaim(report, token, claimedAt) =>
      if input != SendBegins then None else Some((r, Sending(report, token, claimedAt, now)))
    case Sending(report, token, _, _) =>
      if !input.SendEnds? then None else Some((r, ReleasingClaim(report, token, input.delivered)))
    case ReleasingClaim(report, token, sent) =>
      if !input.Command? then None
      else
        // A failed release is only logged.
        var next := if sent then Completing(report.job, Spam, Some(report.verdict), true, report.campaign) else FailRead(report.job);
        Some(Write(r, ReleaseClaim(r, now, id, token), input.reply, next, next))
    case CheckSuppressed(report) =>
      if !input.Command? then None
      else if input.reply.Answered? && HasTerminalFeedback(r, id)
      then Some((r, Completing(report.job, Spam, Some(report.verdict), false, report.campaign)))
      else Some((r, FailRead(report.job)))
    case Completing(job, status, verdict, notified, campaign) =>
      if !input.Command? then None
      else
        var record := CompletedRecord(job, status, verdict, notified, campaign, now);
        Some(Write(r, WriteJob(r, now, id, record, Clear), input.reply, Done(true), Done(false)))
    case FailRead(job) =>
      if !input.Command? then None
      else if !input.reply.Answered? then Some((r, Done(false)))
      else Some((r, FailWrite(job, GetJob(r, now, id))))
    case FailWrite(job, stored) =>
      if !input.Command? then None
      else Some(Write(r, WriteJob(r, now, id, FailedRecord(job, stored, now), Queue), input.reply, Done(false), Done(false)))
    case Done(_) => None
  }

  /** What the stored record makes of the check. */
  function AfterRecord(job: Option<Job>, kind: RunKind): Phase {
    if job.None? then BeginRead
    else if job.value.status.NotificationPending? then
      if !kind.RetriesPending() then Done(true)
      else if job.value.verdict.None? then Done(false)
      else Claiming(Report(job.value, job.value.verdict.value, job.value.campaign, true))
    else if job.value.status.IsCompleted() then Done(true)
    else BeginRead
  }

  /** What the posts, the campaign lookup and the verdict make of the check. */
  function AfterJudgement(r: State, kind: RunKind, job: Job, input: Input): Option<(State, Phase)> {
    match input
    case Broken => Some((r, FailRead(job)))
    case Unusable(campaign) => Some((r, Completing(job, Undetermined, None, false, campaign)))
    case Judged(verdict, campaign) =>
      if !verdict.spam then Some((r, Completing(job, NotSpam, Some(verdict), false, campaign)))
      else if kind.Notifies() then Some((r, ClassifyRead(Report(job, verdict, campaign, false))))
      else Some((r, Completing(job, Spam, Some(verdict), false, campaign)))
    case other => None
  }
}
