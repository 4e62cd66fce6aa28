/**
 What holds of one account in every reachable state, and how each step on that account keeps it:
 the agreement of its record with the queues, the exclusion of claims and feedback, the truth of
 its record, and what a check under way may rely on.
 */
module AccountInvariants {
  import opened Wrappers
  import opened Accounts
  import opened Redis
  import opened System
  import W = Worker

  /** The record itself, its expiry, and the account's place in the queues. */
  ghost predicate JobInv(r: Redis.State, now: nat, h: History, id: AccountId, stored: StoredJob) {
    var job := stored.job;
    && job.updatedAt * 1_000 <= now
    && (if job.status.Expires()
        then stored.expiry.Some? && stored.expiry.value >= (job.updatedAt + ACCOUNT_STATE_RETENTION_SECS) * 1_000
        else stored.expiry.None?)
    && (job.status.IsCompleted() ==> id !in r.failed && id !in r.pending)
    && (job.status.Failed? ==> id in r.failed || id in r.feedback)
    && (job.status.NotificationPending? ==>
          (id in r.pending || id in r.feedback) && job.verdict.Some? && job.verdict.value.spam)
    && (job.status.Spam? ==> SpamIsTruthful(r, h, id, job.notified, job.verdict))
  }

  /** A spam verdict and whether it is called notified: delivered as it is, silent as it is, or overtaken by feedback. */
  ghost predicate SpamIsTruthful(r: Redis.State, h: History, id: AccountId, notified: bool, verdict: Option<Verdict>) {
    && verdict.Some? && verdict.value.spam
    && if notified then (id, verdict.value) in h.delivered
       else (id, verdict.value) in h.silent || id in r.feedback
  }

  ghost predicate AcctInv(r: Redis.State, now: nat, h: History, id: AccountId) {
    && (id in r.feedback ==> IsTerminalFeedback(Some(r.feedback[id])))
    && (Claimed(r, now, id) ==> id !in r.feedback)
    && (Settles(r, id) ==> id in h.settled)
    && (id in r.jobs ==> JobInv(r, now, h, id, r.jobs[id]))
  }

  /** The account has no completed record that a command would still see. */
  ghost predicate NotCompleted(r: Redis.State, now: nat, id: AccountId) {
    !IsCompletedJob(GetJob(r, now, id))
  }

  ghost predicate HasClaim(r: Redis.State, id: AccountId, token: ClaimToken, claimedAt: nat) {
    id in r.claims && r.claims[id] == Claim(token, claimedAt + NOTIFICATION_CLAIM_SECS * 1_000)
  }

  ghost predicate SettledOrSystem(h: History, account: Account) {
    IsSystemAccount(account) || account.id in h.settled
  }

  /** A check that may still write its account's record. */
  predicate Owns(phase: W.Phase) {
    !phase.Start? && !phase.ReadFeedback? && !phase.ReadRecord? && !phase.Done?
  }

  ghost predicate ReportInv(kind: W.RunKind, report: W.Report) {
    report.verdict.spam && kind != W.Backfill(false) && (report.resend ==> kind.RetryFailed?)
  }

  /** The record says that a notification of the verdict is owed. */
  ghost predicate Owed(r: Redis.State, id: AccountId, verdict: Verdict) {
    id in r.jobs && r.jobs[id].job.status.NotificationPending? && r.jobs[id].job.verdict == Some(verdict)
  }

  /** What a check under way relies on. */
  ghost predicate CheckInv(r: Redis.State, now: nat, h: History, kind: W.RunKind, account: Account, phase: W.Phase) {
    var id := account.id;
    && (Owns(phase) ==> NotCompleted(r, now, id))
    && match phase
       case Start => true
       case ReadFeedback => true
       case ReadRecord => true
       case BeginRead => true
       case BeginWrite(job) => job.status.Processing? && job.updatedAt * 1_000 <= now
       case Judge(_) => true
       case ClassifyRead(report) => ReportInv(kind, report)
       case ClassifyWrite(report, _) => ReportInv(kind, report)
       case Claiming(report) => ReportInv(kind, report) && Owed(r, id, report.verdict)
       case HoldsClaim(report, token, claimedAt) =>
         ReportInv(kind, report) && Owed(r, id, report.verdict) && HasClaim(r, id, token, claimedAt) && MayWaitUntil(phase, now, CLAIM_REPLY_MAX)
       case Sending(report, token, claimedAt, since) =>
         && ReportInv(kind, report) && Owed(r, id, report.verdict) && HasClaim(r, id, token, claimedAt) && MayWaitUntil(phase, now, CLAIM_REPLY_MAX)
         && since <= claimedAt + CLAIM_REPLY_MAX
       case ReleasingClaim(report, token, sent) =>
         && ReportInv(kind, report) && Owed(r, id, report.verdict) && (sent ==> (id, report.verdict) in h.delivered)
         && (Claimed(r, now, id) ==> r.claims[id].token == token)
       case CheckSuppressed(report) => ReportInv(kind, report) && Owed(r, id, report.verdict)
       case Completing(_, status, verdict, notified, _) =>
         && (status.Spam? || status.NotSpam? || status.Undetermined?)
         && (status.Spam? ==> verdict.Some? && verdict.value.spam)
         && (status.Spam? && notified ==> (id, verdict.value) in h.delivered && kind != W.Backfill(false))
         && (status.Spam? && !notified ==> kind == W.Backfill(false) || id in r.feedback)
       case FailRead(_) => true
       case FailWrite(_, _) => true
       case Done(ok) => ok ==> SettledOrSystem(h, account)
  }

  // ---------------------------------------------------------------------------------------------
  // Framing

  /** Two states of Redis agree about an account. */
  ghost predicate SameAt(r: Redis.State, r': Redis.State, id: AccountId) {
    && (id in r.jobs <==> id in r'.jobs) && (id in r.jobs ==> r.jobs[id] == r'.jobs[id])
    && (id in r.failed <==> id in r'.failed)
    && (id in r.pending <==> id in r'.pending)
    && (id in r.feedback <==> id in r'.feedback) && (id in r.feedback ==> r.feedback[id] == r'.feedback[id])
    && (id in r.claims <==> id in r'.claims) && (id in r.claims ==> r.claims[id] == r'.claims[id])
  }

  ghost predicate Grows(h: History, h': History) {
    && h.delivered <= h'.delivered
    && h.silent <= h'.silent
    && h.settled <= h'.settled
  }

  lemma AcctFrame(r: Redis.State, r': Redis.State, now: nat, h: History, h': History, id: AccountId)
    requires AcctInv(r, now, h, id) && SameAt(r, r', id) && Grows(h, h')
    ensures AcctInv(r', now, h', id)
  {
  }

  lemma CheckFrame(r: Redis.State, r': Redis.State, now: nat, h: History, h': History, kind: W.RunKind, account: Account, phase: W.Phase)
    requires CheckInv(r, now, h, kind, account, phase) && SameAt(r, r', account.id) && Grows(h, h')
    ensures CheckInv(r', now, h', kind, account, phase)
  {
  }

  lemma AcctLater(r: Redis.State, now: nat, later: nat, h: History, id: AccountId)
    requires AcctInv(r, now, h, id) && now <= later
    ensures AcctInv(r, later, h, id)
  {
  }

  lemma CheckLater(r: Redis.State, now: nat, later: nat, h: History, kind: W.RunKind, account: Account, phase: W.Phase)
    requires CheckInv(r, now, h, kind, account, phase) && now <= later && MayWaitUntil(phase, later, CLAIM_REPLY_MAX)
    ensures CheckInv(r, later, h, kind, account, phase)
  {
  }

  // ---------------------------------------------------------------------------------------------
  // The steps of a check

  /** A check touches nothing but its own account. */
  lemma CheckTouchesOnlyItsAccount(r: Redis.State, now: nat, kind: W.RunKind, process: nat, account: Account, phase: W.Phase, input: W.Input, other: AccountId)
    requires W.Step(r, now, kind, process, account, phase, input).Some? && other != account.id
    ensures var r' := W.Step(r, now, kind, process, account, phase, input).value.0;
            SameAt(r, r', other) && r'.cursor == r.cursor && r'.feedback == r.feedback
  {
    StepWritesOrNot(r, now, kind, process, account, phase, input);
    var r' := Written(r, now, process, account.id, phase);
    assert SameAt(r, r', other) && r'.cursor == r.cursor && r'.feedback == r.feedback;
  }

  /** The claim a sender holds outlives its delivery, and keeps feedback out. */
  lemma SenderExcludesFeedback(r: Redis.State, now: nat, h: History, kind: W.RunKind, account: Account, phase: W.Phase)
    requires AcctInv(r, now, h, account.id) && CheckInv(r, now, h, kind, account, phase)
    requires phase.HoldsClaim? || phase.Sending?
    ensures Claimed(r, now, account.id) && account.id !in r.feedback
  {
  }

  /** The history after a check's step. */
  function HistoryAfter(h: History, r': Redis.State, kind: W.RunKind, id: AccountId, phase: W.Phase, input: W.Input): History {
    NoteSettled(NoteCheck(h, kind, id, phase, input), r', id)
  }

  lemma CheckHistoryGrows(h: History, r': Redis.State, kind: W.RunKind, id: AccountId, phase: W.Phase, input: W.Input)
    ensures Grows(h, HistoryAfter(h, r', kind, id, phase, input))
  {
  }

  /** Every record a check or a retry run writes keeps its account's agreement. */
  lemma WriteKeepsAcct(r: Redis.State, now: nat, h: History, id: AccountId, job: Job, retry: Retry)
    requires AcctInv(r, now, h, id)
    requires job.updatedAt * 1_000 <= now
    requires if retry.Queue? then job.status.Failed? else job.status.IsCompleted()
    requires job.status.Spam? ==> SpamIsTruthful(r, h, id, job.notified, job.verdict)
    ensures var r' := WriteJob(r, now, id, job, retry);
            AcctInv(r', now, NoteSettled(h, r', id), id)
  {
  }

  lemma ProcessingKeepsAcct(r: Redis.State, now: nat, h: History, id: AccountId, job: Job)
    requires AcctInv(r, now, h, id)
    requires job.status.Processing? && job.updatedAt * 1_000 <= now
    ensures var r' := SetJob(r, now, id, job);
            AcctInv(r', now, NoteSettled(h, r', id), id)
  {
  }

  lemma PendingKeepsAcct(r: Redis.State, now: nat, h: History, id: AccountId, job: Job)
    requires AcctInv(r, now, h, id)
    requires job.status.NotificationPending? && job.updatedAt * 1_000 <= now
    requires job.verdict.Some? && job.verdict.value.spam
    ensures var r' := WriteClassification(r, now, id, job);
            AcctInv(r', now, NoteSettled(h, r', id), id)
  {
  }

  lemma ClaimKeepsAcct(r: Redis.State, now: nat, h: History, id: AccountId, token: ClaimToken)
    requires AcctInv(r, now, h, id)
    ensures var (claimed, released) := (ClaimNotification(r, now, id, token).0, ReleaseClaim(r, now, id, token));
            AcctInv(claimed, now, NoteSettled(h, claimed, id), id) && AcctInv(released, now, NoteSettled(h, released, id), id)
  {
  }

  lemma NothingWrittenKeepsAcct(r: Redis.State, now: nat, h: History, h': History, id: AccountId)
    requires AcctInv(r, now, h, id) && Grows(h, h')
    ensures AcctInv(r, now, NoteSettled(h', r, id), id)
  {
  }

  /** What the command a check is about to send would leave in Redis. */
  function Written(r: Redis.State, now: nat, process: nat, id: AccountId, phase: W.Phase): Redis.State {
    match phase
    case BeginWrite(job) => SetJob(r, now, id, job)
    case ClassifyWrite(report, current) => WriteClassification(r, now, id, PendingRecord(current, report.verdict, report.campaign, now))
    case Claiming(_) => ClaimNotification(r, now, id, ClaimToken(process, Seconds(now))).0
    case ReleasingClaim(_, token, _) => ReleaseClaim(r, now, id, token)
    case Completing(job, status, verdict, notified, campaign) =>
      WriteJob(r, now, id, CompletedRecord(job, status, verdict, notified, campaign, now), Clear)
    case FailWrite(job, stored) => WriteJob(r, now, id, FailedRecord(job, stored, now), Queue)
    case other => r
  }

  /** A step leaves Redis alone or applies the command of its phase, whatever the reply. */
  lemma StepWritesOrNot(r: Redis.State, now: nat, kind: W.RunKind, process: nat, account: Account, phase: W.Phase, input: W.Input)
    requires W.Step(r, now, kind, process, account, phase, input).Some?
    ensures var r' := W.Step(r, now, kind, process, account, phase, input).value.0;
            r' == r || r' == Written(r, now, process, account.id, phase)
  {
  }

  lemma WrittenKeepsAcct(r: Redis.State, now: nat, h: History, kind: W.RunKind, process: nat, account: Account, phase: W.Phase)
    requires AcctInv(r, now, h, account.id) && CheckInv(r, now, h, kind, account, phase)
    requires phase.Completing? && phase.status.Spam? && !phase.notified && kind == W.Backfill(false) ==>
               (account.id, phase.verdict.value) in h.silent
    ensures var r' := Written(r, now, process, account.id, phase);
            AcctInv(r', now, NoteSettled(h, r', account.id), account.id)
  {
    var id := account.id;
    match phase {
      case BeginWrite(job) => ProcessingKeepsAcct(r, now, h, id, job);
      case ClassifyWrite(report, current) => PendingKeepsAcct(r, now, h, id, PendingRecord(current, report.verdict, report.campaign, now));
      case Claiming(_) => ClaimKeepsAcct(r, now, h, id, ClaimToken(process, Seconds(now)));
      case ReleasingClaim(_, token, _) => ClaimKeepsAcct(r, now, h, id, token);
      case Completing(job, status, verdict, notified, campaign) =>
        WriteKeepsAcct(r, now, h, id, CompletedRecord(job, status, verdict, notified, campaign, now), Clear);
      case FailWrite(job, stored) => WriteKeepsAcct(r, now, h, id, FailedRecord(job, stored, now), Queue);
      case other =>
    }
  }

  /** A check's own step keeps the agreement of its account's record, queues, claim and feedback. */
  lemma CheckKeepsAcct(r: Redis.State, now: nat, h: History, kind: W.RunKind, process: nat, account: Account, phase: W.Phase, input: W.Input)
    requires AcctInv(r, now, h, account.id) && CheckInv(r, now, h, kind, account, phase)
    requires W.Step(r, now, kind, process, account, phase, input).Some?
    ensures var r' := W.Step(r, now, kind, process, account, phase, input).value.0;
            AcctInv(r', now, HistoryAfter(h, r', kind, account.id, phase, input), account.id)
  {
    var noted := NoteCheck(h, kind, account.id, phase, input);
    CheckHistoryGrows(h, r, kind, account.id, phase, input);
    assert Grows(h, noted);
    AcctFrame(r, r, now, h, noted, account.id);
    CheckFrame(r, r, now, h, noted, kind, account, phase);
    StepWritesOrNot(r, now, kind, process, account, phase, input);
    NothingWrittenKeepsAcct(r, now, h, noted, account.id);
    WrittenKeepsAcct(r, now, noted, kind, process, account, phase);
  }

  /** The phases in which a notification is owed and may be under way. */
  predicate Notifying(phase: W.Phase) {
    phase.Claiming? || phase.HoldsClaim? || phase.Sending? || phase.ReleasingClaim? || phase.CheckSuppressed?
  }

  lemma NotifyingKeepsCheck(r: Redis.State, now: nat, h: History, kind: W.RunKind, process: nat, account: Account, phase: W.Phase, input: W.Input)
    requires Notifying(phase)
    requires AcctInv(r, now, h, account.id) && CheckInv(r, now, h, kind, account, phase)
    requires W.Step(r, now, kind, process, account, phase, input).Some?
    ensures var (r', after) := W.Step(r, now, kind, process, account, phase, input).value;
            CheckInv(r', now, HistoryAfter(h, r', kind, account.id, phase, input), kind, account, after)
  {
  }

  lemma ReadingKeepsCheck(r: Redis.State, now: nat, h: History, kind: W.RunKind, process: nat, account: Account, phase: W.Phase, input: W.Input)
    requires !Owns(phase)
    requires AcctInv(r, now, h, account.id) && CheckInv(r, now, h, kind, account, phase)
    requires W.Step(r, now, kind, process, account, phase, input).Some?
    ensures var (r', after) := W.Step(r, now, kind, process, account, phase, input).value;
            CheckInv(r', now, HistoryAfter(h, r', kind, account.id, phase, input), kind, account, after)
  {
  }

  lemma WritingKeepsCheck(r: Redis.State, now: nat, h: History, kind: W.RunKind, process: nat, account: Account, phase: W.Phase, input: W.Input)
    requires Owns(phase) && !Notifying(phase)
    requires AcctInv(r, now, h, account.id) && CheckInv(r, now, h, kind, account, phase)
    requires W.Step(r, now, kind, process, account, phase, input).Some?
    ensures var (r', after) := W.Step(r, now, kind, process, account, phase, input).value;
            CheckInv(r', now, HistoryAfter(h, r', kind, account.id, phase, input), kind, account, after)
  {
  }

  /** A check's own step leads to a phase whose reliances hold. */
  lemma CheckKeepsCheck(r: Redis.State, now: nat, h: History, kind: W.RunKind, process: nat, account: Account, phase: W.Phase, input: W.Input)
    requires AcctInv(r, now, h, account.id) && CheckInv(r, now, h, kind, account, phase)
    requires W.Step(r, now, kind, process, account, phase, input).Some?
    ensures var (r', after) := W.Step(r, now, kind, process, account, phase, input).value;
            CheckInv(r', now, HistoryAfter(h, r', kind, account.id, phase, input), kind, account, after)
  {
    if Notifying(phase) {
      NotifyingKeepsCheck(r, now, h, kind, process, account, phase, input);
    } else if Owns(phase) {
      WritingKeepsCheck(r, now, h, kind, process, account, phase, input);
    } else {
      ReadingKeepsCheck(r, now, h, kind, process, account, phase, input);
    }
  }

  // ---------------------------------------------------------------------------------------------
  // The steps of others on an account

  /** Nothing queued stands on this account: it is decided by a moderator or its record expires. */
  ghost predicate Dead(r: Redis.State, id: AccountId) {
    id in r.feedback || (id in r.jobs ==> r.jobs[id].job.status.Expires())
  }

  /** Dead, and no longer queued unless a moderator has decided. */
  ghost predicate Dismissed(r: Redis.State, id: AccountId) {
    Dead(r, id) && (id in r.feedback || (id !in r.failed && id !in r.pending))
  }

  lemma RemovalKeepsAcct(r: Redis.State, now: nat, h: History, id: AccountId)
    requires AcctInv(r, now, h, id) && Dead(r, id)
    ensures AcctInv(RemoveFailed(r, id), now, h, id)
  {
  }

  lemma FeedbackKeepsAcct(r: Redis.State, now: nat, h: History, id: AccountId, status: JobStatus)
    requires AcctInv(r, now, h, id) && IsTerminalFeedback(Some(status))
    ensures var r' := RecordFeedback(r, now, id, status).0;
            AcctInv(r', now, NoteSettled(h, r', id), id)
  {
  }

  /** Feedback leaves a check under way everything it relies on: no sender is at work then. */
  lemma FeedbackKeepsCheck(r: Redis.State, now: nat, h: History, kind: W.RunKind, account: Account, phase: W.Phase, status: JobStatus)
    requires CheckInv(r, now, h, kind, account, phase)
    ensures var r' := RecordFeedback(r, now, account.id, status).0;
            CheckInv(r', now, NoteSettled(h, r', account.id), kind, account, phase)
  {
  }

  /** A migration pass gives a job no less than its full retention, and none to one that must stay. */
  lemma MigrationKeepsAcct(r: Redis.State, now: nat, h: History, id: AccountId, startSecs: nat, ttl: Option<nat>)
    requires AcctInv(r, now, h, id) && startSecs * 1_000 <= now
    requires GetJob(r, now, id).Some? ==> ttl == RemainingJobTtl(GetJob(r, now, id).value, startSecs)
    ensures var r' := ApplyTtl(r, now, id, ttl);
            AcctInv(r', now, NoteSettled(h, r', id), id)
  {
    if id in r.jobs && Live(r.jobs[id], now) {
      var job := r.jobs[id].job;
      assert GetJob(r, now, id) == Some(job);
    }
  }

  /** A migration pass leaves a visible record as it is until its retention has ended. */
  lemma MigrationKeepsRecord(r: Redis.State, now: nat, id: AccountId, migrated: AccountId, startSecs: nat, ttl: Option<nat>)
    requires GetJob(r, now, id).Some? && startSecs * 1_000 <= now
    requires id == migrated ==> ttl == RemainingJobTtl(GetJob(r, now, id).value, startSecs)
    requires now < (GetJob(r, now, id).value.updatedAt + ACCOUNT_STATE_RETENTION_SECS) * 1_000 || !GetJob(r, now, id).value.status.Expires()
    ensures GetJob(ApplyTtl(r, now, migrated, ttl), now, id) == GetJob(r, now, id)
  {
  }

  lemma UnavailableKeepsAcct(r: Redis.State, now: nat, h: History, id: AccountId, job: Job)
    requires AcctInv(r, now, h, id)
    ensures var r' := WriteJob(r, now, id, UnavailableRecord(job, now), Clear);
            AcctInv(r', now, NoteSettled(h, r', id), id)
  {
    WriteKeepsAcct(r, now, h, id, UnavailableRecord(job, now), Clear);
  }
}
