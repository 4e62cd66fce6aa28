/**
 A delivered notification is not sent again, except by a retry run, until its record may expire.
 */
module Notifications {
  import opened Wrappers
  import opened Accounts
  import opened Redis
  import opened System
  import opened AccountInvariants
  import opened SystemInvariants
  import opened Frames
  import opened SystemSteps
  import opened Safety
  import opened RetryQueue
  import W = Worker
  import Http

  predicate IsRetryRun(run: Option<Run>) {
    run.Some? && run.value.kind.RetryFailed?
  }

  /** The record keeps a delivery made at or after second `since` from being repeated. */
  predicate Remembers(job: Option<Job>, since: nat) {
    job.Some? && (job.value.status.NotificationPending? || (job.value.status.Spam? && job.value.updatedAt >= since))
  }

  /** A check of the account that will not send: it has sent, or, outside a retry run, will find the record. */
  predicate Quiet(phase: Option<W.Phase>, retry: bool) {
    phase.Some? ==>
      match phase.value
      case Start => !retry
      case ReadFeedback => !retry
      case ReadRecord => !retry
      case Done(_) => true
      case ReleasingClaim(_, _, sent) => sent
      case Completing(_, status, _, _, _) => status.Spam?
      case other => false
  }

  /** A retry run that goes on is past the account. */
  ghost predicate PastAccount(run: Option<Run>, id: AccountId) {
    IsRetryRun(run) ==> run.value.stage.Checking? && InPart(run.value.stage.accounts, 0, run.value.stage.end, id)
  }

  /** Nothing that may happen without a further retry run sends for the account again. */
  ghost predicate Sent(s: System.State, id: AccountId, since: nat) {
    && Remembers(GetJob(s.redis, s.now, id), since) && since <= Seconds(s.now)
    && Quiet(PhaseOf(s, id), IsRetryRun(s.run)) && PastAccount(s.run, id)
  }

  lemma QuietCheckStays(r: Redis.State, now: nat, kind: W.RunKind, process: nat, account: Account, phase: W.Phase, input: W.Input, since: nat)
    requires W.Step(r, now, kind, process, account, phase, input).Some?
    requires Remembers(GetJob(r, now, account.id), since) && Quiet(Some(phase), kind.RetryFailed?) && since <= Seconds(now)
    ensures var (r', after) := W.Step(r, now, kind, process, account, phase, input).value;
            Remembers(GetJob(r', now, account.id), since) && Quiet(Some(after), kind.RetryFailed?)
  {
  }

  lemma OwnCheckKeepsSent(s: System.State, id: AccountId, input: W.Input, since: nat)
    requires Inv(s) && Step(s, Check(id, input)).Some? && Sent(s, id, since)
    ensures Sent(Step(s, Check(id, input)).value, id, since)
  {
    var run, stage := s.run.value, s.run.value.stage;
    StepIsCheckStepped(s, id, input);
    QuietCheckStays(s.redis, s.now, run.kind, run.process, FindAccount(stage.accounts, id).value, stage.workers[id], input, since);
  }

  lemma OtherCheckKeepsSent(s: System.State, id: AccountId, event: Event, since: nat)
    requires Inv(s) && event.Check? && event.id != id && Step(s, event).Some? && Sent(s, id, since)
    ensures Sent(Step(s, event).value, id, since)
  {
    var run, stage := s.run.value, s.run.value.stage;
    CheckTouchesOnlyItsAccount(s.redis, s.now, run.kind, run.process, FindAccount(stage.accounts, event.id).value,
                               stage.workers[event.id], event.input, id);
  }

  /** Before its retention ends, time and the migration leave a record that remembers a delivery. */
  lemma TimeKeepsSent(s: System.State, id: AccountId, event: Event, since: nat)
    requires Inv(s) && (event.Tick? || event.MigrateApply?) && Step(s, event).Some? && Sent(s, id, since)
    requires Step(s, event).value.now < (since + ACCOUNT_STATE_RETENTION_SECS) * 1_000
    ensures Sent(Step(s, event).value, id, since)
  {
    assert AcctInv(s.redis, s.now, s.history, id);
    if event.Tick? {
      TimeKeepsRemembered(s.redis, s.now, Step(s, event).value.now, s.history, id, since);
    } else {
      PeriodicFrame(s, event);
      MigrationKeepsRemembered(s, id, event.id, since);
    }
  }

  lemma TimeKeepsRemembered(r: Redis.State, now: nat, later: nat, h: History, id: AccountId, since: nat)
    requires AcctInv(r, now, h, id) && Remembers(GetJob(r, now, id), since)
    requires now <= later < (since + ACCOUNT_STATE_RETENTION_SECS) * 1_000
    ensures Remembers(GetJob(r, later, id), since)
  {
  }

  lemma MigrationKeepsRemembered(s: System.State, id: AccountId, migrated: AccountId, since: nat)
    requires Inv(s) && Step(s, MigrateApply(migrated)).Some? && Remembers(GetJob(s.redis, s.now, id), since)
    requires s.now < (since + ACCOUNT_STATE_RETENTION_SECS) * 1_000
    ensures Remembers(GetJob(Step(s, MigrateApply(migrated)).value.redis, s.now, id), since)
  {
    var stage := s.run.value.stage;
    MigrationKeepsRecord(s.redis, s.now, id, migrated, stage.startSecs, stage.decided[migrated]);
  }

  /** An event of a click or of the environment. */
  predicate IsOutside(event: Event) {
    || event.Arrive? || event.StartRun? || event.CrashRun?
    || event.Click? || event.Handle? || event.DropGuard? || event.CrashServer?
  }

  lemma OutsideKeepsSent(s: System.State, id: AccountId, event: Event, since: nat)
    requires IsOutside(event) && Step(s, event).Some? && Sent(s, id, since)
    requires event.StartRun? ==> !event.kind.RetryFailed?
    ensures Sent(Step(s, event).value, id, since)
  {
    OtherStepsKeepJobs(s, event);
  }

  lemma EndChunkKeepsSent(s: System.State, id: AccountId, since: nat)
    requires Step(s, EndChunk).Some? && Sent(s, id, since)
    ensures Sent(Step(s, EndChunk).value, id, since)
  {
    EndChunkFrame(s, s.run.value);
  }

  lemma StartChunkKeepsSent(s: System.State, id: AccountId, since: nat)
    requires Inv(s) && Step(s, StartChunk).Some? && Sent(s, id, since)
    ensures Sent(Step(s, StartChunk).value, id, since)
  {
    if IsRetryRun(s.run) {
      NextChunkIsElsewhere(s, s.run.value, id);
    }
  }

  /** A run has distinct accounts, so the next chunk is about others than those before it. */
  lemma NextChunkIsElsewhere(s: System.State, run: Run, id: AccountId)
    requires Inv(s) && s.run == Some(run) && run.stage.Checking? && StepStartChunk(s, run).Some?
    requires InPart(run.stage.accounts, 0, run.stage.end, id)
    ensures var stage := StepStartChunk(s, run).value.run.value.stage;
            id !in stage.workers && InPart(stage.accounts, 0, stage.end, id)
  {
    var accounts, next := run.stage.accounts, run.stage.end;
    var upto := StepStartChunk(s, run).value.run.value.stage.end;
    var i :| 0 <= i < next && accounts[i].id == id;
    assert 0 <= i < upto && accounts[i].id == id;
    forall j | 0 <= j < |accounts[next..upto]| ensures accounts[next..upto][j].id != id {
      assert accounts[next..upto][j] == accounts[next + j];
    }
  }

  lemma PeriodicKeepsSent(s: System.State, id: AccountId, event: Event, since: nat)
    requires IsPeriodicEvent(event) && !event.MigrateApply? && Step(s, event).Some? && Sent(s, id, since)
    ensures Sent(Step(s, event).value, id, since)
  {
    PeriodicFrame(s, event);
  }

  /** Only a retry run walks the queue, and before its checks. */
  lemma RetryEventsComeBeforeChecks(s: System.State, event: Event)
    requires Inv(s) && IsRetryEvent(event) && Step(s, event).Some?
    ensures IsRetryRun(s.run) && !s.run.value.stage.Checking?
  {
  }

  lemma StepKeepsSent(s: System.State, id: AccountId, event: Event, since: nat)
    requires Inv(s) && Step(s, event).Some? && Sent(s, id, since)
    requires Step(s, event).value.now < (since + ACCOUNT_STATE_RETENTION_SECS) * 1_000
    requires event.StartRun? ==> !event.kind.RetryFailed?
    ensures Sent(Step(s, event).value, id, since)
  {
    if event.Check? {
      if event.id == id {
        OwnCheckKeepsSent(s, id, event.input, since);
      } else {
        OtherCheckKeepsSent(s, id, event, since);
      }
    } else if event.Tick? || event.MigrateApply? {
      TimeKeepsSent(s, id, event, since);
    } else if IsLeftoverEvent(event) {
      NothingLingers(s, event);
    } else if IsRetryEvent(event) {
      RetryEventsComeBeforeChecks(s, event);
    } else if IsOutside(event) {
      OutsideKeepsSent(s, id, event, since);
    } else if event.StartChunk? {
      StartChunkKeepsSent(s, id, since);
    } else if event.EndChunk? {
      EndChunkKeepsSent(s, id, since);
    } else {
      PeriodicKeepsSent(s, id, event, since);
    }
  }

  /** A successful delivery leaves the account sent. */
  lemma DeliveryIsSent(s: System.State, id: AccountId)
    requires Inv(s) && Step(s, Check(id, W.SendEnds(true))).Some?
    ensures Sent(Step(s, Check(id, W.SendEnds(true))).value, id, Seconds(s.now))
  {
    StepIsCheckStepped(s, id, W.SendEnds(true));
    SuccessIsSent(s, id, Step(s, Check(id, W.SendEnds(true))).value);
  }

  lemma SuccessIsSent(s: System.State, id: AccountId, s': System.State)
    requires Inv(s) && CheckStepped(s, id, W.SendEnds(true), s')
    ensures Sent(s', id, Seconds(s.now))
  {
    var run, stage := s.run.value, s.run.value.stage;
    var account, phase := FindAccount(stage.accounts, id).value, stage.workers[id];
    assert ChecksInv(s, run.kind, stage.accounts, stage.workers);
    SenderOwes(s.redis, s.now, s.history, run.kind, run.process, account, phase);
    assert AcctInv(s.redis, s.now, s.history, id);
    OwedIsRemembered(s.redis, s.now, s.history, id, phase.report.verdict, Seconds(s.now));
    CheckedIsInPart(s, run.kind, stage, id);
    SentAfter(s, id, s', phase.report, phase.token);
  }

  lemma SenderOwes(r: Redis.State, now: nat, h: History, kind: W.RunKind, process: nat, account: Account, phase: W.Phase)
    requires CheckInv(r, now, h, kind, account, phase)
    requires W.Step(r, now, kind, process, account, phase, W.SendEnds(true)).Some?
    ensures phase.Sending? && Owed(r, account.id, phase.report.verdict)
    ensures W.Step(r, now, kind, process, account, phase, W.SendEnds(true)) == Some((r, W.ReleasingClaim(phase.report, phase.token, true)))
  {
  }

  lemma SentAfter(s: System.State, id: AccountId, s': System.State, report: W.Report, token: ClaimToken)
    requires s.run.Some? && s.run.value.stage.Checking? && s'.redis == s.redis && s'.now == s.now
    requires Remembers(GetJob(s.redis, s.now, id), Seconds(s.now)) && InPart(s.run.value.stage.accounts, 0, s.run.value.stage.end, id)
    requires var run := s.run.value;
             s'.run == Some(run.(stage := run.stage.(workers := run.stage.workers[id := W.ReleasingClaim(report, token, true)])))
    ensures Sent(s', id, Seconds(s.now))
  {
  }

  lemma OwedIsRemembered(r: Redis.State, now: nat, h: History, id: AccountId, verdict: Verdict, since: nat)
    requires AcctInv(r, now, h, id) && Owed(r, id, verdict)
    ensures Remembers(GetJob(r, now, id), since)
  {
  }

  lemma CheckedIsInPart(s: System.State, kind: W.RunKind, stage: Stage, id: AccountId)
    requires stage.Checking? && StageInv(s, kind, stage) && id in stage.workers
    ensures InPart(stage.accounts, 0, stage.end, id)
  {
    var i :| stage.next <= i < stage.end && stage.accounts[i].id == id;
    assert 0 <= i < stage.end && stage.accounts[i].id == id;
  }

  ghost predicate NoRetryRunStarts(events: seq<Event>, from: nat) {
    forall m :: from <= m < |events| && events[m].StartRun? ==> !events[m].kind.RetryFailed?
  }

  lemma {:induction false} SentSinceDelivery(events: seq<Event>, n: nat, id: AccountId, since: nat)
    requires After(events).Some? && n < |events| && events[n] == Check(id, W.SendEnds(true))
    requires After(events[..n]).Some? && since == Seconds(After(events[..n]).value.now)
    requires NoRetryRunStarts(events, n)
    requires After(events).value.now < (since + ACCOUNT_STATE_RETENTION_SECS) * 1_000
    ensures Sent(After(events).value, id, since)
    decreases |events|
  {
    var before, last := events[..|events| - 1], |events| - 1;
    LastStep(events);
    if n == last {
      DeliveryIsSent(After(before).value, id);
    } else {
      assert before[..n] == events[..n];
      TimeGoesOn(After(before).value, events[last]);
      SentSinceDelivery(before, n, id, since);
      StepKeepsSent(After(before).value, id, events[last], since);
    }
  }

  /**
   No second notification: after a delivery, and until its record may expire, no delivery for the
   account begins or ends unless a retry run has been started since. Crashes and lost replies make no
   difference.
   */
  lemma {:induction false} NoSecondNotification(events: seq<Event>, n: nat, id: AccountId)
    requires After(events).Some? && n < |events| && events[n] == Check(id, W.SendEnds(true))
    requires After(events[..n]).Some?
    requires NoRetryRunStarts(events, n)
    requires After(events).value.now < (Seconds(After(events[..n]).value.now) + ACCOUNT_STATE_RETENTION_SECS) * 1_000
    ensures !Delivering(PhaseOf(After(events).value, id))
  {
    SentSinceDelivery(events, n, id, Seconds(After(events[..n]).value.now));
  }

  // ---------------------------------------------------------------------------------------------
  // The claim outlasts the delivery

  /**
   A granted claim covers every delivery the retry loop allows exactly when its reply arrives within
   `CLAIM_REPLY_MAX`; a later reply leaves a delivery that feedback can overtake.
   */
  lemma ClaimCoversDeliveryIffPromptReply(r: Redis.State, claimedAt: nat, id: AccountId, token: ClaimToken, reply: nat)
    requires ClaimNotification(r, claimedAt, id, token).1
    ensures var claimed := ClaimNotification(r, claimedAt, id, token).0;
            && (reply <= CLAIM_REPLY_MAX <==>
                  forall time: nat :: claimedAt + reply <= time <= claimedAt + reply + Http.DELIVERY_MAX ==> Claimed(claimed, time, id))
            && (reply > CLAIM_REPLY_MAX && id in r.jobs && r.jobs[id].expiry.None? ==>
                  RecordFeedback(claimed, claimedAt + reply + Http.DELIVERY_MAX, id, FalsePositive).1.Recorded?)
  {
    var claimed := ClaimNotification(r, claimedAt, id, token).0;
    if reply > CLAIM_REPLY_MAX {
      assert !Claimed(claimed, claimedAt + reply + Http.DELIVERY_MAX, id);
    }
  }

  // ---------------------------------------------------------------------------------------------
  // What is not promised

  /** A check on its own, every command answered at one instant. */
  function RunCheck(r: Redis.State, now: nat, kind: W.RunKind, process: nat, account: Account, phase: W.Phase, inputs: seq<W.Input>): Option<(Redis.State, W.Phase)>
    decreases |inputs|
  {
    if inputs == [] then Some((r, phase))
    else
      var stepped := W.Step(r, now, kind, process, account, phase, inputs[0]);
      if stepped.None? then None
      else RunCheck(stepped.value.0, now, kind, process, account, stepped.value.1, inputs[1..])
  }

  lemma RunOneMore(r: Redis.State, now: nat, kind: W.RunKind, process: nat, account: Account, phase: W.Phase, input: W.Input, rest: seq<W.Input>)
    requires W.Step(r, now, kind, process, account, phase, input).Some?
    ensures var (r', after) := W.Step(r, now, kind, process, account, phase, input).value;
            RunCheck(r, now, kind, process, account, phase, [input] + rest) == RunCheck(r', now, kind, process, account, after, rest)
  {
    assert ([input] + rest)[1..] == rest;
  }

  /** A check of a failed account that no moderator has decided gets to its verdict. */
  lemma FailedAccountIsJudgedAgain(r: Redis.State, now: nat, kind: W.RunKind, process: nat, account: Account)
    requires !IsSystemAccount(account) && !HasTerminalFeedback(r, account.id)
    requires GetJob(r, now, account.id).Some? && GetJob(r, now, account.id).value.status.Failed?
    ensures var answered := W.Command(W.Answered);
            var job := BeginRecord(GetJob(r, now, account.id), now);
            RunCheck(r, now, kind, process, account, W.Start, [W.Begin, answered, answered, answered, answered])
            == Some((SetJob(r, now, account.id, job), W.Judge(job))) && job.verdict.None?
  {
    var answered := W.Command(W.Answered);
    var job := BeginRecord(GetJob(r, now, account.id), now);
    var last := [answered];
    var writing := [answered] + last;
    var beginning := [answered] + writing;
    var reading := [answered] + beginning;
    RunOneMore(r, now, kind, process, account, W.Start, W.Begin, reading);
    RunOneMore(r, now, kind, process, account, W.ReadFeedback, answered, beginning);
    RunOneMore(r, now, kind, process, account, W.ReadRecord, answered, writing);
    RunOneMore(r, now, kind, process, account, W.BeginRead, answered, last);
    RunOneMore(r, now, kind, process, account, W.BeginWrite(job), answered, []);
    assert [W.Begin] + reading == [W.Begin, answered, answered, answered, answered];
  }

  /**
   Not every spam verdict is delivered in the end: a backfill without `--notify` that judges a failed
   account takes it out of the queue, and its record says spam without a notification.
   */
  lemma SilentBackfillClearsTheQueue(r: Redis.State, now: nat, process: nat, account: Account, verdict: Verdict)
    requires !IsSystemAccount(account) && account.id in r.failed && verdict.spam && !HasTerminalFeedback(r, account.id)
    requires GetJob(r, now, account.id).Some? && GetJob(r, now, account.id).value.status.Failed?
    ensures var answered, kind := W.Command(W.Answered), W.Backfill(false);
            var judging := RunCheck(r, now, kind, process, account, W.Start, [W.Begin, answered, answered, answered, answered]);
            && judging.Some?
            && var ended := RunCheck(judging.value.0, now, kind, process, account, judging.value.1, [W.Judged(verdict, []), answered]);
            && ended.Some? && ended.value.1 == W.Done(true)
            && account.id !in Queued(ended.value.0)
            && GetJob(ended.value.0, now, account.id).Some?
            && var job := GetJob(ended.value.0, now, account.id).value;
            && job.status.Spam? && !job.notified
  {
    var answered, kind := W.Command(W.Answered), W.Backfill(false);
    var job := BeginRecord(GetJob(r, now, account.id), now);
    var begun := SetJob(r, now, account.id, job);
    FailedAccountIsJudgedAgain(r, now, kind, process, account);
    RunOneMore(begun, now, kind, process, account, W.Judge(job), W.Judged(verdict, []), [answered]);
    RunOneMore(begun, now, kind, process, account, W.Completing(job, Spam, Some(verdict), false, []), answered, []);
    assert [W.Judged(verdict, [])] + [answered] == [W.Judged(verdict, []), answered];
  }
}
