/**
 Once a notification has been sent or given up and its claim released, moderators can decide the account
 again: every press is recorded until the next claim is asked for.
 */
module Releasing {
  import opened Wrappers
  import opened Accounts
  import opened Redis
  import opened System
  import opened AccountInvariants
  import opened SystemInvariants
  import opened Frames
  import opened SystemSteps
  import opened Presses
  import opened Safety
  import opened Notifications
  import W = Worker

  /** The record on the account, and one its check is about to write, are no older than second `since`, or do not expire. */
  predicate Recent(s: System.State, id: AccountId, since: nat) {
    && id in s.redis.jobs && (s.redis.jobs[id].job.status.Expires() ==> since <= s.redis.jobs[id].job.updatedAt)
    && since <= Seconds(s.now)
    && (PhaseOf(s, id).Some? && PhaseOf(s, id).value.BeginWrite? ==> since <= PhaseOf(s, id).value.job.updatedAt)
  }

  /** Feedback on the account is open: no unexpired claim, and a recent record. */
  predicate Open(s: System.State, id: AccountId, since: nat) {
    Recent(s, id, since) && !Claimed(s.redis, s.now, id)
  }

  /** The event asks for a claim on the account. */
  predicate Claims(s: System.State, event: Event, id: AccountId) {
    event.Check? && event.id == id && PhaseOf(s, id).Some? && PhaseOf(s, id).value.Claiming?
  }

  lemma OpenIsDecidable(s: System.State, id: AccountId, since: nat)
    requires AcctInv(s.redis, s.now, s.history, id) && Open(s, id, since) && s.now < (since + ACCOUNT_STATE_RETENTION_SECS) * 1_000
    ensures MayDecide(s.redis, s.now, id)
  {
  }

  lemma OwnStepStaysOpen(r: Redis.State, now: nat, kind: W.RunKind, process: nat, account: Account, phase: W.Phase, input: W.Input, since: nat)
    requires W.Step(r, now, kind, process, account, phase, input).Some? && !phase.Claiming? && since <= Seconds(now)
    requires account.id in r.jobs && (r.jobs[account.id].job.status.Expires() ==> since <= r.jobs[account.id].job.updatedAt)
    requires phase.BeginWrite? ==> since <= phase.job.updatedAt
    requires !Claimed(r, now, account.id)
    ensures var (r', after) := W.Step(r, now, kind, process, account, phase, input).value;
            && account.id in r'.jobs && (r'.jobs[account.id].job.status.Expires() ==> since <= r'.jobs[account.id].job.updatedAt)
            && (after.BeginWrite? ==> since <= after.job.updatedAt)
            && !Claimed(r', now, account.id)
  {
    StepWritesOrNot(r, now, kind, process, account, phase, input);
  }

  lemma CheckStaysOpen(s: System.State, event: Event, id: AccountId, since: nat)
    requires Inv(s) && event.Check? && Step(s, event).Some? && Open(s, id, since) && !Claims(s, event, id)
    ensures Open(Step(s, event).value, id, since)
  {
    var run, stage := s.run.value, s.run.value.stage;
    var account, phase := FindAccount(stage.accounts, event.id).value, stage.workers[event.id];
    StepIsCheckStepped(s, event.id, event.input);
    if event.id == id {
      OwnStepStaysOpen(s.redis, s.now, run.kind, run.process, account, phase, event.input, since);
    } else {
      CheckTouchesOnlyItsAccount(s.redis, s.now, run.kind, run.process, account, phase, event.input, id);
    }
  }

  lemma MigrationStaysOpen(s: System.State, migrated: AccountId, id: AccountId, since: nat)
    requires Inv(s) && Step(s, MigrateApply(migrated)).Some? && Open(s, id, since)
    requires s.now < (since + ACCOUNT_STATE_RETENTION_SECS) * 1_000
    ensures Open(Step(s, MigrateApply(migrated)).value, id, since)
  {
    var stage := s.run.value.stage;
    assert AcctInv(s.redis, s.now, s.history, id);
    MigrationKeepsRecord(s.redis, s.now, id, migrated, stage.startSecs, stage.decided[migrated]);
    PeriodicFrame(s, MigrateApply(migrated));
  }

  lemma MarkStaysOpen(s: System.State, id: AccountId, since: nat)
    requires Step(s, MarkWrite).Some? && Open(s, id, since)
    ensures Open(Step(s, MarkWrite).value, id, since)
  {
    RetryFrame(s, MarkWrite);
  }

  /** Events other than a check's leave the phase of an account's check, or end or begin it. */
  lemma OtherEventsKeepClaims(s: System.State, event: Event, id: AccountId)
    requires Inv(s) && Step(s, event).Some? && !event.Check?
    ensures Step(s, event).value.redis.claims == s.redis.claims
    ensures PhaseOf(Step(s, event).value, id) == PhaseOf(s, id) || PhaseOf(Step(s, event).value, id) in {None, Some(W.Start)}
  {
    if IsRetryEvent(event) {
      RetryFrame(s, event);
    } else if IsPeriodicEvent(event) {
      PeriodicFrame(s, event);
    } else if IsServerEvent(event) {
      ServerFrame(s, event);
    } else if IsEnvironmentEvent(event) {
      EnvironmentFrame(s, event);
    } else if IsLeftoverEvent(event) {
      NothingLingers(s, event);
    } else {
      ChunkFrame(s, event);
    }
  }

  lemma StepStaysOpen(s: System.State, event: Event, id: AccountId, since: nat)
    requires Inv(s) && Step(s, event).Some? && Open(s, id, since) && !Claims(s, event, id)
    requires Step(s, event).value.now < (since + ACCOUNT_STATE_RETENTION_SECS) * 1_000
    ensures Open(Step(s, event).value, id, since)
  {
    if event.Check? {
      CheckStaysOpen(s, event, id, since);
    } else if event.MigrateApply? {
      MigrationStaysOpen(s, event.id, id, since);
    } else if event.MarkWrite? {
      MarkStaysOpen(s, id, since);
    } else {
      OtherEventsKeepClaims(s, event, id);
      TimeGoesOn(s, event);
      if IsLeftoverEvent(event) {
        NothingLingers(s, event);
      } else if !event.Tick? {
        OtherStepsKeepJobs(s, event);
      }
    }
  }

  /** The event has the claim of a notification released, whether or not the answer arrives. */
  predicate Releases(s: Option<System.State>, event: Event, id: AccountId) {
    && s.Some? && PhaseOf(s.value, id).Some? && PhaseOf(s.value, id).value.ReleasingClaim?
    && (event == Check(id, W.Command(W.Answered)) || event == Check(id, W.Command(W.ReplyLost)))
  }

  lemma ReleaseOpens(s: System.State, event: Event, id: AccountId)
    requires Inv(s) && Releases(Some(s), event, id) && Step(s, event).Some?
    ensures Open(Step(s, event).value, id, Seconds(s.now))
  {
    StepIsCheckStepped(s, id, event.input);
    var account, phase := FindAccount(s.run.value.stage.accounts, id).value, s.run.value.stage.workers[id];
    assert CheckInv(s.redis, s.now, s.history, s.run.value.kind, account, phase);
    ReleaseFreesTheAccount(s.redis, s.now, id, phase.token);
  }

  /** From event `n` on nobody asks for a claim on the account. */
  ghost predicate NoClaimSince(events: seq<Event>, n: nat, id: AccountId) {
    forall m :: n < m < |events| && After(events[..m]).Some? ==> !Claims(After(events[..m]).value, events[m], id)
  }

  lemma {:induction false} OpenSinceRelease(events: seq<Event>, n: nat, id: AccountId, since: nat)
    requires After(events).Some? && n < |events| && Releases(After(events[..n]), events[n], id)
    requires since == Seconds(After(events[..n]).value.now) && NoClaimSince(events, n, id)
    requires After(events).value.now < (since + ACCOUNT_STATE_RETENTION_SECS) * 1_000
    ensures Open(After(events).value, id, since)
    decreases |events|
  {
    var before, last := events[..|events| - 1], |events| - 1;
    LastStep(events);
    if n == last {
      ReleaseOpens(After(before).value, events[last], id);
    } else {
      assert before[..n] == events[..n];
      TimeGoesOn(After(before).value, events[last]);
      assert NoClaimSince(before, n, id) by {
        forall m | n < m < |before| && After(before[..m]).Some? ensures !Claims(After(before[..m]).value, before[m], id) {
          assert before[..m] == events[..m];
        }
      }
      OpenSinceRelease(before, n, id, since);
      StepStaysOpen(After(before).value, events[last], id, since);
    }
  }

  /**
   Over every history, once the claim of a notification has been released, and until the next one is
   asked for or the record may expire, a moderator's verdict on the account is recorded.
   */
  lemma {:induction false} FeedbackIsOpenAfterRelease(events: seq<Event>, n: nat, id: AccountId, status: JobStatus)
    requires After(events).Some? && n < |events| && Releases(After(events[..n]), events[n], id) && NoClaimSince(events, n, id)
    requires After(events).value.now < (Seconds(After(events[..n]).value.now) + ACCOUNT_STATE_RETENTION_SECS) * 1_000
    ensures var s := After(events).value;
            && !Claimed(s.redis, s.now, id) && MayDecide(s.redis, s.now, id)
            && RecordFeedback(s.redis, s.now, id, status).1.Recorded?
            && FeedbackStatus(RecordFeedback(s.redis, s.now, id, status).0, id) == Some(status)
  {
    var since := Seconds(After(events[..n]).value.now);
    HistoryKeepsInv(events);
    OpenSinceRelease(events, n, id, since);
    var s := After(events).value;
    assert AcctInv(s.redis, s.now, s.history, id);
    OpenIsDecidable(s, id, since);
  }
}
