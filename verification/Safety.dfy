/**
 What the service promises, over every history of events: runs of every kind and concurrency,
 crashes and lost replies at any step, clicks, feedback and the passing of time. The statements
 speak of the events and of Redis only; `System.History` is a device of the proofs.
 */
module Safety {
  import opened Wrappers
  import opened Accounts
  import opened Redis
  import opened System
  import opened AccountInvariants
  import opened SystemInvariants
  import opened Frames
  import opened SystemSteps
  import opened Presses
  import Server
  import W = Worker

  // ---------------------------------------------------------------------------------------------
  // Histories

  lemma {:induction false} LastStep(events: seq<Event>)
    requires events != [] && After(events).Some?
    ensures var before := events[..|events| - 1];
            After(before).Some? && Step(After(before).value, events[|events| - 1]) == After(events)
            && Inv(After(before).value) && Inv(After(events).value) && !IsLeftoverEvent(events[|events| - 1])
  {
    HistoryKeepsInv(events);
    HistoryKeepsInv(events[..|events| - 1]);
    if IsLeftoverEvent(events[|events| - 1]) {
      NothingLingers(After(events[..|events| - 1]).value, events[|events| - 1]);
    }
  }

  /** At event `n` a Slack send of the verdict for the account returned success. */
  ghost predicate WasDelivered(events: seq<Event>, id: AccountId, verdict: Verdict) {
    exists n :: 0 <= n < |events| && events[n] == Check(id, W.SendEnds(true)) && SendsVerdict(After(events[..n]), id, verdict)
  }

  predicate SendsVerdict(s: Option<System.State>, id: AccountId, verdict: Verdict) {
    && s.Some? && PhaseOf(s.value, id).Some?
    && var phase := PhaseOf(s.value, id).value; phase.Sending? && phase.report.verdict == verdict
  }

  /** At event `n` a run that notifies nobody was about to complete the account with the verdict. */
  ghost predicate WasJudgedSilently(events: seq<Event>, id: AccountId, verdict: Verdict) {
    exists n :: 0 <= n < |events| && events[n].Check? && events[n].id == id && CompletesSilently(After(events[..n]), id, verdict)
  }

  predicate CompletesSilently(s: Option<System.State>, id: AccountId, verdict: Verdict) {
    && s.Some? && s.value.run.Some? && s.value.run.value.kind == W.Backfill(false) && PhaseOf(s.value, id).Some?
    && var phase := PhaseOf(s.value, id).value;
    phase.Completing? && phase.status.Spam? && !phase.notified && phase.verdict == Some(verdict)
  }

  /** The phase of the account's check, when one is under way. */
  function PhaseOf(s: System.State, id: AccountId): Option<W.Phase> {
    if s.run.Some? && s.run.value.stage.Checking? && id in s.run.value.stage.workers
    then Some(s.run.value.stage.workers[id]) else None
  }

  /** At some moment Redis showed feedback, a completed job or a pending notification for the account. */
  ghost predicate WasSettled(events: seq<Event>, id: AccountId) {
    exists n :: 0 <= n <= |events| && SettledAt(After(events[..n]), id)
  }

  predicate SettledAt(s: Option<System.State>, id: AccountId) {
    s.Some? && Settles(s.value.redis, id)
  }

  /** Event `n` is the first save of a cursor, by a run whose list begins with account `first`. */
  ghost predicate FirstSave(events: seq<Event>, n: nat, first: AccountId) {
    && n < |events| && events[n].SaveCursor?
    && FirstSaveAt(After(events[..n]), first)
  }

  predicate FirstSaveAt(s: Option<System.State>, first: AccountId) {
    && s.Some? && s.value.redis.cursor.None? && s.value.run.Some? && s.value.run.value.stage.SavingCursor?
    && s.value.run.value.stage.accounts != [] && s.value.run.value.stage.accounts[0].id == first
  }

  /** What is true of a history stays true of a longer one. */
  lemma {:induction false} LongerHistory(events: seq<Event>)
    requires events != []
    ensures var before := events[..|events| - 1];
            && (forall id, v :: WasDelivered(before, id, v) ==> WasDelivered(events, id, v))
            && (forall id, v :: WasJudgedSilently(before, id, v) ==> WasJudgedSilently(events, id, v))
            && (forall id :: WasSettled(before, id) ==> WasSettled(events, id))
            && (forall n, first :: FirstSave(before, n, first) ==> FirstSave(events, n, first))
  {
    var before := events[..|events| - 1];
    assert forall n :: 0 <= n <= |before| ==> before[..n] == events[..n];
    forall id, v | WasDelivered(before, id, v) ensures WasDelivered(events, id, v) {
      var n :| 0 <= n < |before| && before[n] == Check(id, W.SendEnds(true)) && SendsVerdict(After(before[..n]), id, v);
      assert events[n] == Check(id, W.SendEnds(true)) && SendsVerdict(After(events[..n]), id, v);
    }
    forall id, v | WasJudgedSilently(before, id, v) ensures WasJudgedSilently(events, id, v) {
      var n :| 0 <= n < |before| && before[n].Check? && before[n].id == id && CompletesSilently(After(before[..n]), id, v);
      assert events[n] == before[n] && CompletesSilently(After(events[..n]), id, v);
    }
    forall id | WasSettled(before, id) ensures WasSettled(events, id) {
      var n :| 0 <= n <= |before| && SettledAt(After(before[..n]), id);
      assert SettledAt(After(events[..n]), id);
    }
  }

  /** How one event extends what the proofs remember. */
  lemma StepRemembers(s: System.State, event: Event)
    requires Step(s, event).Some? && !IsLeftoverEvent(event)
    ensures var s' := Step(s, event).value;
            && (forall id, v :: (id, v) in s'.history.delivered && (id, v) !in s.history.delivered ==>
                  event == Check(id, W.SendEnds(true)) && SendsVerdict(Some(s), id, v))
            && (forall id, v :: (id, v) in s'.history.silent && (id, v) !in s.history.silent ==>
                  event.Check? && event.id == id && CompletesSilently(Some(s), id, v))
            && (forall id :: id in s'.history.settled && id !in s.history.settled ==> Settles(s'.redis, id))
            && (s'.history.base != s.history.base ==>
                  event.SaveCursor? && s'.history.base.Some? && FirstSaveAt(Some(s), s'.history.base.value))
  {
    if event.Check? {
      StepIsCheckStepped(s, event.id, event.input);
    } else if !event.Handle? && !event.SaveCursor? {
      OtherEventsRemember(s, event);
    }
  }

  lemma OtherEventsRemember(s: System.State, event: Event)
    requires Step(s, event).Some? && !event.Check? && !event.Handle? && !event.SaveCursor? && !IsLeftoverEvent(event)
    ensures var h, h' := s.history, Step(s, event).value.history;
            && h' == h.(settled := h'.settled)
            && (forall id :: id in h'.settled && id !in h.settled ==> Settles(Step(s, event).value.redis, id))
  {
    if IsRetryEvent(event) {
      RetryFrame(s, event);
    } else if IsPeriodicEvent(event) {
      PeriodicFrame(s, event);
    } else if IsServerEvent(event) {
      ServerFrame(s, event);
    } else if IsEnvironmentEvent(event) {
      EnvironmentFrame(s, event);
    } else {
      ChunkFrame(s, event);
    }
  }

  /** What the proofs remember did happen. */
  lemma {:induction false} HistoryIsTrue(events: seq<Event>)
    requires After(events).Some?
    ensures var h := After(events).value.history;
            && (forall id, v :: (id, v) in h.delivered ==> WasDelivered(events, id, v))
            && (forall id, v :: (id, v) in h.silent ==> WasJudgedSilently(events, id, v))
            && (forall id :: id in h.settled ==> WasSettled(events, id))
            && (h.base.Some? ==> exists n :: FirstSave(events, n, h.base.value))
    decreases |events|
  {
    if events != [] {
      var before, last := events[..|events| - 1], |events| - 1;
      LastStep(events);
      HistoryIsTrue(before);
      LongerHistory(events);
      StepRemembers(After(before).value, events[last]);
      assert events[..|events|] == events;
      var h, h' := After(before).value.history, After(events).value.history;
      forall id, v | (id, v) in h'.delivered ensures WasDelivered(events, id, v) {
        if (id, v) !in h.delivered {
          assert events[last] == Check(id, W.SendEnds(true)) && SendsVerdict(After(events[..last]), id, v);
        }
      }
      forall id, v | (id, v) in h'.silent ensures WasJudgedSilently(events, id, v) {
        if (id, v) !in h.silent {
          assert events[last].id == id && CompletesSilently(After(events[..last]), id, v);
        }
      }
      forall id | id in h'.settled ensures WasSettled(events, id) {
        if id !in h.settled {
          assert SettledAt(After(events[..|events|]), id);
        }
      }
      if h'.base != h.base {
        assert FirstSave(events, last, h'.base.value);
      }
    }
  }

  // ---------------------------------------------------------------------------------------------
  // Records, queues, claims and feedback

  /** In every reachable state the queues and the expiry agree with the record. */
  lemma {:induction false} QueueAgreesWithRecord(events: seq<Event>, id: AccountId)
    requires After(events).Some? && id in After(events).value.redis.jobs
    ensures var r := After(events).value.redis;
            var StoredJob(job, expiry) := r.jobs[id];
            && (job.status.IsCompleted() ==> id !in r.failed && id !in r.pending)
            && (job.status.Failed? ==> id in r.failed || HasTerminalFeedback(r, id))
            && (job.status.NotificationPending? ==>
                  (id in r.pending || HasTerminalFeedback(r, id)) && job.verdict.Some? && job.verdict.value.spam)
            && (expiry.None? <==> job.status.Failed? || job.status.NotificationPending?)
            && (expiry.Some? ==> expiry.value >= (job.updatedAt + ACCOUNT_STATE_RETENTION_SECS) * 1_000)
  {
    HistoryKeepsInv(events);
    var s := After(events).value;
    assert AcctInv(s.redis, s.now, s.history, id);
  }

  /**
   A record that calls an account spam has a past that fits: called notified, a send of the very verdict it
   holds returned success; called not notified, a run that notifies nobody was to complete the
   account with that verdict, or a moderator has decided it.
   */
  lemma {:induction false} SpamIsAccountedFor(events: seq<Event>, id: AccountId)
    requires After(events).Some? && id in After(events).value.redis.jobs
    requires After(events).value.redis.jobs[id].job.status.Spam?
    ensures var s := After(events).value;
            var job := s.redis.jobs[id].job;
            && job.verdict.Some? && job.verdict.value.spam
            && if job.notified then WasDelivered(events, id, job.verdict.value)
               else WasJudgedSilently(events, id, job.verdict.value) || HasTerminalFeedback(s.redis, id)
  {
    HistoryKeepsInv(events);
    HistoryIsTrue(events);
    var s := After(events).value;
    assert AcctInv(s.redis, s.now, s.history, id);
  }

  /** An unexpired claim and feedback never stand together. */
  lemma {:induction false} ClaimExcludesFeedback(events: seq<Event>, id: AccountId)
    requires After(events).Some?
    ensures var s := After(events).value; Claimed(s.redis, s.now, id) ==> id !in s.redis.feedback
  {
    HistoryKeepsInv(events);
    var s := After(events).value;
    assert AcctInv(s.redis, s.now, s.history, id);
  }

  predicate Delivering(phase: Option<W.Phase>) {
    phase.Some? && (phase.value.HoldsClaim? || phase.value.Sending?)
  }

  /**
   From the moment a claim is granted until the delivery has ended the claim is still unexpired, no
   feedback exists, and the account is queued as pending with the very verdict that is sent: a crash
   anywhere in between leaves it for `retry-failed`. Only a retry run delivers for an account it found pending.
   */
  lemma {:induction false} DeliveryIsExclusiveAndRecorded(events: seq<Event>, id: AccountId)
    requires After(events).Some? && Delivering(PhaseOf(After(events).value, id))
    ensures var s := After(events).value;
            && Claimed(s.redis, s.now, id)
            && id !in s.redis.feedback
            && id in s.redis.pending && id in s.redis.jobs
            && s.redis.jobs[id].job.status.NotificationPending?
            && s.redis.jobs[id].job.verdict == Some(PhaseOf(s, id).value.report.verdict)
            && s.run.value.kind != W.Backfill(false)
            && (PhaseOf(s, id).value.report.resend ==> s.run.value.kind.RetryFailed?)
  {
    HistoryKeepsInv(events);
    var s := After(events).value;
    var account := FindAccount(s.run.value.stage.accounts, id).value;
    assert AcctInv(s.redis, s.now, s.history, id);
    SenderExcludesFeedback(s.redis, s.now, s.history, s.run.value.kind, account, s.run.value.stage.workers[id]);
  }

  // ---------------------------------------------------------------------------------------------
  // Completed records

  predicate StillKept(j: Job, now: nat) {
    now < (j.updatedAt + ACCOUNT_STATE_RETENTION_SECS) * 1_000
  }

  lemma CheckKeepsCompleted(s: System.State, id: AccountId, event: Event)
    requires Inv(s) && event.Check? && Step(s, event).Some?
    requires IsCompletedJob(GetJob(s.redis, s.now, id))
    ensures var s' := Step(s, event).value; GetJob(s'.redis, s'.now, id) == GetJob(s.redis, s.now, id)
  {
    var run, stage := s.run.value, s.run.value.stage;
    var account, phase := FindAccount(stage.accounts, event.id).value, stage.workers[event.id];
    if event.id == id {
      StepWritesOrNot(s.redis, s.now, run.kind, run.process, account, phase, event.input);
    } else {
      CheckTouchesOnlyItsAccount(s.redis, s.now, run.kind, run.process, account, phase, event.input, id);
    }
  }

  lemma MigrationKeepsCompleted(s: System.State, id: AccountId, event: Event)
    requires Inv(s) && event.MigrateApply? && Step(s, event).Some?
    requires IsCompletedJob(GetJob(s.redis, s.now, id)) && StillKept(GetJob(s.redis, s.now, id).value, s.now)
    ensures var s' := Step(s, event).value; GetJob(s'.redis, s'.now, id) == GetJob(s.redis, s.now, id)
  {
    var stage := s.run.value.stage;
    MigrationKeepsRecord(s.redis, s.now, id, event.id, stage.startSecs, stage.decided[event.id]);
  }

  lemma TickKeepsCompleted(s: System.State, id: AccountId, event: Event)
    requires Inv(s) && event.Tick? && Step(s, event).Some?
    requires IsCompletedJob(GetJob(s.redis, s.now, id)) && StillKept(GetJob(s.redis, s.now, id).value, Step(s, event).value.now)
    ensures var s' := Step(s, event).value; GetJob(s'.redis, s'.now, id) == GetJob(s.redis, s.now, id)
  {
    assert AcctInv(s.redis, s.now, s.history, id);
  }

  lemma MarkKeepsCompleted(s: System.State, id: AccountId)
    requires Inv(s) && Step(s, MarkWrite).Some?
    requires IsCompletedJob(GetJob(s.redis, s.now, id))
    ensures var s' := Step(s, MarkWrite).value; GetJob(s'.redis, s'.now, id) == GetJob(s.redis, s.now, id)
  {
    var stage := s.run.value.stage;
    assert NotCompleted(s.redis, s.now, ([stage.gone] + stage.todo)[0]);
  }

  /** No event changes or removes a completed record before its retention ends. */
  lemma StepKeepsCompleted(s: System.State, id: AccountId, event: Event)
    requires Inv(s) && Step(s, event).Some?
    requires IsCompletedJob(GetJob(s.redis, s.now, id)) && StillKept(GetJob(s.redis, s.now, id).value, Step(s, event).value.now)
    ensures var s' := Step(s, event).value; GetJob(s'.redis, s'.now, id) == GetJob(s.redis, s.now, id)
  {
    if event.Check? {
      CheckKeepsCompleted(s, id, event);
    } else if event.MigrateApply? {
      MigrationKeepsCompleted(s, id, event);
    } else if event.Tick? {
      TickKeepsCompleted(s, id, event);
    } else if event.MarkWrite? {
      MarkKeepsCompleted(s, id);
    } else if IsLeftoverEvent(event) {
      NothingLingers(s, event);
    } else {
      OtherStepsKeepJobs(s, event);
    }
  }

  lemma OtherStepsKeepJobs(s: System.State, event: Event)
    requires Step(s, event).Some?
    requires !event.Check? && !event.MigrateApply? && !event.Tick? && !event.MarkWrite? && !IsLeftoverEvent(event)
    ensures Step(s, event).value.redis.jobs == s.redis.jobs && Step(s, event).value.now == s.now
  {
    if IsRetryEvent(event) {
      RetryFrame(s, event);
    } else if IsPeriodicEvent(event) {
      PeriodicFrame(s, event);
    } else if IsServerEvent(event) {
      ServerFrame(s, event);
    } else if IsEnvironmentEvent(event) {
      EnvironmentFrame(s, event);
    } else {
      ChunkFrame(s, event);
    }
  }

  lemma TimeGoesOn(s: System.State, event: Event)
    requires Step(s, event).Some?
    ensures s.now <= Step(s, event).value.now
  {
    if IsRetryEvent(event) {
      RetryFrame(s, event);
    } else if IsPeriodicEvent(event) {
      PeriodicFrame(s, event);
    } else if IsServerEvent(event) {
      ServerFrame(s, event);
    } else if IsEnvironmentEvent(event) {
      EnvironmentFrame(s, event);
    } else if IsLeftoverEvent(event) {
      LeftoverFrame(s, event);
    } else if event.Check? {
      StepIsCheckStepped(s, event.id, event.input);
    } else {
      ChunkFrame(s, event);
    }
  }

  /** Once completed, a record is read unchanged until 90 days after its update time. */
  lemma {:induction false} CompletedRecordIsFinal(events: seq<Event>, n: nat, id: AccountId, j: Job)
    requires After(events).Some? && n <= |events| && After(events[..n]).Some?
    requires GetJob(After(events[..n]).value.redis, After(events[..n]).value.now, id) == Some(j) && j.status.IsCompleted()
    requires StillKept(j, After(events).value.now)
    ensures GetJob(After(events).value.redis, After(events).value.now, id) == Some(j)
    decreases |events|
  {
    if n == |events| {
      assert events[..n] == events;
    } else {
      var before := events[..|events| - 1];
      LastStep(events);
      assert before[..n] == events[..n];
      TimeGoesOn(After(before).value, events[|events| - 1]);
      CompletedRecordIsFinal(before, n, id, j);
      StepKeepsCompleted(After(before).value, id, events[|events| - 1]);
    }
  }

  // ---------------------------------------------------------------------------------------------
  // The cursor

  lemma StepMovesCursorForward(s: System.State, event: Event)
    requires Step(s, event).Some?
    ensures var c, c' := s.redis.cursor, Step(s, event).value.redis.cursor;
            c.Some? ==> c'.Some? && c.value <= c'.value
  {
    if event.Check? {
      var run, stage := s.run.value, s.run.value.stage;
      CheckTouchesOnlyItsAccount(s.redis, s.now, run.kind, run.process, FindAccount(stage.accounts, event.id).value,
                                 stage.workers[event.id], event.input, FindAccount(stage.accounts, event.id).value.id + 1);
    } else if event.LeftoverCheck? {
      var run := s.leftovers[event.slot];
      CheckTouchesOnlyItsAccount(s.redis, s.now, run.kind, run.process, FindAccount(run.stage.accounts, event.id).value,
                                 run.stage.workers[event.id], event.input, FindAccount(run.stage.accounts, event.id).value.id + 1);
    } else if !event.SaveCursor? {
      OtherStepsKeepCursor(s, event);
    }
  }

  lemma OtherStepsKeepCursor(s: System.State, event: Event)
    requires Step(s, event).Some? && !event.Check? && !event.SaveCursor? && !event.LeftoverCheck?
    ensures Step(s, event).value.redis.cursor == s.redis.cursor
  {
    if IsRetryEvent(event) {
      RetryFrame(s, event);
    } else if IsPeriodicEvent(event) {
      PeriodicFrame(s, event);
    } else if IsServerEvent(event) {
      ServerFrame(s, event);
    } else if IsEnvironmentEvent(event) {
      EnvironmentFrame(s, event);
    } else if IsLeftoverEvent(event) {
      LeftoverFrame(s, event);
    } else {
      ChunkFrame(s, event);
    }
  }

  lemma {:induction false} CursorNeverMovesBack(events: seq<Event>, n: nat)
    requires After(events).Some? && n <= |events| && After(events[..n]).Some?
    ensures var c, c' := After(events[..n]).value.redis.cursor, After(events).value.redis.cursor;
            c.Some? ==> c'.Some? && c.value <= c'.value
    decreases |events|
  {
    if n == |events| {
      assert events[..n] == events;
    } else {
      var before := events[..|events| - 1];
      LastStep(events);
      assert before[..n] == events[..n];
      CursorNeverMovesBack(before, n);
      StepMovesCursorForward(After(before).value, events[|events| - 1]);
    }
  }

  /** Every listed account from `first` up to the cursor is a system account or was settled. */
  ghost predicate CoveredFrom(events: seq<Event>, s: System.State, first: AccountId) {
    s.redis.cursor.Some? &&
    forall x :: x in s.listed && first <= x <= s.redis.cursor.value ==>
      IsSystemAccount(s.listed[x]) || WasSettled(events, x)
  }

  /**
   No account is skipped. Once a cursor is saved, every listed account from the first account of the
   run that first saved one up to the cursor is a system account, or has at some moment had a
   completed job, a pending notification, or feedback.
   */
  lemma {:induction false} NoAccountIsSkipped(events: seq<Event>)
    requires After(events).Some? && After(events).value.redis.cursor.Some?
    ensures exists n, first :: FirstSave(events, n, first) && CoveredFrom(events, After(events).value, first)
  {
    HistoryKeepsInv(events);
    var s := After(events).value;
    var first := s.history.base.value;
    HistoryIsTrue(events);
    var n :| FirstSave(events, n, first);
    forall x | x in s.listed && first <= x <= s.redis.cursor.value
      ensures IsSystemAccount(s.listed[x]) || WasSettled(events, x)
    {
      assert s.listed[x].id == x;
    }
    assert FirstSave(events, n, first) && CoveredFrom(events, s, first);
  }

  // ---------------------------------------------------------------------------------------------
  // The Slack server

  /**
   While a suspend or delete request is issued or under way, the account is not cleared: the last press
   recorded for it was not by the button that marks a false positive.
   */
  lemma {:induction false} NoDestructiveCallOnClearedAccount(events: seq<Event>, task: nat)
    requires After(events).Some? && task in After(events).value.tasks
    requires After(events).value.tasks[task].phase.Issuing? || After(events).value.tasks[task].phase.Calling?
    ensures var s := After(events).value;
            && FeedbackStatus(s.redis, s.tasks[task].id) != Some(FalsePositive)
            && !LastPressed(Initial(CLAIM_REPLY_MAX), events, s.tasks[task].id, Server.MarkFalsePositive)
  {
    HistoryKeepsInv(events);
    FeedbackIsTheLastPress(Initial(CLAIM_REPLY_MAX), events, After(events).value.tasks[task].id);
  }

  /** The in-flight set is the accounts of the clicks being handled, and no account has two. */
  lemma {:induction false} InFlightIsTheLiveClicks(events: seq<Event>)
    requires After(events).Some?
    ensures var s := After(events).value;
            && s.inFlight == (set t | t in s.tasks :: s.tasks[t].id)
            && (forall t, u :: t in s.tasks && u in s.tasks && s.tasks[t].id == s.tasks[u].id ==> t == u)
  {
    HistoryKeepsInv(events);
  }
}
