/**
 The crash-safety of the retry queue: an account leaves both queues only for a reason.
 */
module QueueSafety {
  import opened Wrappers
  import opened Accounts
  import opened Redis
  import opened RetryQueue
  import opened System
  import opened AccountInvariants
  import opened SystemInvariants
  import opened Frames
  import opened SystemSteps
  import opened Safety
  import W = Worker

  /** A retry run was told that Mastodon no longer has the account, and found no record of it. */
  predicate ClosesWithoutRecord(s: System.State, id: AccountId) {
    && s.run.Some? && s.run.value.stage.MarkWriting? && s.run.value.stage.gone == id && s.run.value.stage.job.None?
    && GetJob(s.redis, s.now, id).None?
  }

  /** A moderator has decided, the record is completed, or the account is gone with nothing on record. */
  predicate MayLeave(s: System.State, id: AccountId) {
    id in s.redis.feedback || IsCompletedJob(GetJob(s.redis, s.now, id)) || ClosesWithoutRecord(s, id)
  }

  lemma CheckStepLeavesForAReason(s: System.State, id: AccountId, input: W.Input, other: AccountId)
    requires Inv(s) && Step(s, Check(other, input)).Some?
    requires id in Queued(s.redis) && id !in Queued(Step(s, Check(other, input)).value.redis)
    ensures MayLeave(Step(s, Check(other, input)).value, id)
  {
    StepIsCheckStepped(s, other, input);
    var run, stage := s.run.value, s.run.value.stage;
    var account, phase := FindAccount(stage.accounts, other).value, stage.workers[other];
    if id == other {
      StepWritesOrNot(s.redis, s.now, run.kind, run.process, account, phase, input);
      assert CheckInv(s.redis, s.now, s.history, run.kind, account, phase);
    } else {
      CheckTouchesOnlyItsAccount(s.redis, s.now, run.kind, run.process, account, phase, input, id);
    }
  }

  lemma RetryStepLeavesForAReason(s: System.State, event: Event, id: AccountId)
    requires Inv(s) && IsRetryEvent(event) && Step(s, event).Some?
    requires id in Queued(s.redis) && id !in Queued(Step(s, event).value.redis)
    ensures MayLeave(s, id) || MayLeave(Step(s, event).value, id)
  {
    if event.WalkRemove? {
      assert s.run.value.stage.dead == id;
    } else if event.MarkWrite? {
      assert s.run.value.stage.gone == id;
    } else {
      RetryFrame(s, event);
    }
  }

  lemma OutsideStepLeavesForAReason(s: System.State, event: Event, id: AccountId)
    requires Inv(s) && Step(s, event).Some? && !IsRetryEvent(event) && !event.Check?
    requires id in Queued(s.redis) && id !in Queued(Step(s, event).value.redis)
    ensures MayLeave(Step(s, event).value, id)
  {
    if IsPeriodicEvent(event) {
      PeriodicFrame(s, event);
    } else if IsEnvironmentEvent(event) {
      EnvironmentFrame(s, event);
    } else if IsLeftoverEvent(event) {
      NothingLingers(s, event);
    } else if !IsServerEvent(event) {
      ChunkFrame(s, event);
    }
  }

  /** One event: what takes an account out of the queues is a reason by itself. */
  lemma StepLeavesForAReason(s: System.State, event: Event, id: AccountId)
    requires Inv(s) && Step(s, event).Some?
    requires id in Queued(s.redis) && id !in Queued(Step(s, event).value.redis)
    ensures MayLeave(s, id) || MayLeave(Step(s, event).value, id)
  {
    if event.Check? {
      CheckStepLeavesForAReason(s, id, event.input, event.id);
    } else if IsRetryEvent(event) {
      RetryStepLeavesForAReason(s, event, id);
    } else {
      OutsideStepLeavesForAReason(s, event, id);
    }
  }

  /** In the run under way Mastodon has answered that it no longer has the account. */
  ghost predicate WasReportedGone(events: seq<Event>, id: AccountId) {
    exists m :: 0 <= m < |events| && events[m].FetchGone? && AsksAbout(After(events[..m]), id)
                && forall k :: m <= k < |events| ==> !events[k].StartRun?
  }

  predicate AsksAbout(s: Option<System.State>, id: AccountId) {
    && s.Some? && s.value.run.Some? && s.value.run.value.stage.Fetching?
    && s.value.run.value.stage.todo != [] && s.value.run.value.stage.todo[0] == id
  }

  /** The account that a retry run is closing as gone. */
  function Closing(s: System.State): Option<AccountId> {
    if s.run.None? then None
    else if s.run.value.stage.MarkReading? then Some(s.run.value.stage.gone)
    else if s.run.value.stage.MarkWriting? then Some(s.run.value.stage.gone)
    else None
  }

  lemma OnlyFetchGoneCloses(s: System.State, event: Event)
    requires Step(s, event).Some? && Closing(Step(s, event).value).Some?
    ensures !event.StartRun?
    ensures var id := Closing(Step(s, event).value).value;
            if event.FetchGone? then AsksAbout(Some(s), id) else Closing(s) == Some(id)
  {
    if IsRetryEvent(event) {
      RetryEventCloses(s, event);
    } else if IsServerEvent(event) {
      ServerFrame(s, event);
    } else if IsEnvironmentEvent(event) {
      EnvironmentFrame(s, event);
    } else if IsLeftoverEvent(event) {
      LeftoverFrame(s, event);
    }
  }

  lemma RetryEventCloses(s: System.State, event: Event)
    requires IsRetryEvent(event) && Step(s, event).Some? && Closing(Step(s, event).value).Some?
    ensures var id := Closing(Step(s, event).value).value;
            if event.FetchGone? then AsksAbout(Some(s), id) else Closing(s) == Some(id)
  {
    if !event.FetchGone? {
      ClosingGoesOn(s, s.run.value, event);
    }
  }

  lemma ClosingGoesOn(s: System.State, run: Run, event: Event)
    requires s.run == Some(run) && IsRetryEvent(event) && !event.FetchGone? && StepRetry(s, run, event).Some?
    requires Closing(StepRetry(s, run, event).value).Some?
    ensures Closing(s) == Closing(StepRetry(s, run, event).value)
  {
  }

  lemma {:induction false} ClosedWasReportedGone(events: seq<Event>, id: AccountId)
    requires After(events).Some? && Closing(After(events).value) == Some(id)
    ensures WasReportedGone(events, id)
    decreases |events|
  {
    var before, event := events[..|events| - 1], events[|events| - 1];
    LastStep(events);
    assert before + [event] == events;
    OnlyFetchGoneCloses(After(before).value, event);
    if event.FetchGone? {
      JustReportedGone(before, event, id);
    } else {
      ClosedWasReportedGone(before, id);
      StillReportedGone(before, event, id);
    }
  }

  lemma JustReportedGone(events: seq<Event>, event: Event, id: AccountId)
    requires event.FetchGone? && AsksAbout(After(events), id)
    ensures WasReportedGone(events + [event], id)
  {
    var longer := events + [event];
    assert longer[..|events|] == events && longer[|events|] == event;
  }

  lemma StillReportedGone(events: seq<Event>, event: Event, id: AccountId)
    requires WasReportedGone(events, id) && !event.StartRun?
    ensures WasReportedGone(events + [event], id)
  {
    var m :| 0 <= m < |events| && events[m].FetchGone? && AsksAbout(After(events[..m]), id)
             && forall k :: m <= k < |events| ==> !events[k].StartRun?;
    var longer := events + [event];
    assert longer[..m] == events[..m] && longer[m] == events[m];
    assert forall k :: m <= k < |longer| ==> k == |events| || longer[k] == events[k];
  }

  /** After the first `m` events the account had a reason to be in neither queue. */
  ghost predicate HadReason(events: seq<Event>, m: nat, id: AccountId) {
    && m <= |events| && After(events[..m]).Some?
    && var s := After(events[..m]).value;
    && MayLeave(s, id)
    && (ClosesWithoutRecord(s, id) ==> WasReportedGone(events[..m], id))
  }

  /**
   Over every history, an account that is in a queue at one moment and in neither at a later one has
   in between had feedback or a completed record, or a retry run was told that Mastodon no longer has
   it and nothing was on record. No crash, lost reply or interleaving drops it otherwise.
   */
  lemma {:induction false} AccountsLeaveTheQueueForAReason(events: seq<Event>, n: nat, id: AccountId)
    requires After(events).Some? && n <= |events| && After(events[..n]).Some?
    requires id in Queued(After(events[..n]).value.redis) && id !in Queued(After(events).value.redis)
    ensures exists m :: n <= m && HadReason(events, m, id)
    decreases |events|
  {
    assert events[..|events|] == events;
    var before, last := events[..|events| - 1], |events| - 1;
    LastStep(events);
    assert before[..n] == events[..n];
    if id in Queued(After(before).value.redis) {
      LastEventHadReason(events, id);
    } else {
      AccountsLeaveTheQueueForAReason(before, n, id);
      var m :| n <= m && HadReason(before, m, id);
      assert before[..m] == events[..m];
      assert HadReason(events, m, id);
    }
  }

  lemma {:induction false} LastEventHadReason(events: seq<Event>, id: AccountId)
    requires events != [] && After(events).Some?
    requires id in Queued(After(events[..|events| - 1]).value.redis) && id !in Queued(After(events).value.redis)
    ensures HadReason(events, |events| - 1, id) || HadReason(events, |events|, id)
  {
    var last := |events| - 1;
    LastStep(events);
    assert events[..|events|] == events;
    StepLeavesForAReason(After(events[..last]).value, events[last], id);
    if MayLeave(After(events[..last]).value, id) {
      ReasonAt(events, last, id);
    } else {
      ReasonAt(events, |events|, id);
    }
  }

  lemma ReasonAt(events: seq<Event>, m: nat, id: AccountId)
    requires m <= |events| && After(events[..m]).Some? && MayLeave(After(events[..m]).value, id)
    ensures HadReason(events, m, id)
  {
    if ClosesWithoutRecord(After(events[..m]).value, id) {
      ClosedWasReportedGone(events[..m], id);
    }
  }
}
